# Flight-record query pipeline, modelled in Dafny

This project models the query pipeline of a console application that inspects
live and historical flight data. A live record is an OpenSky "state vector".
It is a positional list, and the pipeline reads six of its slots:

- index 1: callsign
- index 2: origin country
- index 3: report time
- index 7: altitude
- index 9: velocity
- index 10: heading

The model keeps those six slots as optional fields of the datatype `Records.StateVector`.

The model covers:

- the sort engine `ordenar_voos`, including the keys it uses for missing values and the stability of Python's sort;
- the generic filter `filtrar_voos`, including what it returns when a condition raises;
- the eight-sector heading classifier;
- the filter conditions and input guards of the interactive filters: altitude, known/unknown altitude, min/max speed, the four-quadrant direction table, national/international origin, and the monitoring parameters;
- the country and one-hour time-window queries;
- the coordinate guard of the address lookup;
- the flight-code normalisation, validation and first-match search;
- for historical queries: the interval checks, and the reshaping of historical records into the rows handed to the table display.

Modules, one file each:

| file | module | contents |
|---|---|---|
| `seqs.dfy` | `Seqs` | order-preserving filtering: `Filter` and its characterisation `SelectedBy` (subsequence with exact multiplicities) |
| `text.dfy` | `Text` | `str.strip`, `str.upper` and `str.lower` |
| `records.dfy` | `Records` | the state vector, Python truthiness of its fields, and the Python values held in positional rows |
| `utils.dfy` | `Utils` | sorting, the generic filter, the heading classifier and the table display's index lookups (`src/utils.py`) |
| `consultas.dfy` | `Consultas` | country and time-window queries, and the address lookup (`src/consultas.py`) |
| `filtros.dfy` | `Filtros` | the interactive filters, one round each (`src/filtros.py`) |
| `busca.dfy` | `Busca` | flight-code validation and search (`src/busca.py`) |
| `voos_historicos.dfy` | `VoosHistoricos` | historical-query interval checks and row reshape (`src/voos_historicos.py`) |

Conventions:

- Times are integer seconds, and the current time is a parameter.
- The reverse geocoder is a function parameter. It answers with an address, with nothing, or with a failure and its message.
- A condition that may raise is a function into `Value(b) | Raised`.
- Missing and `None` entries of a historical record are kept apart, because `dict.get(key, default)` applies the default only to a missing key.

## Model

| member | source | states |
|---|---|---|
| Utils.OrdenarVoos | src/utils.py:29-54 | An empty list and an unrecognised criterion give the input back unchanged. For "altitude", "velocidade" and "callsign", the result is a permutation of the input, sorted pairwise by the criterion's key: descending for the numeric keys, ascending for the callsign. |
| Utils.SortBy | src/utils.py:54 | Sorting gives a permutation of the input that is ordered by the criterion's key. |
| Utils.OrdenarVoosStable | src/utils.py:54 | For every key value, the records with that key appear in the result in their input order. This is stability, including under `reverse=True`. |
| Utils.OrdenarVoosIdempotent | src/utils.py:29-54 | Sorting an already sorted result again changes nothing. |
| Utils.AbsentNumbersLast | src/utils.py:44-54 | When sorting by altitude or velocity, a record whose value is `None` (keyed as `-inf`) comes after every record that has a value. |
| Utils.AbsentCallsignsFirst | src/utils.py:48-54 | When sorting by callsign, a record with a `None` callsign (keyed as `""`) comes before every record with a non-empty callsign. |
| Utils.Comprehension | src/utils.py:120 | The list comprehension fails exactly when some record's condition raises. Otherwise it is the in-order selection of the records whose condition is true. |
| Utils.FiltrarVoos | src/utils.py:115-124 | If any condition evaluation raises, the result is `[]`. If none raises, the result is exactly the records satisfying the condition, as an order-preserving subsequence with the input's multiplicities. |
| Utils.FiltrarVoosTotal | src/utils.py:119-120 | With a condition that never raises, the result is the selection by that condition. |
| Utils.ConverterGrauParaDirecao | src/utils.py:126-154 | `None` is labelled unknown. A value outside `[0, 360)` gets the "desconhecida" label. Every value in `[0, 360)` gets a sector. |
| Utils.ClassifierAgreesWithTable | src/utils.py:133-148 | A heading gets sector `s` iff it lies in `s`'s half-open interval(s) of the eight-sector table, in both directions. |
| Utils.EightSectorsPartition | src/utils.py:133-150 | The eight half-open sector ranges are disjoint and cover `[0, 360)`. |
| Consultas.BuscarVoosPorPais | src/consultas.py:9-33 | An empty list gives `[]`. The result is exactly the records whose origin country equals `pais` (exact and case-sensitive), in input order. |
| Consultas.BuscarVoosPorHorario | src/consultas.py:35-70 | The loop keeps a record iff its report time is truthy (present and non-zero) and lies in `[horario, horario + 1h]`. The result is the order-preserving selection by that condition. |
| Consultas.WindowEndsInclusive | src/consultas.py:59-65 | Both ends of the one-hour window are included. A zero timestamp and a time past the window never match. |
| Consultas.ObterEndereco | src/consultas.py:72-96 | A `None` or zero coordinate gives "Coordenadas inválidas". Otherwise the result is the geocoder's address, or "Destino não encontrado" when it finds nothing, or a string starting with "Erro ao obter endereço: " followed by the failure message. |
| Consultas.InvalidCoordinatesSkipGeocoder | src/consultas.py:84-85 | For invalid coordinates the geocoder is not consulted: any two geocoders give the same answer, "Coordenadas inválidas". |
| Consultas.ValidCoordinatesAskGeocoderOnce | src/consultas.py:86-96 | For valid coordinates, the answer depends only on the geocoder's reply at exactly those coordinates. |
| Filtros.FiltrarPorAltitude | src/filtros.py:26-33 | A minimum of 0 or less is rejected before any filtering. Otherwise the result is the in-order selection of the records whose altitude is truthy and at least the minimum. |
| Filtros.MostrarVoosComAltitudeConhecida | src/filtros.py:102 | The result is the in-order selection of the records whose altitude is not `None`. |
| Filtros.MostrarVoosComAltitudeDesconhecida | src/filtros.py:124 | The result is the in-order selection of the records whose altitude is `None`. |
| Filtros.AltitudeViewsPartition | src/filtros.py:102-124 | The known-altitude and unknown-altitude views split any list into complementary parts: together their multisets equal the input's, and every record is in exactly one of them. |
| Filtros.ParseTipoVelocidade | src/filtros.py:150-153 | After strip and lower-casing, "min" and "max" are accepted, and nothing else is. |
| Filtros.FiltrarPorVelocidade | src/filtros.py:150-163 | A bad min/max answer or a negative bound is rejected. Otherwise the result is the in-order selection by the bound. No shown record has a `None` or zero velocity, under either bound. |
| Filtros.ParseDirecao | src/filtros.py:192-204 | After strip and lower-casing, only "norte", "sul", "leste" and "oeste" are accepted, and each word selects its own quadrant: "norte" north, "sul" south, "leste" east, "oeste" west. |
| Filtros.QuadrantAgreesWithTable | src/filtros.py:197-204 | Each direction's condition holds exactly on its entry of the four-quadrant table. |
| Filtros.FourQuadrantsPartition | src/filtros.py:197-204 | The four quadrants are disjoint and cover `[0, 360)`. A `None` heading, or one outside `[0, 360)`, is in none of them. |
| Filtros.QuadrantsDifferFromSectors | src/filtros.py:197-198 | The quadrant table and the eight-sector table are different partitions: 30° is north here but northeast there. |
| Filtros.FiltrarPorDirecao | src/filtros.py:192-206 | An unknown direction is rejected. Otherwise the result is the in-order selection of the records whose heading lies in the chosen quadrant. |
| Filtros.VoosInternacionais | src/filtros.py:63 | The result is the in-order selection of the records whose origin country is not "Brazil", including those whose country is `None`. |
| Filtros.FiltrarPorOrigem | src/filtros.py:60-83 | After strip: option "1" shows the international records, "2" shows the national ones, "3" exits, and any other input is rejected. |
| Filtros.OriginOptionsPartition | src/filtros.py:63-71 | The international and national selections split the list: the multisets add up to the input's, every record is in exactly one of them, and records with no country are international. |
| Filtros.ValidarMonitoramento | src/filtros.py:231-238 | A distance outside `[0, 100]` is rejected first, then an interval of 0 or less. Monitoring starts iff both are valid. |
| Busca.NormalizarCodigo | src/busca.py:41 | The typed code, after `.strip().upper()`, has no leading or trailing whitespace and no lower-case letter. |
| Text.Upper | src/busca.py:41 | Upper-casing keeps the length and maps each character on its own: ASCII lower-case letters become upper-case, and everything else is unchanged. |
| Text.Lower | src/filtros.py:150 | Lower-casing keeps the length and maps each character on its own: ASCII upper-case letters become lower-case, and everything else is unchanged. |
| Text.Strip | src/busca.py:41 | The result is a contiguous slice of the input, with no leading or trailing whitespace. |
| Busca.MatchesRun | src/busca.py:44 | `^[A-Z0-9]{3,8}$` under `re.match` accepts a run of 3 to 8 code characters, optionally followed by one final newline, since Python's `$` matches before it. |
| Busca.NormalizedCodeValid | src/busca.py:41-44 | A normalised code is accepted iff it has 3 to 8 characters, each in A–Z or 0–9. |
| Busca.CodeLengthBounds | src/busca.py:44-45 | The length bounds are 3 and 8, not 4 and 7. A character outside the class is refused. |
| Busca.BuscarVoo | src/busca.py:57 | The result is `None` iff no record matches. Otherwise it is the first matching record in input order: its callsign is truthy and its trimmed, upper-cased value equals the code. |
| Busca.RecordsWithoutCallsignIgnored | src/busca.py:57 | Records with a `None` or empty callsign never match: removing them does not change the search result. |
| Busca.BuscarVooEspecifico | src/busca.py:41-64 | Validation comes before the fetch. A fetch failure is reported only for a valid code. A found record is the first record, in input order, that matches the normalised code. The not-found branch happens only when no record matches. |
| Busca.BuscarCodigo | src/busca.py:44-64 | Given the normalised code, an invalid code is refused before any lookup. "Unavailable" happens iff the code is valid and the fetch failed. A found record is the first record, in input order, that matches the code. The not-found branch happens only when no record matches. |
| Busca.NormalizedHasNoFinalNewline | src/busca.py:41 | A trimmed, upper-cased code never ends with a newline, so the `$`-before-newline case cannot apply to it. |
| Busca.NormalizeIgnoresCase | src/busca.py:41 | Normalisation ignores the case of the typed code. |
| Busca.SearchIgnoresCase | src/busca.py:41-64 | The whole search round ignores the case of the typed code. |
| VoosHistoricos.ValidarIntervalo | src/voos_historicos.py:78-91 | A start after "now" is rejected first, then an end not strictly after the start, then an interval longer than two hours. Exactly two hours is accepted. |
| VoosHistoricos.FormatarVoo | src/voos_historicos.py:112-124 | Each row has 10 slots. Slots 0, 4, 5 and 6 are `None`. Slot 1 is the callsign, with "N/A" when the key is missing. Slot 2 is the country, with "Desconhecido" when missing. Slot 3 is the address lookup. Slots 7, 8 and 9 are altitude, velocity and heading, with "Desconhecida" when missing. |
| VoosHistoricos.MissingCoordinatesGiveInvalidAddress | src/voos_historicos.py:117 | A record whose latitude or longitude is missing, `None` or zero gets "Coordenadas inválidas" as its address. |
| VoosHistoricos.FormatarVoos | src/voos_historicos.py:111-126 | There is exactly one row per historical record, in input order. |
| Utils.ExibirListaVoos | src/utils.py:60-90 | An empty list prints the "no flights" message. Otherwise the display raises iff some row has 10 or fewer slots, because it reads index 10 of every row. |
| VoosHistoricos.ExibirVoosHistoricos | src/voos_historicos.py:78-139 | The outcome is an interval error iff some interval check fails. "No data" happens iff the interval is valid and the fetch gave `None`. |
| VoosHistoricos.HistoricalDisplayAlwaysFails | src/voos_historicos.py:111-139 | As written, every non-empty historical result ends in the generic error handler. An empty result is shown as "no flights". |
| VoosHistoricos.FormatarVooAlinhado | src/voos_historicos.py:111-126 | In the corrected row, slots 0–7 are unchanged, slot 8 is `None`, velocity is in slot 9 and heading in slot 10, as in a live state vector. |
| VoosHistoricos.FormatarVoosAlinhados | src/voos_historicos.py:111-126 | There is one corrected row per record, in input order. |
| VoosHistoricos.ExibirVoosHistoricosAlinhado | src/voos_historicos.py:78-139 | With the corrected rows, the same interval and no-data outcomes hold, and the display never fails. |
| VoosHistoricos.AlignedDisplayShowsEveryFlight | src/voos_historicos.py:111-129 | With the corrected rows, a valid non-empty result is displayed with one row per record. The display finds each record's velocity at slot 9 and its heading at slot 10. |

## Findings

| source | as written | input that shows it | evidently intended | confidence | as-written member | corrected member |
|---|---|---|---|---|---|---|
| src/voos_historicos.py:111-126 | Historical rows have 10 slots, with velocity at 8 and heading at 9. The table display reads `voo[10]` (src/utils.py:90), so it raises `IndexError`, which the generic handler at src/voos_historicos.py:139 catches. | Any valid interval for which the source returns one record, e.g. `{"callsign": "TAM3054"}` | 11-slot rows laid out like a live state vector: velocity at 9 and heading at 10 | high; not executed | VoosHistoricos.HistoricalDisplayAlwaysFails | VoosHistoricos.ExibirVoosHistoricosAlinhado |

The as-written functions (`FormatarVoo`, `ExibirVoosHistoricos`) stay in the model as the source has them. The corrected ones sit beside them and are used only for the intended-behaviour lemma.

## Left out

- Console I/O: prompts, `tentar_novamente`, and the interactive `while True` retry loops around each filter. Each filter is modelled as one round, taking the already-read input to an outcome.
- The table rendering of `exibir_lista_voos`. Only whether its index lookups succeed is modelled (`Utils.ExibirListaVoos`). The formatting of the cells, including `formatar_numero`, is left out.
- The HTTP client (src/api.py), the monitoring loop, map building and the browser launch. The fetched list is a parameter, and `None` stands for a failed fetch.
- The reverse geocoder (Nominatim) and the IP location lookup `obter_localizacao`: the geocoder is an abstract function parameter.
- `datetime.now`, `strptime`, `fromtimestamp` and `.timestamp()`. Times are integer seconds, and the current time is a parameter. Time zones, DST and a malformed date string (the `ValueError` branch) are not modelled.
- The `float(...)` and `int(...)` parsing of typed numbers and its `ValueError`. NaN and infinities are not modelled, since the numbers are Dafny `real`s.
- Logging and the console messages.
- The degree text in the classifier's label (`f"{grau}° (...)"`). Only the sector is modelled.
- Utils.ConverterGrauParaDirecao: takes an optional `real`, so the `except` branch for a non-numeric heading is not modelled.
- Text.Upper and Text.Lower map ASCII letters only. Python's full Unicode case mapping is not modelled, but `strip` uses Python's full whitespace set.
- Records: live state vectors hold only the six slots the pipeline reads. Each slot has a single type (text, integer time or `real`), so a mistyped slot and the exceptions it would raise are not modelled, except through the explicit `Raised` outcome of the generic filter.
- The docstring at src/busca.py:20 says codes have 4 to 7 characters, but the pattern at src/busca.py:44 accepts 3 to 8. The model follows the code.
- src/main.py and src/menus.py (menu dispatch) are not part of this model.
