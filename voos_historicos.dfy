/**
 * The historical-flights query: the start/end interval checks, the
 * reshaping of each historical record into a positional row, and whether
 * the shared table display can read those rows.
 */
module VoosHistoricos {
  import opened Records
  import Consultas
  import Utils

  // ---------------------------------------------------------------------
  // Interval validation (times in seconds)
  // ---------------------------------------------------------------------

  /** `timedelta(hours=2)` in seconds. */
  const TwoHours: int := 7200

  datatype IntervalCheck = StartInFuture | EndNotAfterStart | IntervalTooLong | IntervalOk

  /**
   * The three checks, in the source's order: the start may not lie after
   * `agora`, the end must be strictly after the start, and the interval
   * may not exceed two hours (exactly two hours is accepted).
   */
  function ValidarIntervalo(agora: int, inicio: int, fim: int): (r: IntervalCheck)
    ensures r == IntervalOk <==> inicio <= agora && inicio < fim <= inicio + TwoHours
    ensures r == StartInFuture <==> inicio > agora
    ensures r == EndNotAfterStart <==> inicio <= agora && fim <= inicio
    ensures r == IntervalTooLong <==> inicio <= agora && fim > inicio + TwoHours
  {
    if inicio > agora then StartInFuture
    else if fim <= inicio then EndNotAfterStart
    else if fim - inicio > TwoHours then IntervalTooLong
    else IntervalOk
  }

  // ---------------------------------------------------------------------
  // Historical records and their reshaped rows
  // ---------------------------------------------------------------------

  /** One key of a historical record: missing, present as `None`, or a value. */
  datatype Entry<T> = Missing | Null | Present(v: T)

  /** A record from the historical-flights source, by key. */
  datatype HistoricalFlight = HistoricalFlight(
    callsign: Entry<string>,
    originCountry: Entry<string>,
    latitude: Entry<real>,
    longitude: Entry<real>,
    altitude: Entry<real>,
    velocity: Entry<real>,
    heading: Entry<real>)

  /** `voo.get(key, default)` for a text key: the default only when the key is missing. */
  function GetText(e: Entry<string>, default: string): PyValue {
    match e
    case Missing => PyStr(default)
    case Null => PyNone
    case Present(s) => PyStr(s)
  }

  /** `voo.get(key, default)` for a numeric key with a text default. */
  function GetNumber(e: Entry<real>, default: string): PyValue {
    match e
    case Missing => PyStr(default)
    case Null => PyNone
    case Present(x) => PyNum(x)
  }

  /** `voo.get(key, 0)` for a coordinate, as handed to `obter_endereco`. */
  function GetCoordinate(e: Entry<real>): Option<real> {
    match e
    case Missing => Some(0.0)
    case Null => None
    case Present(x) => Some(x)
  }

  /** The address slot: the coordinates go through `obter_endereco`. */
  function AddressSlot(h: HistoricalFlight, geocode: (real, real) -> Consultas.GeoReply): PyValue {
    PyStr(Consultas.ObterEndereco(GetCoordinate(h.latitude), GetCoordinate(h.longitude), geocode))
  }

  /**
   * The row built for one historical record: ten slots, with callsign,
   * country and address at 1, 2 and 3, and altitude, velocity and heading
   * at 7, 8 and 9; slots 0, 4, 5 and 6 are `None`.
   */
  function FormatarVoo(h: HistoricalFlight, geocode: (real, real) -> Consultas.GeoReply): (row: seq<PyValue>)
    ensures |row| == 10
    ensures row[0] == row[4] == row[5] == row[6] == PyNone
    ensures row[1] == GetText(h.callsign, "N/A") && row[2] == GetText(h.originCountry, "Desconhecido")
    ensures row[3] == AddressSlot(h, geocode)
    ensures row[7] == GetNumber(h.altitude, "Desconhecida")
    ensures row[8] == GetNumber(h.velocity, "Desconhecida")
    ensures row[9] == GetNumber(h.heading, "Desconhecida")
  {
    [ PyNone,
      GetText(h.callsign, "N/A"),
      GetText(h.originCountry, "Desconhecido"),
      AddressSlot(h, geocode),
      PyNone,
      PyNone,
      PyNone,
      GetNumber(h.altitude, "Desconhecida"),
      GetNumber(h.velocity, "Desconhecida"),
      GetNumber(h.heading, "Desconhecida") ]
  }

  /**
   * A record whose latitude or longitude is missing, `None` or zero gets
   * "Coordenadas inválidas" as its address, whatever the geocoder does.
   */
  lemma MissingCoordinatesGiveInvalidAddress(h: HistoricalFlight, geocode: (real, real) -> Consultas.GeoReply)
    requires h.latitude.Missing? || h.latitude.Null? || h.latitude == Present(0.0)
          || h.longitude.Missing? || h.longitude.Null? || h.longitude == Present(0.0)
    ensures FormatarVoo(h, geocode)[3] == PyStr(Consultas.CoordenadasInvalidas)
  {
    assert Consultas.InvalidCoordinates(GetCoordinate(h.latitude), GetCoordinate(h.longitude));
  }

  /** `voos_formatados`: one row per historical record, in input order. */
  function FormatarVoos(voos: seq<HistoricalFlight>, geocode: (real, real) -> Consultas.GeoReply): (rows: seq<seq<PyValue>>)
    ensures |rows| == |voos|
    ensures forall i :: 0 <= i < |voos| ==> rows[i] == FormatarVoo(voos[i], geocode)
  {
    if voos == [] then []
    else [FormatarVoo(voos[0], geocode)] + FormatarVoos(voos[1..], geocode)
  }

  // ---------------------------------------------------------------------
  // One round of exibir_voos_historicos
  // ---------------------------------------------------------------------

  datatype HistoricalOutcome =
    | InvalidInterval(reason: IntervalCheck)   // one of the interval checks failed
    | NoData                                   // the source returned nothing
    | NoFlights                                // an empty list was shown
    | Shown(rows: seq<seq<PyValue>>)           // the rows were displayed
    | QueryError                               // an exception reached the outer handler

  function Outcome(d: Utils.Display): HistoricalOutcome {
    match d
    case NoFlightsMessage => NoFlights
    case Table(rows) => Shown(rows)
    case IndexError => QueryError
  }

  /**
   * `exibir_voos_historicos`, one round, as written: validate the interval,
   * reshape the fetched records and hand the rows to the display.
   */
  function ExibirVoosHistoricos(agora: int, inicio: int, fim: int,
                                fetched: Option<seq<HistoricalFlight>>,
                                geocode: (real, real) -> Consultas.GeoReply): (o: HistoricalOutcome)
    ensures o.InvalidInterval? <==> ValidarIntervalo(agora, inicio, fim) != IntervalOk
    ensures o.InvalidInterval? ==> o.reason == ValidarIntervalo(agora, inicio, fim)
    ensures o == NoData <==> ValidarIntervalo(agora, inicio, fim) == IntervalOk && fetched.None?
  {
    var check := ValidarIntervalo(agora, inicio, fim);
    if check != IntervalOk then InvalidInterval(check)
    else if fetched.None? then NoData
    else Outcome(Utils.ExibirListaVoos(FormatarVoos(fetched.value, geocode)))
  }

  /**
   * As written, any non-empty historical result ends in the error handler:
   * the rows have ten slots and the display reads slot 10. Only an empty
   * result is shown (as "no flights").
   */
  lemma HistoricalDisplayAlwaysFails(agora: int, inicio: int, fim: int,
                                     voos: seq<HistoricalFlight>,
                                     geocode: (real, real) -> Consultas.GeoReply)
    requires ValidarIntervalo(agora, inicio, fim) == IntervalOk
    ensures voos != [] ==> ExibirVoosHistoricos(agora, inicio, fim, Some(voos), geocode) == QueryError
    ensures voos == [] ==> ExibirVoosHistoricos(agora, inicio, fim, Some(voos), geocode) == NoFlights
  {
    var rows := FormatarVoos(voos, geocode);
    if voos != [] {
      assert rows[0] in rows && |rows[0]| == 10;
    }
  }

  // ---------------------------------------------------------------------
  // The layout the display expects
  // ---------------------------------------------------------------------

  /**
   * The row laid out like a live state vector: velocity at 9 and heading
   * at 10, with slot 8 `None`; slots 0 to 7 as in `FormatarVoo`.
   */
  function FormatarVooAlinhado(h: HistoricalFlight, geocode: (real, real) -> Consultas.GeoReply): (row: seq<PyValue>)
    ensures |row| == 11
    ensures forall k :: 0 <= k < 8 ==> row[k] == FormatarVoo(h, geocode)[k]
    ensures row[8] == PyNone
    ensures row[9] == GetNumber(h.velocity, "Desconhecida") && row[10] == GetNumber(h.heading, "Desconhecida")
  {
    [ PyNone,
      GetText(h.callsign, "N/A"),
      GetText(h.originCountry, "Desconhecido"),
      AddressSlot(h, geocode),
      PyNone,
      PyNone,
      PyNone,
      GetNumber(h.altitude, "Desconhecida"),
      PyNone,
      GetNumber(h.velocity, "Desconhecida"),
      GetNumber(h.heading, "Desconhecida") ]
  }

  function FormatarVoosAlinhados(voos: seq<HistoricalFlight>, geocode: (real, real) -> Consultas.GeoReply): (rows: seq<seq<PyValue>>)
    ensures |rows| == |voos|
    ensures forall i :: 0 <= i < |voos| ==> rows[i] == FormatarVooAlinhado(voos[i], geocode)
  {
    if voos == [] then []
    else [FormatarVooAlinhado(voos[0], geocode)] + FormatarVoosAlinhados(voos[1..], geocode)
  }

  lemma AlignedRowsReadable(voos: seq<HistoricalFlight>, geocode: (real, real) -> Consultas.GeoReply)
    ensures forall row :: row in FormatarVoosAlinhados(voos, geocode) ==> |row| == 11
  {
    var rows := FormatarVoosAlinhados(voos, geocode);
    forall row | row in rows ensures |row| == 11 {
      var i :| 0 <= i < |rows| && rows[i] == row;
    }
  }

  /** `exibir_voos_historicos` with the aligned rows. */
  function ExibirVoosHistoricosAlinhado(agora: int, inicio: int, fim: int,
                                        fetched: Option<seq<HistoricalFlight>>,
                                        geocode: (real, real) -> Consultas.GeoReply): (o: HistoricalOutcome)
    ensures o.InvalidInterval? <==> ValidarIntervalo(agora, inicio, fim) != IntervalOk
    ensures o == NoData <==> ValidarIntervalo(agora, inicio, fim) == IntervalOk && fetched.None?
    ensures o != QueryError
  {
    var check := ValidarIntervalo(agora, inicio, fim);
    if check != IntervalOk then InvalidInterval(check)
    else if fetched.None? then NoData
    else
      AlignedRowsReadable(fetched.value, geocode);
      Outcome(Utils.ExibirListaVoos(FormatarVoosAlinhados(fetched.value, geocode)))
  }

  /**
   * With the aligned layout every valid query that returns data is shown,
   * one row per record, and the display finds each record's velocity at
   * slot 9 and heading at slot 10.
   */
  lemma AlignedDisplayShowsEveryFlight(agora: int, inicio: int, fim: int,
                                       voos: seq<HistoricalFlight>,
                                       geocode: (real, real) -> Consultas.GeoReply)
    requires ValidarIntervalo(agora, inicio, fim) == IntervalOk && voos != []
    ensures var o := ExibirVoosHistoricosAlinhado(agora, inicio, fim, Some(voos), geocode);
            && o.Shown?
            && |o.rows| == |voos|
            && forall i :: 0 <= i < |voos| ==>
                 && o.rows[i][9] == GetNumber(voos[i].velocity, "Desconhecida")
                 && o.rows[i][10] == GetNumber(voos[i].heading, "Desconhecida")
  {
    var rows := FormatarVoosAlinhados(voos, geocode);
    AlignedRowsReadable(voos, geocode);
    assert Utils.ExibirListaVoos(rows) == Utils.Table(rows);
    assert ExibirVoosHistoricosAlinhado(agora, inicio, fim, Some(voos), geocode) == Shown(rows);
    forall i | 0 <= i < |voos|
      ensures && rows[i][9] == GetNumber(voos[i].velocity, "Desconhecida")
              && rows[i][10] == GetNumber(voos[i].heading, "Desconhecida")
    {
      assert rows[i] == FormatarVooAlinhado(voos[i], geocode);
    }
  }
}
