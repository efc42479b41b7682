/**
 * Queries over live state vectors: by origin country, by a one-hour
 * time window, and the address lookup that guards the reverse geocoder.
 */
module Consultas {
  import opened Records
  import Seqs

  // ---------------------------------------------------------------------
  // buscar_voos_por_pais
  // ---------------------------------------------------------------------

  /** Exact, case-sensitive comparison of `estado[2]` with `pais`. */
  function CountryIs(pais: string): StateVector -> bool {
    (v: StateVector) => v.originCountry == Some(pais)
  }

  /**
   * `buscar_voos_por_pais`: the records whose origin country is exactly
   * `pais`, in input order; an empty list gives an empty list.
   */
  function BuscarVoosPorPais(estados: seq<StateVector>, pais: string): (r: seq<StateVector>)
    ensures estados == [] ==> r == []
    ensures Seqs.SelectedBy(r, estados, CountryIs(pais))
  {
    if estados == [] then []
    else
      Seqs.FilterSelects(estados, CountryIs(pais));
      Seqs.Filter(estados, CountryIs(pais))
  }

  // ---------------------------------------------------------------------
  // buscar_voos_por_horario
  // ---------------------------------------------------------------------

  /** `timedelta(hours=1)` in seconds. */
  const OneHour: int := 3600

  /**
   * `estado[3]` is truthy and the report time lies in
   * `[horario, horario + 1h]`, both ends included.
   */
  predicate DepartsWithinHour(v: StateVector, horario: int) {
    TruthyTime(v.timePosition) && horario <= v.timePosition.value <= horario + OneHour
  }

  function DepartsWithin(horario: int): StateVector -> bool {
    (v: StateVector) => DepartsWithinHour(v, horario)
  }

  /**
   * `buscar_voos_por_horario`: walks the list once, appending each record
   * whose report time falls in the window. The result is the selection of
   * the input by `DepartsWithinHour`.
   */
  method BuscarVoosPorHorario(estados: seq<StateVector>, horario: int) returns (r: seq<StateVector>)
    ensures r == Seqs.Filter(estados, DepartsWithin(horario))
    ensures Seqs.SelectedBy(r, estados, DepartsWithin(horario))
  {
    Seqs.FilterSelects(estados, DepartsWithin(horario));
    if estados == [] {
      return [];
    }
    r := [];
    var i := 0;
    while i < |estados|
      invariant 0 <= i <= |estados|
      invariant r == Seqs.Filter(estados[..i], DepartsWithin(horario))
    {
      var estado := estados[i];
      if TruthyTime(estado.timePosition) {
        var horaPartida := estado.timePosition.value;
        if horario <= horaPartida <= horario + OneHour {
          r := r + [estado];
        }
      }
      assert estados[..i + 1] == estados[..i] + [estado];
      Seqs.FilterAppend(estados[..i], [estado], DepartsWithin(horario));
      i := i + 1;
    }
    assert estados[..i] == estados;
  }

  /** Both ends of the window are inclusive; a zero timestamp never matches. */
  lemma WindowEndsInclusive(v: StateVector, horario: int)
    requires v.timePosition.Some?
    ensures v.timePosition.value == horario && horario != 0 ==> DepartsWithinHour(v, horario)
    ensures v.timePosition.value == horario + OneHour && horario + OneHour != 0 ==> DepartsWithinHour(v, horario)
    ensures v.timePosition.value == 0 ==> !DepartsWithinHour(v, horario)
    ensures v.timePosition.value > horario + OneHour ==> !DepartsWithinHour(v, horario)
  {
  }

  // ---------------------------------------------------------------------
  // obter_endereco
  // ---------------------------------------------------------------------

  /** What the reverse geocoder does for one pair of coordinates. */
  datatype GeoReply = Found(address: string) | NothingFound | Failed(cause: string)

  const CoordenadasInvalidas: string := "Coordenadas inválidas"
  const DestinoNaoEncontrado: string := "Destino não encontrado"
  const ErroAoObterEndereco: string := "Erro ao obter endereço: "

  /** Coordinates the lookup refuses: either one missing or exactly zero. */
  predicate InvalidCoordinates(lat: Option<real>, lon: Option<real>) {
    lat.None? || lon.None? || lat.value == 0.0 || lon.value == 0.0
  }

  /**
   * `obter_endereco`: invalid coordinates give "Coordenadas inválidas";
   * otherwise the geocoder's address, "Destino não encontrado" when it
   * finds nothing, or the error prefix followed by the failure's cause.
   */
  function ObterEndereco(lat: Option<real>, lon: Option<real>, geocode: (real, real) -> GeoReply): (r: string)
    ensures InvalidCoordinates(lat, lon) ==> r == CoordenadasInvalidas
    ensures !InvalidCoordinates(lat, lon) ==>
              match geocode(lat.value, lon.value)
              case Found(a) => r == a
              case NothingFound => r == DestinoNaoEncontrado
              case Failed(e) => r == ErroAoObterEndereco + e && r[..|ErroAoObterEndereco|] == ErroAoObterEndereco
  {
    if InvalidCoordinates(lat, lon) then CoordenadasInvalidas
    else
      match geocode(lat.value, lon.value)
      case Found(a) => a
      case NothingFound => DestinoNaoEncontrado
      case Failed(e) => ErroAoObterEndereco + e
  }

  /**
   * For invalid coordinates the geocoder is never consulted: any two
   * geocoders give the same answer.
   */
  lemma InvalidCoordinatesSkipGeocoder(lat: Option<real>, lon: Option<real>,
                                       g1: (real, real) -> GeoReply, g2: (real, real) -> GeoReply)
    requires InvalidCoordinates(lat, lon)
    ensures ObterEndereco(lat, lon, g1) == ObterEndereco(lat, lon, g2) == CoordenadasInvalidas
  {
  }

  /**
   * For valid coordinates the answer depends only on the geocoder's reply
   * at exactly those coordinates.
   */
  lemma ValidCoordinatesAskGeocoderOnce(lat: real, lon: real,
                                        g1: (real, real) -> GeoReply, g2: (real, real) -> GeoReply)
    requires lat != 0.0 && lon != 0.0
    requires g1(lat, lon) == g2(lat, lon)
    ensures ObterEndereco(Some(lat), Some(lon), g1) == ObterEndereco(Some(lat), Some(lon), g2)
  {
  }
}
