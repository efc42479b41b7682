/**
 * The interactive filters over live state vectors: the condition each one
 * applies and the input guard in front of it. The retry loops, prompts
 * and table display around them are not modelled; each filter is one
 * round, from the already-read input to what it shows.
 */
module Filtros {
  import opened Records
  import Text
  import Seqs
  import Utils
  import Consultas

  /** What one round of a filter ends with. */
  datatype Outcome =
    | Rejected                        // the input guard refused the parameters
    | Exit                            // the user chose to go back to the menu
    | Shown(voos: seq<StateVector>)   // the records displayed (possibly none)

  // ---------------------------------------------------------------------
  // filtrar_por_altitude
  // ---------------------------------------------------------------------

  /** `voo[7] and voo[7] >= altitude_minima` */
  predicate AltitudeAtLeast(v: StateVector, altitudeMinima: real) {
    TruthyNumber(v.altitude) && v.altitude.value >= altitudeMinima
  }

  function AltitudeAtLeastP(altitudeMinima: real): StateVector -> bool {
    (v: StateVector) => AltitudeAtLeast(v, altitudeMinima)
  }

  /**
   * `filtrar_por_altitude`: a minimum that is not positive is refused
   * before any filtering; otherwise the records with a known altitude of
   * at least the minimum, in input order.
   */
  function FiltrarPorAltitude(estados: seq<StateVector>, altitudeMinima: real): (o: Outcome)
    ensures o == Rejected <==> altitudeMinima <= 0.0
    ensures o != Rejected ==> o.Shown? && Seqs.SelectedBy(o.voos, estados, AltitudeAtLeastP(altitudeMinima))
  {
    if altitudeMinima <= 0.0 then Rejected
    else
      Utils.FiltrarVoosTotal(estados, AltitudeAtLeastP(altitudeMinima));
      Shown(Utils.FiltrarVoos(estados, Utils.Lift(AltitudeAtLeastP(altitudeMinima))))
  }

  // ---------------------------------------------------------------------
  // mostrar_voos_com_altitude_conhecida / _desconhecida
  // ---------------------------------------------------------------------

  function AltitudeKnown(): StateVector -> bool {
    (v: StateVector) => v.altitude.Some?
  }

  function AltitudeUnknown(): StateVector -> bool {
    (v: StateVector) => v.altitude.None?
  }

  /** The records whose altitude is not `None`, in input order. */
  function MostrarVoosComAltitudeConhecida(estados: seq<StateVector>): (r: seq<StateVector>)
    ensures Seqs.SelectedBy(r, estados, AltitudeKnown())
  {
    Utils.FiltrarVoosTotal(estados, AltitudeKnown());
    Utils.FiltrarVoos(estados, Utils.Lift(AltitudeKnown()))
  }

  /** The records whose altitude is `None`, in input order. */
  function MostrarVoosComAltitudeDesconhecida(estados: seq<StateVector>): (r: seq<StateVector>)
    ensures Seqs.SelectedBy(r, estados, AltitudeUnknown())
  {
    Utils.FiltrarVoosTotal(estados, AltitudeUnknown());
    Utils.FiltrarVoos(estados, Utils.Lift(AltitudeUnknown()))
  }

  /**
   * The known-altitude and unknown-altitude views split any list: every
   * record lands in exactly one, as often as it occurs in the input.
   */
  lemma AltitudeViewsPartition(estados: seq<StateVector>)
    ensures var known := MostrarVoosComAltitudeConhecida(estados);
            var unknown := MostrarVoosComAltitudeDesconhecida(estados);
            && multiset(known) + multiset(unknown) == multiset(estados)
            && forall v :: v in estados ==> (v in known <==> v !in unknown)
  {
    Seqs.SelectionsPartition(estados, MostrarVoosComAltitudeConhecida(estados),
      MostrarVoosComAltitudeDesconhecida(estados), AltitudeKnown(), AltitudeUnknown());
  }

  // ---------------------------------------------------------------------
  // filtrar_por_velocidade
  // ---------------------------------------------------------------------

  datatype SpeedBound = Minimum | Maximum

  /** The answer to "min/max", after `.strip().lower()`. */
  function ParseTipoVelocidade(tipo: string): (b: Option<SpeedBound>)
    ensures b == Some(Minimum) <==> Text.Lower(Text.Strip(tipo)) == "min"
    ensures b == Some(Maximum) <==> Text.Lower(Text.Strip(tipo)) == "max"
  {
    var t := Text.Lower(Text.Strip(tipo));
    if t == "min" then Some(Minimum)
    else if t == "max" then Some(Maximum)
    else None
  }

  /** `voo[9] and voo[9] >= velocidade` or `voo[9] and voo[9] <= velocidade` */
  predicate SpeedWithin(v: StateVector, bound: SpeedBound, velocidade: real) {
    && TruthyNumber(v.velocity)
    && match bound
       case Minimum => v.velocity.value >= velocidade
       case Maximum => v.velocity.value <= velocidade
  }

  function SpeedWithinP(bound: SpeedBound, velocidade: real): StateVector -> bool {
    (v: StateVector) => SpeedWithin(v, bound, velocidade)
  }

  /**
   * `filtrar_por_velocidade`: an answer other than "min"/"max" or a
   * negative bound is refused; otherwise the records meeting the bound.
   * Because the condition tests `voo[9]` for truthiness, neither filter
   * ever shows a record whose velocity is `None` or zero.
   */
  function FiltrarPorVelocidade(estados: seq<StateVector>, tipo: string, velocidade: real): (o: Outcome)
    ensures o == Rejected <==> ParseTipoVelocidade(tipo).None? || velocidade < 0.0
    ensures o != Rejected ==>
              o.Shown? && Seqs.SelectedBy(o.voos, estados, SpeedWithinP(ParseTipoVelocidade(tipo).value, velocidade))
    ensures o.Shown? ==> forall v :: v in o.voos ==> v.velocity.Some? && v.velocity.value != 0.0
  {
    match ParseTipoVelocidade(tipo)
    case None => Rejected
    case Some(bound) =>
      if velocidade < 0.0 then Rejected
      else
        var p := SpeedWithinP(bound, velocidade);
        Utils.FiltrarVoosTotal(estados, p);
        var r := Utils.FiltrarVoos(estados, Utils.Lift(p));
        assert forall v :: v in r ==> p(v) by {
          forall v | v in r ensures p(v) {
            Seqs.SelectedMembers(r, estados, p, v);
          }
        }
        Shown(r)
  }

  // ---------------------------------------------------------------------
  // filtrar_por_direcao: the four-quadrant table
  // ---------------------------------------------------------------------

  datatype Quadrant = North | East | South | West

  /** The accepted words after `.strip().lower()`; nothing else is accepted. */
  function ParseDirecao(direcao: string): (q: Option<Quadrant>)
    ensures q.Some? <==> Text.Lower(Text.Strip(direcao)) in ["norte", "sul", "leste", "oeste"]
    ensures q == Some(North) <==> Text.Lower(Text.Strip(direcao)) == "norte"
    ensures q == Some(South) <==> Text.Lower(Text.Strip(direcao)) == "sul"
    ensures q == Some(East) <==> Text.Lower(Text.Strip(direcao)) == "leste"
    ensures q == Some(West) <==> Text.Lower(Text.Strip(direcao)) == "oeste"
  {
    var d := Text.Lower(Text.Strip(direcao));
    if d == "norte" then Some(North)
    else if d == "sul" then Some(South)
    else if d == "leste" then Some(East)
    else if d == "oeste" then Some(West)
    else None
  }

  /** The condition built for each direction: `voo[10] is not None and ...` */
  predicate InQuadrant(q: Quadrant, heading: Option<real>) {
    && heading.Some?
    && var h := heading.value;
       match q
       case North => (0.0 <= h < 45.0) || (315.0 <= h < 360.0)
       case South => 135.0 <= h < 225.0
       case East => 45.0 <= h < 135.0
       case West => 225.0 <= h < 315.0
  }

  function InQuadrantP(q: Quadrant): StateVector -> bool {
    (v: StateVector) => InQuadrant(q, v.heading)
  }

  /** The boundary table of the four quadrants. */
  function QuadrantTable(q: Quadrant): seq<Utils.Interval> {
    match q
    case North => [Utils.Interval(0.0, 45.0), Utils.Interval(315.0, 360.0)]
    case East => [Utils.Interval(45.0, 135.0)]
    case South => [Utils.Interval(135.0, 225.0)]
    case West => [Utils.Interval(225.0, 315.0)]
  }

  /** Each direction's condition holds exactly on its table entry. */
  lemma QuadrantAgreesWithTable(q: Quadrant, g: real)
    ensures InQuadrant(q, Some(g)) <==> Utils.InIntervals(QuadrantTable(q), g)
  {
    var t := QuadrantTable(q);
    if q == North {
      Utils.InIntervalsPair(t[0], t[1], g);
    } else {
      Utils.InIntervalsSingle(t[0], g);
    }
  }

  /**
   * The four quadrants are disjoint and cover `[0, 360)`; a missing heading
   * or one outside `[0, 360)` is in none of them.
   */
  lemma FourQuadrantsPartition(heading: Option<real>)
    ensures heading.Some? && 0.0 <= heading.value < 360.0 ==> exists q :: InQuadrant(q, heading)
    ensures forall q1, q2 :: InQuadrant(q1, heading) && InQuadrant(q2, heading) ==> q1 == q2
    ensures heading.None? || heading.value < 0.0 || heading.value >= 360.0 ==>
              forall q :: !InQuadrant(q, heading)
  {
    if heading.Some? && 0.0 <= heading.value < 360.0 {
      var h := heading.value;
      var q := if h < 45.0 || h >= 315.0 then North
               else if h < 135.0 then East
               else if h < 225.0 then South
               else West;
      assert InQuadrant(q, heading);
    }
  }

  /**
   * The quadrant table and the eight-sector table are different
   * partitions: 30 degrees is north here but northeast there, and
   * 50 degrees is east here but northeast there.
   */
  lemma QuadrantsDifferFromSectors()
    ensures InQuadrant(North, Some(30.0))
    ensures Utils.ConverterGrauParaDirecao(Some(30.0)) == Utils.InSector(Utils.Northeast)
    ensures InQuadrant(East, Some(50.0))
    ensures Utils.ConverterGrauParaDirecao(Some(50.0)) == Utils.InSector(Utils.Northeast)
  {
  }

  /**
   * `filtrar_por_direcao`: an unknown direction word is refused; otherwise
   * the records whose heading lies in that quadrant, in input order.
   */
  function FiltrarPorDirecao(estados: seq<StateVector>, direcao: string): (o: Outcome)
    ensures o == Rejected <==> ParseDirecao(direcao).None?
    ensures o != Rejected ==>
              o.Shown? && Seqs.SelectedBy(o.voos, estados, InQuadrantP(ParseDirecao(direcao).value))
  {
    match ParseDirecao(direcao)
    case None => Rejected
    case Some(q) =>
      Seqs.FilterSelects(estados, InQuadrantP(q));
      Shown(Seqs.Filter(estados, InQuadrantP(q)))
  }

  // ---------------------------------------------------------------------
  // filtrar_por_origem
  // ---------------------------------------------------------------------

  const HomeCountry: string := "Brazil"

  /** `voo[2] != 'Brazil'`; a missing country is not "Brazil". */
  function NotFromHome(): StateVector -> bool {
    (v: StateVector) => v.originCountry != Some(HomeCountry)
  }

  /** The international selection: every record not from "Brazil". */
  function VoosInternacionais(estados: seq<StateVector>): (r: seq<StateVector>)
    ensures Seqs.SelectedBy(r, estados, NotFromHome())
  {
    Seqs.FilterSelects(estados, NotFromHome());
    Seqs.Filter(estados, NotFromHome())
  }

  /**
   * `filtrar_por_origem`: option "1" shows the international records,
   * "2" the national ones (`buscar_voos_por_pais(estados, "Brazil")`),
   * "3" goes back, and anything else is refused.
   */
  function FiltrarPorOrigem(estados: seq<StateVector>, opcao: string): (o: Outcome)
    ensures Text.Strip(opcao) == "1" ==> o == Shown(VoosInternacionais(estados))
    ensures Text.Strip(opcao) == "2" ==> o == Shown(Consultas.BuscarVoosPorPais(estados, HomeCountry))
    ensures o == Exit <==> Text.Strip(opcao) == "3"
    ensures o == Rejected <==> Text.Strip(opcao) !in ["1", "2", "3"]
  {
    var escolha := Text.Strip(opcao);
    if escolha == "1" then Shown(VoosInternacionais(estados))
    else if escolha == "2" then Shown(Consultas.BuscarVoosPorPais(estados, HomeCountry))
    else if escolha == "3" then Exit
    else Rejected
  }

  /**
   * The international selection and the national one (options "1" and
   * "2") split the list: every record is shown by exactly one of them,
   * and records with no country count as international.
   */
  lemma OriginOptionsPartition(estados: seq<StateVector>)
    ensures var intl := VoosInternacionais(estados);
            var natl := Consultas.BuscarVoosPorPais(estados, HomeCountry);
            && multiset(intl) + multiset(natl) == multiset(estados)
            && (forall v :: v in estados ==> (v in intl <==> v !in natl))
            && (forall v :: v in estados && v.originCountry.None? ==> v in intl)
  {
    var intl := VoosInternacionais(estados);
    var natl := Consultas.BuscarVoosPorPais(estados, HomeCountry);
    Seqs.SelectionsPartition(estados, intl, natl, NotFromHome(), Consultas.CountryIs(HomeCountry));
    forall v | v in estados && v.originCountry.None? ensures v in intl {
      Seqs.SelectedMembers(intl, estados, NotFromHome(), v);
    }
  }

  // ---------------------------------------------------------------------
  // monitorar_aeronaves: parameter guards
  // ---------------------------------------------------------------------

  datatype MonitorCheck = DistanceOutOfRange | IntervalNotPositive | StartMonitoring

  /**
   * The distance (nautical miles) must lie in `[0, 100]` and is checked
   * first; then the refresh interval (seconds) must be positive.
   */
  function ValidarMonitoramento(distancia: int, intervalo: real): (r: MonitorCheck)
    ensures r == StartMonitoring <==> 0 <= distancia <= 100 && intervalo > 0.0
    ensures r == DistanceOutOfRange <==> distancia < 0 || distancia > 100
    ensures r == IntervalNotPositive <==> 0 <= distancia <= 100 && intervalo <= 0.0
  {
    if distancia < 0 || distancia > 100 then DistanceOutOfRange
    else if intervalo <= 0.0 then IntervalNotPositive
    else StartMonitoring
  }
}
