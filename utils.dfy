/**
 * The generic parts of the query pipeline: the sort engine
 * (`ordenar_voos`), the generic filter (`filtrar_voos`), the
 * eight-sector heading classifier (`converter_grau_para_direcao`) and the
 * index lookups of the table display (`exibir_lista_voos`).
 */
module Utils {
  import opened Records
  import Seqs

  // ---------------------------------------------------------------------
  // Sort engine
  // ---------------------------------------------------------------------

  /** The sort criteria `ordenar_voos` recognises. */
  datatype Criterion = ByAltitude | ByVelocity | ByCallsign

  function ParseCriterion(criterio: string): Option<Criterion> {
    if criterio == "altitude" then Some(ByAltitude)
    else if criterio == "velocidade" then Some(ByVelocity)
    else if criterio == "callsign" then Some(ByCallsign)
    else None
  }

  /** A numeric sort key; an absent value is keyed as `float('-inf')`. */
  datatype NumKey = NegInf | Finite(x: real)

  function NumKeyOf(x: Option<real>): NumKey {
    if x.None? then NegInf else Finite(x.value)
  }

  /** `a >= b` on numeric keys. */
  predicate NumAtLeast(a: NumKey, b: NumKey) {
    b.NegInf? || (a.Finite? && a.x >= b.x)
  }

  /** The callsign sort key; an absent callsign is keyed as `""`. */
  function TextKeyOf(x: Option<string>): string {
    if x.None? then "" else x.value
  }

  /** Python's `a <= b` on strings: lexicographic by code point. */
  predicate TextAtMost(a: string, b: string) {
    a == [] || (b != [] && (a[0] < b[0] || (a[0] == b[0] && TextAtMost(a[1..], b[1..]))))
  }

  lemma {:induction false} TextAtMostTotal(a: string, b: string)
    ensures TextAtMost(a, b) || TextAtMost(b, a)
    decreases |a|
  {
    if a != [] && b != [] && a[0] == b[0] {
      TextAtMostTotal(a[1..], b[1..]);
    }
  }

  lemma {:induction false} TextAtMostTransitive(a: string, b: string, c: string)
    requires TextAtMost(a, b) && TextAtMost(b, c)
    ensures TextAtMost(a, c)
    decreases |a|
  {
    if a != [] && a[0] == b[0] && b[0] == c[0] {
      TextAtMostTransitive(a[1..], b[1..], c[1..]);
    }
  }

  /**
   * `a` may come before `b` in a list sorted by `c`: descending keys for
   * altitude and velocity (`reverse=True`), ascending keys for callsign.
   */
  predicate Precedes(c: Criterion, a: StateVector, b: StateVector) {
    match c
    case ByAltitude => NumAtLeast(NumKeyOf(a.altitude), NumKeyOf(b.altitude))
    case ByVelocity => NumAtLeast(NumKeyOf(a.velocity), NumKeyOf(b.velocity))
    case ByCallsign => TextAtMost(TextKeyOf(a.callsign), TextKeyOf(b.callsign))
  }

  lemma PrecedesTotal(c: Criterion, a: StateVector, b: StateVector)
    ensures Precedes(c, a, b) || Precedes(c, b, a)
  {
    if c == ByCallsign {
      TextAtMostTotal(TextKeyOf(a.callsign), TextKeyOf(b.callsign));
    }
  }

  lemma PrecedesTransitive(c: Criterion, a: StateVector, b: StateVector, d: StateVector)
    requires Precedes(c, a, b) && Precedes(c, b, d)
    ensures Precedes(c, a, d)
  {
    if c == ByCallsign {
      TextAtMostTransitive(TextKeyOf(a.callsign), TextKeyOf(b.callsign), TextKeyOf(d.callsign));
    }
  }

  /** `a` and `b` have equal sort keys under `c`. */
  predicate SameKey(c: Criterion, a: StateVector, b: StateVector) {
    Precedes(c, a, b) && Precedes(c, b, a)
  }

  /** The records whose key equals that of `k`. */
  function SameKeyAs(c: Criterion, k: StateVector): StateVector -> bool {
    v => SameKey(c, v, k)
  }

  predicate SortedBy(c: Criterion, s: seq<StateVector>) {
    forall i, j :: 0 <= i < j < |s| ==> Precedes(c, s[i], s[j])
  }

  /** Inserts `x` before the first element it may precede. */
  function Insert(c: Criterion, x: StateVector, ys: seq<StateVector>): (r: seq<StateVector>)
    ensures multiset(r) == multiset(ys) + multiset{x}
  {
    if ys == [] then [x]
    else if Precedes(c, x, ys[0]) then [x] + ys
    else
      assert ys == [ys[0]] + ys[1..];
      [ys[0]] + Insert(c, x, ys[1..])
  }

  /** Inserting into a sorted list keeps it sorted. */
  lemma {:induction false} InsertSorted(c: Criterion, x: StateVector, ys: seq<StateVector>)
    requires SortedBy(c, ys)
    ensures SortedBy(c, Insert(c, x, ys))
    decreases |ys|
  {
    if ys == [] {
    } else if Precedes(c, x, ys[0]) {
      forall j | 0 <= j < |ys| ensures Precedes(c, x, ys[j]) {
        if j > 0 { PrecedesTransitive(c, x, ys[0], ys[j]); }
      }
    } else {
      var rest := Insert(c, x, ys[1..]);
      InsertSorted(c, x, ys[1..]);
      PrecedesTotal(c, x, ys[0]);
      forall j | 0 <= j < |ys[1..]| ensures Precedes(c, ys[0], ys[1..][j]) {
        assert ys[1..][j] == ys[j + 1];
      }
      HeadPrecedesInsert(c, ys[0], x, ys[1..]);
      var r := [ys[0]] + rest;
      forall i, j | 0 <= i < j < |r| ensures Precedes(c, r[i], r[j]) {
        if i > 0 {
          assert r[i] == rest[i - 1] && r[j] == rest[j - 1];
        }
      }
    }
  }

  /** An element that may precede `x` and all of `ys` may precede all of `Insert(c, x, ys)`. */
  lemma HeadPrecedesInsert(c: Criterion, y: StateVector, x: StateVector, ys: seq<StateVector>)
    requires Precedes(c, y, x)
    requires forall j :: 0 <= j < |ys| ==> Precedes(c, y, ys[j])
    ensures forall j :: 0 <= j < |Insert(c, x, ys)| ==> Precedes(c, y, Insert(c, x, ys)[j])
  {
    var r := Insert(c, x, ys);
    forall j | 0 <= j < |r| ensures Precedes(c, y, r[j]) {
      assert r[j] in multiset(r);
      if r[j] != x {
        assert r[j] in multiset(ys);
        var k :| 0 <= k < |ys| && ys[k] == r[j];
      }
    }
  }

  /** A stable sort of `s` by `c` (insertion sort). */
  function SortBy(c: Criterion, s: seq<StateVector>): (r: seq<StateVector>)
    ensures multiset(r) == multiset(s)
    ensures SortedBy(c, r)
  {
    if s == [] then []
    else
      assert s == [s[0]] + s[1..];
      InsertSorted(c, s[0], SortBy(c, s[1..]));
      Insert(c, s[0], SortBy(c, s[1..]))
  }

  /**
   * `ordenar_voos`: an empty list or an unrecognised criterion gives the
   * input back; otherwise a sorted permutation of the input.
   */
  function OrdenarVoos(voos: seq<StateVector>, criterio: string): (r: seq<StateVector>)
    ensures voos == [] ==> r == voos
    ensures ParseCriterion(criterio).None? ==> r == voos
    ensures ParseCriterion(criterio).Some? ==>
              multiset(r) == multiset(voos) && SortedBy(ParseCriterion(criterio).value, r)
  {
    if voos == [] then voos
    else match ParseCriterion(criterio)
      case None => voos
      case Some(c) => SortBy(c, voos)
  }

  /** Two records of which the first may not precede the second cannot share a key. */
  lemma NotBothSameKey(c: Criterion, x: StateVector, y: StateVector, k: StateVector)
    requires !Precedes(c, x, y)
    ensures !SameKeyAs(c, k)(x) || !SameKeyAs(c, k)(y)
  {
    if SameKey(c, x, k) && SameKey(c, y, k) {
      PrecedesTransitive(c, x, k, y);
    }
  }

  /** Inserting `x` adds it in front of the records with `k`'s key, or not at all. */
  lemma {:induction false} InsertKeepsKeyOrder(c: Criterion, x: StateVector, ys: seq<StateVector>, k: StateVector)
    ensures Seqs.Filter(Insert(c, x, ys), SameKeyAs(c, k))
         == (if SameKey(c, x, k) then [x] else []) + Seqs.Filter(ys, SameKeyAs(c, k))
    decreases |ys|
  {
    var p := SameKeyAs(c, k);
    if ys == [] {
      Seqs.FilterCons(x, [], p);
    } else if Precedes(c, x, ys[0]) {
      Seqs.FilterCons(x, ys, p);
    } else {
      var y, tail := ys[0], ys[1..];
      var rest := Insert(c, x, tail);
      assert Insert(c, x, ys) == [y] + rest;
      assert ys == [y] + tail;
      InsertKeepsKeyOrder(c, x, tail, k);
      Seqs.FilterCons(y, rest, p);
      Seqs.FilterCons(y, tail, p);
      NotBothSameKey(c, x, y, k);
    }
  }

  /**
   * Stability: for every key, the records with that key appear in the
   * sorted list in the same relative order as in the input.
   */
  lemma {:induction false} SortByStable(c: Criterion, s: seq<StateVector>, k: StateVector)
    ensures Seqs.Filter(SortBy(c, s), SameKeyAs(c, k)) == Seqs.Filter(s, SameKeyAs(c, k))
    decreases |s|
  {
    if s != [] {
      SortByStable(c, s[1..], k);
      InsertKeepsKeyOrder(c, s[0], SortBy(c, s[1..]), k);
    }
  }

  lemma OrdenarVoosStable(voos: seq<StateVector>, criterio: string, k: StateVector)
    requires ParseCriterion(criterio).Some?
    ensures var c := ParseCriterion(criterio).value;
            Seqs.Filter(OrdenarVoos(voos, criterio), SameKeyAs(c, k)) == Seqs.Filter(voos, SameKeyAs(c, k))
  {
    if voos != [] {
      SortByStable(ParseCriterion(criterio).value, voos, k);
    }
  }

  /** Inserting an element that may precede a sorted list puts it in front. */
  lemma {:induction false} SortByOfSorted(c: Criterion, s: seq<StateVector>)
    requires SortedBy(c, s)
    ensures SortBy(c, s) == s
    decreases |s|
  {
    if s != [] {
      SortByOfSorted(c, s[1..]);
      assert s == [s[0]] + s[1..];
      if |s| > 1 {
        assert Precedes(c, s[0], s[1]);
      }
    }
  }

  /** Sorting twice by the same criterion is the same as sorting once. */
  lemma OrdenarVoosIdempotent(voos: seq<StateVector>, criterio: string)
    ensures OrdenarVoos(OrdenarVoos(voos, criterio), criterio) == OrdenarVoos(voos, criterio)
  {
    var r := OrdenarVoos(voos, criterio);
    if r != [] && ParseCriterion(criterio).Some? {
      SortByOfSorted(ParseCriterion(criterio).value, r);
    }
  }

  /**
   * Sorting by altitude or velocity puts every record without a value
   * after every record that has one.
   */
  lemma AbsentNumbersLast(voos: seq<StateVector>, criterio: string, i: int, j: int)
    requires criterio == "altitude" || criterio == "velocidade"
    requires var r := OrdenarVoos(voos, criterio); 0 <= i < |r| && 0 <= j < |r|
    requires var r := OrdenarVoos(voos, criterio);
             if criterio == "altitude" then r[i].altitude.None? && r[j].altitude.Some?
             else r[i].velocity.None? && r[j].velocity.Some?
    ensures j < i
  {
    var r := OrdenarVoos(voos, criterio);
    assert !Precedes(ParseCriterion(criterio).value, r[i], r[j]);
  }

  /**
   * Sorting by callsign puts every record without a callsign before every
   * record with a non-empty callsign.
   */
  lemma AbsentCallsignsFirst(voos: seq<StateVector>, i: int, j: int)
    requires var r := OrdenarVoos(voos, "callsign"); 0 <= i < |r| && 0 <= j < |r|
    requires var r := OrdenarVoos(voos, "callsign");
             r[i].callsign.None? && r[j].callsign.Some? && r[j].callsign.value != ""
    ensures i < j
  {
    var r := OrdenarVoos(voos, "callsign");
    assert !Precedes(ByCallsign, r[j], r[i]);
  }

  // ---------------------------------------------------------------------
  // Generic filter
  // ---------------------------------------------------------------------

  /** The outcome of evaluating a filter condition on one record. */
  datatype Eval = Value(holds: bool) | Raised

  /** The records for which `condicao` evaluates to true. */
  function Holds(condicao: StateVector -> Eval): StateVector -> bool {
    v => condicao(v) == Value(true)
  }

  /** A condition that never raises. */
  function Lift(p: StateVector -> bool): StateVector -> Eval {
    v => Value(p(v))
  }

  /**
   * Evaluating the comprehension left to right: `None` as soon as a
   * condition raises, otherwise the kept records.
   */
  function Comprehension(estados: seq<StateVector>, condicao: StateVector -> Eval): (r: Option<seq<StateVector>>)
    ensures r.None? <==> exists v :: v in estados && condicao(v).Raised?
    ensures r.Some? ==> r.value == Seqs.Filter(estados, Holds(condicao))
  {
    if estados == [] then Some([])
    else
      assert estados == [estados[0]] + estados[1..];
      match condicao(estados[0])
      case Raised => None
      case Value(b) =>
        match Comprehension(estados[1..], condicao)
        case None => None
        case Some(rest) => Some(if b then [estados[0]] + rest else rest)
  }

  /**
   * `filtrar_voos`: if any evaluation of the condition raises the result
   * is empty; otherwise it is exactly the records satisfying it, in order.
   */
  function FiltrarVoos(estados: seq<StateVector>, condicao: StateVector -> Eval): (r: seq<StateVector>)
    ensures (exists v :: v in estados && condicao(v).Raised?) ==> r == []
    ensures (forall v :: v in estados ==> condicao(v).Value?) ==>
              Seqs.SelectedBy(r, estados, Holds(condicao))
  {
    match Comprehension(estados, condicao)
    case None => []
    case Some(kept) =>
      Seqs.FilterSelects(estados, Holds(condicao));
      kept
  }

  /** With a condition that never raises, `filtrar_voos` selects by it. */
  lemma FiltrarVoosTotal(estados: seq<StateVector>, p: StateVector -> bool)
    ensures Seqs.SelectedBy(FiltrarVoos(estados, Lift(p)), estados, p)
  {
    var r := FiltrarVoos(estados, Lift(p));
    assert forall v :: Holds(Lift(p))(v) == p(v);
  }

  // ---------------------------------------------------------------------
  // Eight-sector heading classifier
  // ---------------------------------------------------------------------

  datatype Sector = North | Northeast | East | Southeast | South | Southwest | West | Northwest

  /** The label of `converter_grau_para_direcao`, without the degree text. */
  datatype HeadingLabel = Unknown | InSector(sector: Sector) | OutOfRange

  /** The word the source prints for each sector. */
  function SectorName(s: Sector): string {
    match s
    case North => "norte"
    case Northeast => "nordeste"
    case East => "leste"
    case Southeast => "sudeste"
    case South => "sul"
    case Southwest => "sudoeste"
    case West => "oeste"
    case Northwest => "noroeste"
  }

  /** A half-open interval of degrees `[lo, hi)`. */
  datatype Interval = Interval(lo: real, hi: real)

  predicate InIntervals(ivs: seq<Interval>, g: real) {
    ivs != [] && ((ivs[0].lo <= g < ivs[0].hi) || InIntervals(ivs[1..], g))
  }

  lemma InIntervalsSingle(a: Interval, g: real)
    ensures InIntervals([a], g) <==> a.lo <= g < a.hi
  {
    assert [a][1..] == [];
  }

  lemma InIntervalsPair(a: Interval, b: Interval, g: real)
    ensures InIntervals([a, b], g) <==> a.lo <= g < a.hi || b.lo <= g < b.hi
  {
    assert [a, b][1..] == [b];
    InIntervalsSingle(b, g);
  }

  /** The boundary table of the eight sectors. */
  function SectorTable(s: Sector): seq<Interval> {
    match s
    case North => [Interval(0.0, 22.5), Interval(337.5, 360.0)]
    case Northeast => [Interval(22.5, 67.5)]
    case East => [Interval(67.5, 112.5)]
    case Southeast => [Interval(112.5, 157.5)]
    case South => [Interval(157.5, 202.5)]
    case Southwest => [Interval(202.5, 247.5)]
    case West => [Interval(247.5, 292.5)]
    case Northwest => [Interval(292.5, 337.5)]
  }

  /**
   * `converter_grau_para_direcao`: no heading is "Desconhecida", a heading
   * in `[0, 360)` gets the sector whose table entry holds it, and any other
   * value gets "desconhecida".
   */
  function ConverterGrauParaDirecao(grau: Option<real>): (d: HeadingLabel)
    ensures d == Unknown <==> grau.None?
    ensures d == OutOfRange <==> grau.Some? && (grau.value < 0.0 || grau.value >= 360.0)
    ensures d.InSector? <==> grau.Some? && 0.0 <= grau.value < 360.0
  {
    if grau.None? then Unknown
    else
      var g := grau.value;
      if 0.0 <= g < 22.5 || 337.5 <= g < 360.0 then InSector(North)
      else if 22.5 <= g < 67.5 then InSector(Northeast)
      else if 67.5 <= g < 112.5 then InSector(East)
      else if 112.5 <= g < 157.5 then InSector(Southeast)
      else if 157.5 <= g < 202.5 then InSector(South)
      else if 202.5 <= g < 247.5 then InSector(Southwest)
      else if 247.5 <= g < 292.5 then InSector(West)
      else if 292.5 <= g < 337.5 then InSector(Northwest)
      else OutOfRange
  }

  /**
   * The classifier's if/elif chain gives sector `s` exactly for the
   * headings that `s`'s entry in the boundary table holds.
   */
  lemma ClassifierAgreesWithTable(g: real, s: Sector)
    ensures ConverterGrauParaDirecao(Some(g)) == InSector(s) <==> InIntervals(SectorTable(s), g)
  {
    var t := SectorTable(s);
    if s == North {
      InIntervalsPair(t[0], t[1], g);
    } else {
      InIntervalsSingle(t[0], g);
    }
  }

  /** The eight sectors are disjoint and together cover `[0, 360)`. */
  lemma EightSectorsPartition(g: real)
    requires 0.0 <= g < 360.0
    ensures exists s :: InIntervals(SectorTable(s), g)
    ensures forall s1, s2 :: InIntervals(SectorTable(s1), g) && InIntervals(SectorTable(s2), g) ==> s1 == s2
  {
    var d := ConverterGrauParaDirecao(Some(g));
    ClassifierAgreesWithTable(g, d.sector);
    forall s1, s2 | InIntervals(SectorTable(s1), g) && InIntervals(SectorTable(s2), g) ensures s1 == s2 {
      ClassifierAgreesWithTable(g, s1);
      ClassifierAgreesWithTable(g, s2);
    }
  }

  // ---------------------------------------------------------------------
  // The table display's index lookups (exibir_lista_voos)
  // ---------------------------------------------------------------------

  /**
   * What the shared table display does with a list of rows, as far as its
   * index lookups go: an empty list prints a message; otherwise every row
   * is read up to index 10, and a row with ten or fewer slots raises.
   */
  datatype Display = NoFlightsMessage | Table(rows: seq<seq<PyValue>>) | IndexError

  function ExibirListaVoos(rows: seq<seq<PyValue>>): (d: Display)
    ensures rows == [] ==> d == NoFlightsMessage
    ensures rows != [] ==> (d == IndexError <==> exists row :: row in rows && |row| <= 10)
    ensures d.Table? ==> d.rows == rows
  {
    if rows == [] then NoFlightsMessage
    else if forall row :: row in rows ==> |row| > 10 then Table(rows)
    else IndexError
  }
}
