/**
 * Looking up one flight by the code the user types: the code is trimmed
 * and upper-cased, checked against `^[A-Z0-9]{3,8}$`, and the first live
 * record whose callsign normalises to it is returned.
 */
module Busca {
  import opened Records
  import Text
  import Seqs

  /**
   * `.strip().upper()` applied to the typed code: no surrounding
   * whitespace is left and no lower-case letter remains.
   */
  function NormalizarCodigo(entrada: string): (c: string)
    ensures c == [] || (!Text.IsSpace(c[0]) && !Text.IsSpace(c[|c| - 1]))
    ensures forall k :: 0 <= k < |c| ==> !Text.IsLowerAscii(c[k])
  {
    var t := Text.Strip(entrada);
    Text.UpperOfTrimmed(t);
    Text.Upper(t)
  }

  /** The character class `[A-Z0-9]`. */
  predicate IsCodeChar(c: char) {
    'A' <= c <= 'Z' || '0' <= c <= '9'
  }

  predicate AllCodeChars(s: string) {
    forall i :: 0 <= i < |s| ==> IsCodeChar(s[i])
  }

  /**
   * `re.match(r"^[A-Z0-9]{3,8}$", ...)` on `s`, with `n` characters of the
   * run already consumed. Python's `$` matches at the end of the string
   * and also just before a final newline.
   */
  function MatchesRun(s: string, n: nat): (r: bool)
    requires n <= 8
    ensures r <==> || (AllCodeChars(s) && 3 <= n + |s| <= 8)
                   || (s != [] && s[|s| - 1] == '\n' && AllCodeChars(s[..|s| - 1]) && 3 <= n + |s| - 1 <= 8)
    decreases |s|
  {
    if s == [] || s == "\n" then 3 <= n
    else if IsCodeChar(s[0]) && n < 8 then
      assert s[1..] != [] ==> s[1..][..|s[1..]| - 1] == s[..|s| - 1][1..];
      MatchesRun(s[1..], n + 1)
    else false
  }

  /** The validity test applied to the normalised code. */
  predicate CodigoValido(codigo: string) {
    MatchesRun(codigo, 0)
  }

  /**
   * A normalised code is accepted iff it has 3 to 8 characters, each in
   * `A-Z` or `0-9`: normalisation strips any final newline, so the
   * newline case of `$` never applies.
   */
  lemma NormalizedCodeValid(entrada: string)
    ensures var c := NormalizarCodigo(entrada);
            CodigoValido(c) <==> 3 <= |c| <= 8 && AllCodeChars(c)
  {
    var c := NormalizarCodigo(entrada);
    NormalizedHasNoFinalNewline(entrada);
    assert c == [] || c[|c| - 1] != '\n';
    assert CodigoValido(c) == MatchesRun(c, 0);
  }

  /** Stripping removes any final newline, and upper-casing adds none. */
  lemma NormalizedHasNoFinalNewline(entrada: string)
    ensures var c := NormalizarCodigo(entrada);
            c == [] || c[|c| - 1] != '\n'
  {
    var c := NormalizarCodigo(entrada);
    assert c == [] || !Text.IsSpace(c[|c| - 1]);
  }

  /** The bounds are 3 and 8 characters (not the 4 to 7 the docstring names). */
  lemma CodeLengthBounds()
    ensures CodigoValido("SWA") && CodigoValido("SWA32207")
    ensures !CodigoValido("SW") && !CodigoValido("SWA322071")
    ensures !CodigoValido("SWA-3220")
  {
    assert AllCodeChars("SWA32207") by {
      forall i | 0 <= i < 8 ensures IsCodeChar("SWA32207"[i]) { }
    }
    assert "SWA322071"[8] != '\n';
    assert !IsCodeChar("SWA-3220"[3]) && "SWA-3220"[7] != '\n';
  }

  /** `voo[1] and voo[1].strip().upper() == codigo_voo` */
  predicate MatchesCode(v: StateVector, codigo: string) {
    TruthyText(v.callsign) && Text.Upper(Text.Strip(v.callsign.value)) == codigo
  }

  function MatchesCodeP(codigo: string): StateVector -> bool {
    (v: StateVector) => MatchesCode(v, codigo)
  }

  /** `i` is the position of the first record matching `codigo`. */
  predicate FirstMatchAt(estados: seq<StateVector>, codigo: string, i: int) {
    && 0 <= i < |estados|
    && MatchesCode(estados[i], codigo)
    && forall j :: 0 <= j < i ==> !MatchesCode(estados[j], codigo)
  }

  /**
   * `next((voo for voo in estados if ...), None)`: the first record, in
   * input order, whose callsign matches; `None` when no record matches.
   */
  function BuscarVoo(estados: seq<StateVector>, codigo: string): (r: Option<StateVector>)
    ensures r.None? <==> forall i :: 0 <= i < |estados| ==> !MatchesCode(estados[i], codigo)
    ensures r.Some? ==> exists i :: FirstMatchAt(estados, codigo, i) && estados[i] == r.value
  {
    var i := Seqs.FirstIndex(estados, MatchesCodeP(codigo));
    if i == |estados| then None
    else
      assert FirstMatchAt(estados, codigo, i);
      Some(estados[i])
  }

  /** A record whose callsign is `None` or empty. */
  function HasCallsign(): StateVector -> bool {
    (v: StateVector) => TruthyText(v.callsign)
  }

  /**
   * Records with no callsign or an empty one never match: removing them
   * from the list does not change what the search finds.
   */
  lemma RecordsWithoutCallsignIgnored(estados: seq<StateVector>, codigo: string)
    ensures BuscarVoo(estados, codigo) == BuscarVoo(Seqs.Filter(estados, HasCallsign()), codigo)
  {
    Seqs.FirstIndexFilter(estados, MatchesCodeP(codigo), HasCallsign());
  }

  /** What one search round ends with. */
  datatype BuscaOutcome =
    | InvalidCode                    // the code failed validation
    | Unavailable                    // the live data could not be fetched
    | Found(voo: StateVector)        // the first matching record
    | NotFound(codigo: string)       // no record matched the code

  /**
   * `buscar_voo_especifico`, one round: validation comes before the
   * fetch; a valid code is looked up in the fetched list.
   */
  function BuscarVooEspecifico(entrada: string, estados: Option<seq<StateVector>>): (o: BuscaOutcome)
    ensures o == InvalidCode <==> !CodigoValido(NormalizarCodigo(entrada))
    ensures o == Unavailable <==> CodigoValido(NormalizarCodigo(entrada)) && estados.None?
    ensures o.Found? ==> estados.Some? && o.voo in estados.value
                         && MatchesCode(o.voo, NormalizarCodigo(entrada))
    ensures o.Found? ==> exists i :: FirstMatchAt(estados.value, NormalizarCodigo(entrada), i) && estados.value[i] == o.voo
    ensures o.NotFound? ==> estados.Some? && o.codigo == NormalizarCodigo(entrada)
                            && forall v :: v in estados.value ==> !MatchesCode(v, o.codigo)
  {
    BuscarCodigo(NormalizarCodigo(entrada), estados)
  }

  /** The round once the typed code has been normalised. */
  function BuscarCodigo(codigo: string, estados: Option<seq<StateVector>>): (o: BuscaOutcome)
    ensures o == InvalidCode <==> !CodigoValido(codigo)
    ensures o == Unavailable <==> CodigoValido(codigo) && estados.None?
    ensures o.Found? ==> estados.Some? && o.voo in estados.value && MatchesCode(o.voo, codigo)
    ensures o.Found? ==> exists i :: FirstMatchAt(estados.value, codigo, i) && estados.value[i] == o.voo
    ensures o.NotFound? ==> estados.Some? && o.codigo == codigo
                            && forall v :: v in estados.value ==> !MatchesCode(v, codigo)
  {
    if !CodigoValido(codigo) then InvalidCode
    else if estados.None? then Unavailable
    else match BuscarVoo(estados.value, codigo)
      case Some(v) => Found(v)
      case None => NotFound(codigo)
  }

  /** Normalising forgets the case of the typed code. */
  lemma NormalizeIgnoresCase(entrada: string)
    ensures NormalizarCodigo(Text.Lower(entrada)) == NormalizarCodigo(entrada)
  {
    Text.StripLower(entrada);
    Text.UpperLower(Text.Strip(entrada));
  }

  /** The search ignores the case of the typed code. */
  lemma SearchIgnoresCase(entrada: string, estados: Option<seq<StateVector>>)
    ensures BuscarVooEspecifico(Text.Lower(entrada), estados) == BuscarVooEspecifico(entrada, estados)
  {
    var c1, c2 := NormalizarCodigo(Text.Lower(entrada)), NormalizarCodigo(entrada);
    NormalizeIgnoresCase(entrada);
    assert BuscarCodigo(c1, estados) == BuscarCodigo(c2, estados);
  }
}
