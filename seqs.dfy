/**
 * Order-preserving selection over sequences: the meaning of every
 * list comprehension `[x for x in xs if p(x)]` in the pipeline.
 */
module Seqs {

  /** `r` can be obtained from `s` by deleting elements (order kept). */
  predicate Subseq<T(==)>(r: seq<T>, s: seq<T>)
    decreases |s|
  {
    if r == [] then true
    else if s == [] then false
    else (r[0] == s[0] && Subseq(r[1..], s[1..])) || Subseq(r, s[1..])
  }

  /**
   * `r` is exactly the selection of `s` by `p`: an order-preserving
   * subsequence that holds every element satisfying `p` as often as `s`
   * does, and nothing else.
   */
  ghost predicate SelectedBy<T(!new)>(r: seq<T>, s: seq<T>, p: T -> bool) {
    && Subseq(r, s)
    && forall x :: multiset(r)[x] == if p(x) then multiset(s)[x] else 0
  }

  /** The list comprehension `[x for x in s if p(x)]`. */
  function Filter<T(!new)>(s: seq<T>, p: T -> bool): (r: seq<T>)
    ensures |r| <= |s|
  {
    if s == [] then []
    else if p(s[0]) then [s[0]] + Filter(s[1..], p)
    else Filter(s[1..], p)
  }

  /** The comprehension selects exactly the elements satisfying `p`. */
  lemma {:induction false} FilterSelects<T(!new)>(s: seq<T>, p: T -> bool)
    ensures SelectedBy(Filter(s, p), s, p)
    decreases |s|
  {
    if s != [] {
      FilterSelects(s[1..], p);
      assert s == [s[0]] + s[1..];
      var rest := Filter(s[1..], p);
      if p(s[0]) {
        var r := [s[0]] + rest;
        assert r[0] == s[0] && r[1..] == rest;
      }
    }
  }

  lemma {:induction false} SubseqMultiset<T(!new)>(r: seq<T>, s: seq<T>)
    requires Subseq(r, s)
    ensures multiset(r) <= multiset(s)
    decreases |s|
  {
    if r != [] {
      assert s == [s[0]] + s[1..];
      if r[0] == s[0] && Subseq(r[1..], s[1..]) {
        SubseqMultiset(r[1..], s[1..]);
        assert r == [r[0]] + r[1..];
      } else {
        SubseqMultiset(r, s[1..]);
      }
    }
  }

  /** Membership follows from the multiplicities. */
  lemma SelectedMembers<T(!new)>(r: seq<T>, s: seq<T>, p: T -> bool, x: T)
    requires SelectedBy(r, s, p)
    ensures x in r <==> x in s && p(x)
  {
    assert x in r <==> multiset(r)[x] > 0;
    assert x in s <==> multiset(s)[x] > 0;
  }

  /**
   * A selection is unique: two sequences that both select `s` by `p`
   * are equal, so `SelectedBy` pins the result down completely.
   */
  lemma {:induction false} SelectionUnique<T(!new)>(r1: seq<T>, r2: seq<T>, s: seq<T>, p: T -> bool)
    requires SelectedBy(r1, s, p) && SelectedBy(r2, s, p)
    ensures r1 == r2
    decreases |s|
  {
    SelectionIsFilter(r1, s, p);
    SelectionIsFilter(r2, s, p);
  }

  lemma {:induction false} SelectionIsFilter<T(!new)>(r: seq<T>, s: seq<T>, p: T -> bool)
    requires SelectedBy(r, s, p)
    ensures r == Filter(s, p)
    decreases |s|
  {
    if s == [] {
      assert r == [];
    } else {
      var x := s[0];
      var t := s[1..];
      assert s == [x] + t;
      if r != [] && r[0] == x && Subseq(r[1..], t) {
        assert r == [x] + r[1..];
        // x is selected, and the tail selects t
        assert multiset(r)[x] > 0;
        assert p(x);
        forall y ensures multiset(r[1..])[y] == if p(y) then multiset(t)[y] else 0 {
          assert multiset(r)[y] == multiset(r[1..])[y] + (if y == x then 1 else 0);
          assert multiset(s)[y] == multiset(t)[y] + (if y == x then 1 else 0);
        }
        SelectionIsFilter(r[1..], t, p);
      } else {
        // r skips s[0], so it selects from t alone
        assert Subseq(r, t);
        SubseqMultiset(r, t);
        assert multiset(s)[x] == multiset(t)[x] + 1;
        assert multiset(r)[x] <= multiset(t)[x];
        assert !p(x);
        forall y ensures multiset(r)[y] == if p(y) then multiset(t)[y] else 0 {
          assert multiset(s)[y] == multiset(t)[y] + (if y == x then 1 else 0);
        }
        SelectionIsFilter(r, t, p);
      }
    }
  }

  lemma FilterCons<T(!new)>(x: T, s: seq<T>, p: T -> bool)
    ensures Filter([x] + s, p) == (if p(x) then [x] else []) + Filter(s, p)
  {
    assert ([x] + s)[1..] == s;
  }

  /** Selecting from a concatenation selects from each part. */
  lemma {:induction false} FilterAppend<T(!new)>(s: seq<T>, t: seq<T>, p: T -> bool)
    ensures Filter(s + t, p) == Filter(s, p) + Filter(t, p)
    decreases |s|
  {
    if s == [] {
      assert s + t == t;
    } else {
      assert (s + t)[1..] == s[1..] + t;
      FilterAppend(s[1..], t, p);
    }
  }

  /** Two predicates that agree on the elements of `s` select the same. */
  lemma {:induction false} FilterCongruent<T(!new)>(s: seq<T>, p: T -> bool, q: T -> bool)
    requires forall x :: x in s ==> p(x) == q(x)
    ensures Filter(s, p) == Filter(s, q)
    decreases |s|
  {
    if s != [] {
      assert s[0] in s;
      forall x | x in s[1..] ensures p(x) == q(x) {
        assert x in s;
      }
      FilterCongruent(s[1..], p, q);
    }
  }

  /**
   * Selecting by `p` and by its negation splits `s` into two parts whose
   * elements together are exactly those of `s`.
   */
  lemma SelectionsPartition<T(!new)>(s: seq<T>, a: seq<T>, b: seq<T>, p: T -> bool, q: T -> bool)
    requires SelectedBy(a, s, p) && SelectedBy(b, s, q)
    requires forall x :: q(x) == !p(x)
    ensures multiset(a) + multiset(b) == multiset(s)
    ensures forall x :: x in s ==> (x in a <==> x !in b)
  {
    forall x ensures (multiset(a) + multiset(b))[x] == multiset(s)[x] {
    }
    forall x | x in s ensures x in a <==> x !in b {
      SelectedMembers(a, s, p, x);
      SelectedMembers(b, s, q, x);
    }
  }

  /** `i` is the position of the first element of `s` satisfying `p`. */
  predicate FirstAt<T>(s: seq<T>, p: T -> bool, i: int) {
    && 0 <= i < |s|
    && p(s[i])
    && forall j :: 0 <= j < i ==> !p(s[j])
  }

  /**
   * The position of the first element satisfying `p`, scanning from the
   * front; `|s|` when there is none.
   */
  function FirstIndex<T>(s: seq<T>, p: T -> bool): (i: nat)
    ensures i <= |s|
    ensures i == |s| <==> forall j :: 0 <= j < |s| ==> !p(s[j])
    ensures i < |s| ==> FirstAt(s, p, i)
  {
    if s == [] then 0
    else if p(s[0]) then 0
    else
      assert forall j :: 0 < j < |s| ==> s[j] == s[1..][j - 1];
      1 + FirstIndex(s[1..], p)
  }

  /**
   * Removing elements that fail `q` first does not change which element is
   * found first by `p`, when `p` implies `q`.
   */
  lemma {:induction false} FirstIndexFilter<T(!new)>(s: seq<T>, p: T -> bool, q: T -> bool)
    requires forall x :: p(x) ==> q(x)
    ensures var i := FirstIndex(s, p);
            var f := Filter(s, q);
            var k := FirstIndex(f, p);
            && (i == |s| <==> k == |f|)
            && (i < |s| ==> k < |f| && s[i] == f[k])
    decreases |s|
  {
    if s != [] {
      FirstIndexFilter(s[1..], p, q);
      if q(s[0]) {
        FilterCons(s[0], s[1..], p);
        assert s == [s[0]] + s[1..];
        var f := Filter(s, q);
        assert f == [s[0]] + Filter(s[1..], q);
        assert f[1..] == Filter(s[1..], q);
      } else {
        assert s == [s[0]] + s[1..];
        FilterCons(s[0], s[1..], q);
      }
    }
  }
}
