/** Order-preserving filtering of sequences, the model of a Python list
    comprehension `[x for x in s if p(x)]`. */
module Seqs {

  function Filter<T>(s: seq<T>, p: T -> bool): (r: seq<T>)
    ensures |r| <= |s|
    ensures forall x | x in r :: x in s && p(x)
    ensures forall x | x in s && p(x) :: x in r
    ensures forall i | 0 <= i < |r| :: p(r[i])
  {
    if s == [] then [] else (if p(s[0]) then [s[0]] else []) + Filter(s[1..], p)
  }

  /** Filtering distributes over concatenation. */
  lemma {:induction false} FilterConcat<T>(a: seq<T>, b: seq<T>, p: T -> bool)
    ensures Filter(a + b, p) == Filter(a, p) + Filter(b, p)
  {
    if a == [] {
      assert a + b == b;
    } else {
      assert (a + b)[0] == a[0];
      assert (a + b)[1..] == a[1..] + b;
      FilterConcat(a[1..], b, p);
    }
  }

  /** Filtering a non-empty sequence: its front, then its last element. */
  lemma FilterSnoc<T>(s: seq<T>, p: T -> bool)
    requires s != []
    ensures Filter(s, p) == Filter(s[..|s| - 1], p) + Filter([s[|s| - 1]], p)
  {
    var init, last := s[..|s| - 1], s[|s| - 1];
    calc {
      Filter(s, p);
      { assert s == init + [last]; }
      Filter(init + [last], p);
      { FilterConcat(init, [last], p); }
      Filter(init, p) + Filter([last], p);
    }
  }

  /** Filtering a two-element sequence keeps each element on its own merit. */
  lemma FilterTwo<T>(s: seq<T>, p: T -> bool)
    requires |s| == 2
    ensures Filter(s, p) == (if p(s[0]) then [s[0]] else []) + (if p(s[1]) then [s[1]] else [])
  {
    assert s[1..][0] == s[1];
    assert s[1..][1..] == [];
  }

  predicate Distinct<T(==)>(s: seq<T>) {
    forall i, j | 0 <= i < j < |s| :: s[i] != s[j]
  }

  /** A sub-list of a list without repetitions has no repetitions. */
  lemma {:induction false} FilterDistinct<T>(s: seq<T>, p: T -> bool)
    requires Distinct(s)
    ensures Distinct(Filter(s, p))
  {
    if s != [] {
      FilterDistinct(s[1..], p);
      assert s[0] !in s[1..];
    }
  }

  /** A list without repetitions whose elements all equal x, and which holds
      x, is exactly [x]. */
  lemma DistinctSingleton<T>(s: seq<T>, x: T)
    requires Distinct(s) && x in s
    requires forall y | y in s :: y == x
    ensures s == [x]
  {
    FirstTwo(s);
  }

  /** The first two elements of a list are members of it. */
  lemma FirstTwo<T>(s: seq<T>)
    ensures |s| >= 2 ==> s[0] in s && s[1] in s
  {
  }
}
