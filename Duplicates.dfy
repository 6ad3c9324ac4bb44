/** drop_duplicates() with pandas' defaults: a row is dropped when it equals,
    on every column, a row that comes before it (keep='first'). Two missing
    cells compare equal here, as pandas treats NaN as equal to NaN when it
    looks for duplicates. */
module Duplicates {
  import opened TableModel

  /** The rows that remain, in their original order. Built from the front:
      the last row is kept when nothing kept before it equals it. */
  function Dedup<T(==)>(s: seq<T>): (d: seq<T>)
    ensures |d| <= |s|
    ensures forall i :: 0 <= i < |d| ==> d[i] in s
    decreases |s|
  {
    if s == [] then []
    else
      var prev := Dedup(s[..|s| - 1]);
      if s[|s| - 1] in prev then prev else prev + [s[|s| - 1]]
  }

  /** The positions pandas keeps: those whose row does not occur earlier.
      This is a reference definition that looks at the input alone. */
  function KeptIndices<T(==)>(s: seq<T>): (ks: seq<nat>)
    decreases |s|
  {
    if s == [] then []
    else
      var prev := KeptIndices(s[..|s| - 1]);
      if s[|s| - 1] in s[..|s| - 1] then prev else prev + [|s| - 1]
  }

  /** No row is lost and none is invented: the rows that remain are exactly
      the distinct rows of the input. */
  lemma {:induction false} DedupSameRows<T>(s: seq<T>)
    ensures forall x :: x in Dedup(s) <==> x in s
  {
    if s != [] {
      var init := s[..|s| - 1];
      DedupSameRows(init);
      assert s == init + [s[|s| - 1]];
    }
  }

  /** The result holds no two equal rows. */
  lemma {:induction false} DedupDistinct<T>(s: seq<T>)
    ensures Distinct(Dedup(s))
  {
    if s != [] {
      DedupDistinct(s[..|s| - 1]);
    }
  }

  /** Each distinct row of the input occurs exactly once in the result. */
  lemma {:induction false} DedupOnce<T>(s: seq<T>, x: T)
    ensures multiset(Dedup(s))[x] == if x in s then 1 else 0
  {
    DedupSameRows(s);
    DedupDistinct(s);
    DistinctMultiplicity(Dedup(s), x);
  }

  lemma {:induction false} DistinctMultiplicity<T>(s: seq<T>, x: T)
    requires Distinct(s)
    ensures multiset(s)[x] == if x in s then 1 else 0
  {
    if s != [] {
      var init := s[..|s| - 1];
      assert s == init + [s[|s| - 1]];
      assert Distinct(init);
      DistinctMultiplicity(init, x);
      assert s[|s| - 1] !in init;
    }
  }

  /** A table without duplicate rows is left as it is. */
  lemma {:induction false} DedupOfDistinct<T>(s: seq<T>)
    requires Distinct(s)
    ensures Dedup(s) == s
  {
    if s != [] {
      var init := s[..|s| - 1];
      assert Distinct(init);
      DedupOfDistinct(init);
      assert s[|s| - 1] !in init;
      assert s == init + [s[|s| - 1]];
    }
  }

  /** Deduplicating twice is deduplicating once. */
  lemma {:induction false} DedupIdempotent<T>(s: seq<T>)
    ensures Dedup(Dedup(s)) == Dedup(s)
  {
    DedupDistinct(s);
    DedupOfDistinct(Dedup(s));
  }

  /** The kept positions are increasing positions of the input, and a
      position is kept exactly when its row does not occur before it. */
  lemma {:induction false} KeptIndicesFirstOccurrences<T>(s: seq<T>)
    ensures forall a, b :: 0 <= a < b < |KeptIndices(s)| ==> KeptIndices(s)[a] < KeptIndices(s)[b]
    ensures forall k :: 0 <= k < |KeptIndices(s)| ==> KeptIndices(s)[k] < |s|
    ensures forall i :: 0 <= i < |s| ==> (i in KeptIndices(s) <==> s[i] !in s[..i])
  {
    if s != [] {
      var n := |s| - 1;
      var init := s[..n];
      KeptIndicesFirstOccurrences(init);
      var prev := KeptIndices(init);
      assert n !in prev;
      forall i | 0 <= i < |s|
        ensures i in KeptIndices(s) <==> s[i] !in s[..i]
      {
        if i < n {
          assert s[..i] == init[..i];
          assert i in KeptIndices(s) <==> i in prev;
        }
      }
    }
  }

  /** The result is the input read at the kept positions, in order: pandas
      keeps the first occurrence of every row and the relative order of the
      rows it keeps. */
  lemma {:induction false} DedupKeepsFirstInOrder<T>(s: seq<T>)
    ensures |Dedup(s)| == |KeptIndices(s)|
    ensures forall k :: 0 <= k < |Dedup(s)| ==>
      KeptIndices(s)[k] < |s| && Dedup(s)[k] == s[KeptIndices(s)[k]]
  {
    if s != [] {
      var n := |s| - 1;
      var init := s[..n];
      DedupKeepsFirstInOrder(init);
      DedupSameRows(init);
      var d, ks := Dedup(init), KeptIndices(init);
      forall k | 0 <= k < |d|
        ensures s[ks[k]] == init[ks[k]]
      {
      }
    }
  }
}
