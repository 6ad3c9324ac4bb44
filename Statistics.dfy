/** Series.median() over the non-missing numbers of a column: sort the
    sample, take the middle value, or the mean of the two middle values when
    the sample has an even size. An empty sample has no median (pandas
    returns NaN). */
module Statistics {
  import opened TableModel

  predicate Sorted(s: seq<real>)
  {
    forall i, j :: 0 <= i < j < |s| ==> s[i] <= s[j]
  }

  /** How many values are at most m, and at least m. */
  function CountAtMost(xs: seq<real>, m: real): nat
  {
    if xs == [] then 0 else (if xs[0] <= m then 1 else 0) + CountAtMost(xs[1..], m)
  }

  function CountAtLeast(xs: seq<real>, m: real): nat
  {
    if xs == [] then 0 else (if xs[0] >= m then 1 else 0) + CountAtLeast(xs[1..], m)
  }

  /** x placed into a sorted sequence before the first larger value. */
  function Insert(x: real, s: seq<real>): (r: seq<real>)
    requires Sorted(s)
    ensures Sorted(r)
    ensures |r| == |s| + 1
    ensures r[0] == if s == [] || x <= s[0] then x else s[0]
    ensures multiset(r) == multiset(s) + multiset{x}
  {
    if s == [] then [x]
    else if x <= s[0] then [x] + s
    else
      SortedTail(s);
      var rest := Insert(x, s[1..]);
      SortedCons(s[0], rest);
      assert s == [s[0]] + s[1..];
      [s[0]] + rest
  }

  /** A value no larger than the head of a sorted sequence can go in front. */
  lemma SortedCons(h: real, s: seq<real>)
    requires Sorted(s) && (s != [] ==> h <= s[0])
    ensures Sorted([h] + s)
  {
    var r := [h] + s;
    forall i, j | 0 <= i < j < |r| ensures r[i] <= r[j] {
      assert r[j] == s[j - 1];
      if i > 0 {
        assert r[i] == s[i - 1];
      }
    }
  }

  /** Insertion sort: a sorted permutation of the sample. */
  function Sort(xs: seq<real>): (s: seq<real>)
    ensures Sorted(s)
    ensures |s| == |xs|
    ensures multiset(s) == multiset(xs)
  {
    if xs == [] then []
    else
      assert xs == [xs[0]] + xs[1..];
      Insert(xs[0], Sort(xs[1..]))
  }

  /** The middle value of a sorted, non-empty sample: the middle element
      for an odd size, the mean of the two middle elements for an even one;
      either way it lies between the two middle elements. */
  function Middle(s: seq<real>): (m: real)
    requires s != []
    ensures |s| % 2 == 1 ==> m == s[|s| / 2]
    ensures |s| % 2 == 0 ==> m == (s[|s| / 2 - 1] + s[|s| / 2]) / 2.0
    ensures Sorted(s) ==> s[(|s| - 1) / 2] <= m <= s[|s| / 2]
  {
    var h := |s| / 2;
    if |s| % 2 == 1 then s[h] else (s[h - 1] + s[h]) / 2.0
  }

  function Median(xs: seq<real>): (m: Option<real>)
    ensures m.None? <==> xs == []
  {
    if xs == [] then None else Some(Middle(Sort(xs)))
  }

  lemma {:induction false} InsertCounts(x: real, s: seq<real>, m: real)
    requires Sorted(s)
    ensures CountAtMost(Insert(x, s), m) == CountAtMost(s, m) + (if x <= m then 1 else 0)
    ensures CountAtLeast(Insert(x, s), m) == CountAtLeast(s, m) + (if x >= m then 1 else 0)
  {
    if s != [] && x > s[0] {
      SortedTail(s);
      InsertCounts(x, s[1..], m);
      var rest := Insert(x, s[1..]);
      var r := [s[0]] + rest;
      assert Insert(x, s) == r;
      assert r[0] == s[0] && r[1..] == rest;
    }
  }

  /** Sorting does not change how many values lie on either side of m. */
  lemma {:induction false} SortCounts(xs: seq<real>, m: real)
    ensures CountAtMost(Sort(xs), m) == CountAtMost(xs, m)
    ensures CountAtLeast(Sort(xs), m) == CountAtLeast(xs, m)
  {
    if xs != [] {
      SortCounts(xs[1..], m);
      InsertCounts(xs[0], Sort(xs[1..]), m);
    }
  }

  lemma {:induction false} CountAtMostPrefix(s: seq<real>, m: real, k: nat)
    requires k <= |s|
    requires forall i :: 0 <= i < k ==> s[i] <= m
    ensures CountAtMost(s, m) >= k
  {
    if k > 0 {
      CountAtMostPrefix(s[1..], m, k - 1);
    }
  }

  lemma {:induction false} CountAtLeastSuffix(s: seq<real>, m: real, k: nat)
    requires k <= |s|
    requires forall i :: k <= i < |s| ==> s[i] >= m
    ensures CountAtLeast(s, m) >= |s| - k
  {
    if s != [] {
      if k > 0 {
        CountAtLeastSuffix(s[1..], m, k - 1);
      } else {
        CountAtLeastSuffix(s[1..], m, 0);
      }
    }
  }

  lemma MiddleSplits(s: seq<real>)
    requires s != [] && Sorted(s)
    ensures 2 * CountAtMost(s, Middle(s)) >= |s|
    ensures 2 * CountAtLeast(s, Middle(s)) >= |s|
  {
    var n, h, m := |s|, |s| / 2, Middle(s);
    if n % 2 == 1 {
      assert n == 2 * h + 1 && m == s[h];
      CountAtMostPrefix(s, m, h + 1);
      CountAtLeastSuffix(s, m, h);
    } else {
      assert n == 2 * h && m == (s[h - 1] + s[h]) / 2.0 && s[h - 1] <= s[h];
      CountAtMostPrefix(s, m, h);
      CountAtLeastSuffix(s, m, h);
    }
  }

  /** The median splits the sample in halves: at least half of the values
      are at most the median, and at least half are at least the median. */
  lemma MedianSplitsSample(xs: seq<real>)
    requires xs != []
    ensures 2 * CountAtMost(xs, Median(xs).value) >= |xs|
    ensures 2 * CountAtLeast(xs, Median(xs).value) >= |xs|
  {
    var s := Sort(xs);
    SortCounts(xs, Middle(s));
    MiddleSplits(s);
  }

  /** A sample of one value has that value as its median. */
  lemma MedianOfOne(x: real)
    ensures Median([x]) == Some(x)
  {
    assert Sort([x]) == Insert(x, Sort([])) == [x];
  }

  lemma SortedHeadIsLeast(a: seq<real>, x: real)
    requires Sorted(a) && x in multiset(a)
    ensures a[0] <= x
  {
    assert x in a;
  }

  lemma SortedTail(a: seq<real>)
    requires a != [] && Sorted(a)
    ensures Sorted(a[1..])
  {
  }

  lemma DropHead(a: seq<real>)
    requires a != []
    ensures multiset(a[1..]) == multiset(a) - multiset{a[0]}
  {
    assert a == [a[0]] + a[1..];
  }

  /** Two sorted sequences with the same values are equal. */
  lemma {:induction false} SortedUnique(a: seq<real>, b: seq<real>)
    requires Sorted(a) && Sorted(b) && multiset(a) == multiset(b)
    ensures a == b
  {
    if a != [] {
      assert b != [] by { assert |multiset(b)| == |multiset(a)| == |a|; }
      assert b[0] in multiset(a) by { assert b[0] in multiset(b); }
      assert a[0] in multiset(b) by { assert a[0] in multiset(a); }
      SortedHeadIsLeast(a, b[0]);
      SortedHeadIsLeast(b, a[0]);
      var h := a[0];
      assert b[0] == h;
      var ta, tb := a[1..], b[1..];
      DropHead(a);
      DropHead(b);
      SortedTail(a);
      SortedTail(b);
      SortedUnique(ta, tb);
      assert a == [h] + ta && b == [h] + tb;
    }
  }

  /** The median depends on the sample's values only, not on the order of
      the rows they come from. */
  lemma MedianIgnoresOrder(xs: seq<real>, ys: seq<real>)
    requires multiset(xs) == multiset(ys)
    ensures Median(xs) == Median(ys)
  {
    SortedUnique(Sort(xs), Sort(ys));
    if xs == [] {
      assert |multiset(ys)| == 0;
    } else {
      assert ys != [] by { assert |multiset(ys)| == |xs|; }
    }
  }
}
