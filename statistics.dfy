/** The median that pandas `Series.median()` computes over the values present in a column. */
module Statistics {
  import opened Wrappers

  predicate Sorted(s: seq<real>) {
    forall i, j :: 0 <= i < j < |s| ==> s[i] <= s[j]
  }

  /** Insert `x` into a sorted sequence, before the first element not smaller than it. */
  function Insert(x: real, s: seq<real>): seq<real> {
    if s == [] then [x]
    else if x <= s[0] then [x] + s
    else [s[0]] + Insert(x, s[1..])
  }

  /** Insertion sort. */
  function Sort(s: seq<real>): seq<real> {
    if s == [] then [] else Insert(s[0], Sort(s[1..]))
  }

  lemma {:induction false} InsertMultiset(x: real, s: seq<real>)
    ensures multiset(Insert(x, s)) == multiset(s) + multiset{x}
  {
    if s != [] && x > s[0] {
      InsertMultiset(x, s[1..]);
      assert s == [s[0]] + s[1..];
    }
  }

  lemma {:induction false} InsertSorted(x: real, s: seq<real>)
    requires Sorted(s)
    ensures Sorted(Insert(x, s))
  {
    if s != [] && x > s[0] {
      var t := Insert(x, s[1..]);
      InsertSorted(x, s[1..]);
      InsertMultiset(x, s[1..]);
      forall k | 0 <= k < |t|
        ensures s[0] <= t[k]
      {
        assert t[k] in multiset(t);
        if t[k] != x {
          assert t[k] in multiset(s[1..]);
          var j :| 0 <= j < |s[1..]| && s[1..][j] == t[k];
          assert s[j + 1] == t[k];
        }
      }
      assert Insert(x, s) == [s[0]] + t;
    }
  }

  /** Sorting orders the values and keeps every one of them, with its multiplicity. */
  lemma {:induction false} SortSpec(s: seq<real>)
    ensures Sorted(Sort(s))
    ensures multiset(Sort(s)) == multiset(s)
  {
    if s != [] {
      SortSpec(s[1..]);
      InsertSorted(s[0], Sort(s[1..]));
      InsertMultiset(s[0], Sort(s[1..]));
      assert s == [s[0]] + s[1..];
    }
  }

  /** Two sorted arrangements of the same values are the same sequence. */
  lemma {:induction false} SortedUnique(a: seq<real>, b: seq<real>)
    requires Sorted(a) && Sorted(b) && multiset(a) == multiset(b)
    ensures a == b
  {
    assert |a| == |multiset(a)| == |multiset(b)| == |b|;
    if a != [] {
      SortedHeads(a, b);
      DropHead(a);
      DropHead(b);
      SortedUnique(a[1..], b[1..]);
      assert a == [a[0]] + a[1..];
      assert b == [b[0]] + b[1..];
    }
  }

  /** Two non-empty sorted arrangements of the same values start with the same value. */
  lemma SortedHeads(a: seq<real>, b: seq<real>)
    requires Sorted(a) && Sorted(b) && multiset(a) == multiset(b) && a != [] && b != []
    ensures a[0] == b[0]
  {
    assert a[0] in multiset(b);
    assert b[0] in multiset(a);
    var i :| 0 <= i < |b| && b[i] == a[0];
    var j :| 0 <= j < |a| && a[j] == b[0];
    assert a[0] <= a[j];
    assert b[0] <= b[i];
  }

  /** Dropping the first value keeps the rest sorted and removes one copy of that value. */
  lemma DropHead(a: seq<real>)
    requires Sorted(a) && a != []
    ensures Sorted(a[1..])
    ensures multiset(a[1..]) == multiset(a) - multiset{a[0]}
  {
    assert a == [a[0]] + a[1..];
  }

  /**
   * `Series.median()` over the present values: the middle value in sorted
   * order, or the mean of the two middle values when there is an even number
   * of them; `None` (NaN) when there is no value at all.
   */
  function Median(xs: seq<real>): (m: Option<real>)
    ensures m.Some? <==> |xs| > 0
  {
    if xs == [] then None
    else
      SortSpec(xs);
      assert |Sort(xs)| == |multiset(Sort(xs))| == |xs|;
      Some(Middle(Sort(xs)))
  }

  /** The middle value of a sorted sequence, or the mean of the two middle values. */
  function Middle(t: seq<real>): real
    requires |t| > 0
  {
    var k := |t| / 2;
    if |t| % 2 == 1 then t[k] else (t[k - 1] + t[k]) / 2.0
  }

  /** A median lies within any bounds that hold every value. */
  lemma MedianWithin(xs: seq<real>, lo: real, hi: real)
    requires forall i :: 0 <= i < |xs| ==> lo <= xs[i] <= hi
    ensures Median(xs).Some? ==> lo <= Median(xs).value <= hi
  {
    if xs != [] {
      var t := Sort(xs);
      SortSpec(xs);
      assert |t| == |multiset(t)| == |xs|;
      forall k | 0 <= k < |t|
        ensures lo <= t[k] <= hi
      {
        assert t[k] in multiset(xs);
      }
    }
  }

  /** The median depends only on the values, not on the order of the rows. */
  lemma MedianOrderIndependent(xs: seq<real>, ys: seq<real>)
    requires multiset(xs) == multiset(ys)
    ensures Median(xs) == Median(ys)
  {
    SortSpec(xs);
    SortSpec(ys);
    SortedUnique(Sort(xs), Sort(ys));
    assert |xs| == |multiset(xs)| == |ys|;
  }
}
