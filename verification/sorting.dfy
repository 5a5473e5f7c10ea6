/** sort.Float64s, and order statistics of what it returns. */
module Sorting {

  function Insert(x: real, s: seq<real>): seq<real> {
    if s == [] || x <= s[0] then [x] + s else [s[0]] + Insert(x, s[1..])
  }

  function Sort(xs: seq<real>): (s: seq<real>)
    ensures |s| == |xs|
  {
    if xs == [] then []
    else
      InsertLength(xs[0], Sort(xs[1..]));
      Insert(xs[0], Sort(xs[1..]))
  }

  lemma {:induction false} InsertLength(x: real, s: seq<real>)
    ensures |Insert(x, s)| == |s| + 1
  {
    if s != [] && x > s[0] {
      InsertLength(x, s[1..]);
    }
  }

  predicate Sorted(s: seq<real>) { forall i, j :: 0 <= i < j < |s| ==> s[i] <= s[j] }

  /** How many elements are at most v. */
  function AtMost(xs: seq<real>, v: real): nat {
    if xs == [] then 0 else (if xs[0] <= v then 1 else 0) + AtMost(xs[1..], v)
  }

  /** How many elements are at least v. */
  function AtLeast(xs: seq<real>, v: real): nat {
    if xs == [] then 0 else (if xs[0] >= v then 1 else 0) + AtLeast(xs[1..], v)
  }

  lemma {:induction false} InsertPermutes(x: real, s: seq<real>)
    ensures multiset(Insert(x, s)) == multiset(s) + multiset{x}
  {
    if s != [] && x > s[0] {
      InsertPermutes(x, s[1..]);
      assert s == [s[0]] + s[1..];
    }
  }

  lemma {:induction false} InsertSorts(x: real, s: seq<real>)
    requires Sorted(s)
    ensures Sorted(Insert(x, s)) && |Insert(x, s)| == |s| + 1
    ensures Insert(x, s)[0] == if s == [] || x <= s[0] then x else s[0]
  {
    if s != [] && x > s[0] {
      InsertSorts(x, s[1..]);
      var t := Insert(x, s[1..]);
      assert Insert(x, s)[1..] == t;
      forall j | 0 <= j < |t| ensures s[0] <= t[j] {
        assert t[0] <= t[j];
      }
    }
  }

  lemma {:induction false} InsertCounts(x: real, s: seq<real>, v: real)
    ensures AtMost(Insert(x, s), v) == AtMost(s, v) + (if x <= v then 1 else 0)
    ensures AtLeast(Insert(x, s), v) == AtLeast(s, v) + (if x >= v then 1 else 0)
  {
    if s == [] || x <= s[0] {
      assert ([x] + s)[1..] == s;
    } else {
      InsertCounts(x, s[1..], v);
      assert Insert(x, s)[1..] == Insert(x, s[1..]);
    }
  }

  lemma {:induction false} SortCorrect(xs: seq<real>)
    ensures Sorted(Sort(xs)) && multiset(Sort(xs)) == multiset(xs)
  {
    if xs != [] {
      SortCorrect(xs[1..]);
      InsertSorts(xs[0], Sort(xs[1..]));
      InsertPermutes(xs[0], Sort(xs[1..]));
      assert xs == [xs[0]] + xs[1..];
    }
  }

  lemma {:induction false} SortCounts(xs: seq<real>, v: real)
    ensures AtMost(Sort(xs), v) == AtMost(xs, v) && AtLeast(Sort(xs), v) == AtLeast(xs, v)
  {
    if xs != [] {
      SortCounts(xs[1..], v);
      InsertCounts(xs[0], Sort(xs[1..]), v);
    }
  }

  lemma {:induction false} SortedCounts(s: seq<real>, k: nat)
    requires Sorted(s) && k < |s|
    ensures AtMost(s, s[k]) >= k + 1 && AtLeast(s, s[k]) >= |s| - k
  {
    if k == 0 {
      AllAtLeast(s, s[0]);
    } else {
      SortedCounts(s[1..], k - 1);
    }
  }

  lemma {:induction false} AllAtLeast(s: seq<real>, v: real)
    requires forall i :: 0 <= i < |s| ==> s[i] >= v
    ensures AtLeast(s, v) == |s|
  {
    if s != [] {
      AllAtLeast(s[1..], v);
    }
  }

  /** The k-th smallest of xs, which a sort then an index yields: one of them, with at least k + 1 of them at most
      it and at least |xs| - k of them at least it; and it grows with k. */
  lemma OrderStatistic(xs: seq<real>, k: nat, l: nat)
    requires k <= l < |xs|
    ensures Sort(xs)[k] in xs && AtMost(xs, Sort(xs)[k]) >= k + 1 && AtLeast(xs, Sort(xs)[k]) >= |xs| - k
    ensures Sort(xs)[k] <= Sort(xs)[l]
  {
    SortCorrect(xs);
    SortCounts(xs, Sort(xs)[k]);
    SortedCounts(Sort(xs), k);
    assert Sort(xs)[k] in multiset(Sort(xs));
  }
}
