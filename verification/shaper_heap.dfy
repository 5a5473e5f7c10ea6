/** The packet heap of internal/netem/shaper.go: the container/heap algorithms, sifting up and down by
    swaps in place, over the (due, seq) order of pktHeap.Less. */
module ShaperHeap {
  import opened Basics

  /** due is in nanoseconds. id numbers the accepted packets of a shaper; the source has no such field. */
  datatype Packet = Packet(due: int, seqNo: nat, id: nat, buf: seq<byte>)

  predicate Less(a: Packet, b: Packet) {
    if a.due == b.due then a.seqNo < b.seqNo else a.due < b.due
  }

  /** Not later than. */
  predicate Leq(a: Packet, b: Packet) { !Less(b, a) }

  function Parent(j: int): (p: nat)
    requires j > 0
    ensures p < j
  {
    (j - 1) / 2
  }

  ghost predicate Heap(h: seq<Packet>) { forall j :: 0 < j < |h| ==> Leq(h[Parent(j)], h[j]) }

  /** A heap but for the place j, which may be too early for its parent. */
  ghost predicate HeapButUp(h: seq<Packet>, j: nat) {
    && (forall k :: 0 < k < |h| && k != j ==> Leq(h[Parent(k)], h[k]))
    && (forall k :: 0 < k < |h| && Parent(k) == j && j > 0 ==> Leq(h[Parent(j)], h[k]))
  }

  /** The first n places are a heap but for place i, which may be too late for its children. */
  ghost predicate HeapButDown(h: seq<Packet>, n: nat, i: nat)
    requires n <= |h|
  {
    && (forall k :: 0 < k < n && Parent(k) != i ==> Leq(h[Parent(k)], h[k]))
    && (forall k :: 0 < k < n && Parent(k) == i && i > 0 ==> Leq(h[Parent(i)], h[k]))
  }

  lemma {:induction false} TopIsFirst(h: seq<Packet>, j: nat)
    requires Heap(h) && j < |h|
    ensures Leq(h[0], h[j])
    decreases j
  {
    if j > 0 { TopIsFirst(h, Parent(j)); }
  }

  function Swapped(h: seq<Packet>, i: nat, j: nat): (r: seq<Packet>)
    requires i < |h| && j < |h|
    ensures |r| == |h|
  {
    h[i := h[j]][j := h[i]]
  }

  lemma SwappedSame(h: seq<Packet>, i: nat, j: nat)
    requires i < |h| && j < |h|
    ensures multiset(Swapped(h, i, j)) == multiset(h)
  {
  }

  lemma SwappedBelow(h: seq<Packet>, n: nat, i: nat, j: nat)
    requires i < n && j < n <= |h|
    ensures Swapped(h, i, j)[n..] == h[n..]
  {
  }

  lemma SwapUp(h: seq<Packet>, j: nat)
    requires 0 < j < |h| && HeapButUp(h, j) && Less(h[j], h[Parent(j)])
    ensures HeapButUp(Swapped(h, Parent(j), j), Parent(j))
  {
    var i := Parent(j);
    var r := Swapped(h, i, j);
    assert i > 0 ==> Leq(h[Parent(i)], h[i]);
    forall k | 0 < k < |r| && k != i
      ensures Leq(r[Parent(k)], r[k])
    {
      assert k != j ==> Leq(h[Parent(k)], h[k]);
    }
  }

  /** The smaller child of i, among the first n places. */
  predicate SmallerChild(h: seq<Packet>, n: nat, i: nat, j: nat)
    requires n <= |h|
  {
    && i < j < n && Parent(j) == i
    && (2 * i + 1 < n ==> Leq(h[j], h[2 * i + 1]))
    && (2 * i + 2 < n ==> Leq(h[j], h[2 * i + 2]))
  }

  lemma SmallerChosen(h: seq<Packet>, n: nat, i: nat, j: nat)
    requires 2 * i + 1 < n <= |h|
    requires j == if 2 * i + 2 < n && Less(h[2 * i + 2], h[2 * i + 1]) then 2 * i + 2 else 2 * i + 1
    ensures SmallerChild(h, n, i, j)
  {
  }

  lemma DownEnds(h: seq<Packet>, n: nat, i: nat, j: nat)
    requires n <= |h| && HeapButDown(h, n, i)
    requires 2 * i + 1 >= n || (SmallerChild(h, n, i, j) && Leq(h[i], h[j]))
    ensures Heap(h[..n])
  {
    forall k | 0 < k < n
      ensures Leq(h[..n][Parent(k)], h[..n][k])
    {
      if Parent(k) == i {
        assert k == 2 * i + 1 || k == 2 * i + 2;
      } else {
        assert Leq(h[Parent(k)], h[k]);
      }
    }
  }

  lemma SwapDown(h: seq<Packet>, n: nat, i: nat, j: nat)
    requires n <= |h| && HeapButDown(h, n, i) && SmallerChild(h, n, i, j) && Less(h[j], h[i])
    ensures HeapButDown(Swapped(h, i, j), n, j)
  {
    var r := Swapped(h, i, j);
    assert i > 0 ==> Leq(h[Parent(i)], h[j]);
    forall k | 0 < k < n && Parent(k) != j
      ensures Leq(r[Parent(k)], r[k])
    {
      if Parent(k) == i {
        assert k == 2 * i + 1 || k == 2 * i + 2;
      } else {
        assert Leq(h[Parent(k)], h[k]);
      }
    }
    forall k | 0 < k < n && Parent(k) == j
      ensures Leq(r[Parent(j)], r[k])
    {
      assert Leq(h[Parent(k)], h[k]);
    }
  }

  class PktHeap {
    var h: seq<Packet>

    constructor ()
      ensures h == []
    {
      h := [];
    }

    method Swap(i: nat, j: nat)
      requires i < |h| && j < |h|
      modifies this
      ensures h == Swapped(old(h), i, j)
    {
      h := h[i := h[j]][j := h[i]];
    }

    /** heap.up. */
    method Up(start: nat)
      requires start < |h| && HeapButUp(h, start)
      modifies this
      ensures Heap(h) && multiset(h) == multiset(old(h)) && |h| == |old(h)|
    {
      var j: nat := start;
      while true
        invariant j < |h| == |old(h)| && HeapButUp(h, j)
        invariant multiset(h) == multiset(old(h))
        decreases j
      {
        if j == 0 || !Less(h[j], h[Parent(j)]) { return; }
        SwapUp(h, j);
        SwappedSame(h, Parent(j), j);
        Swap(Parent(j), j);
        j := Parent(j);
      }
    }

    /** heap.down from the root, over the first n places. */
    method Down(n: nat)
      requires n <= |h| && HeapButDown(h, n, 0)
      modifies this
      ensures |h| == |old(h)| && h[n..] == old(h)[n..]
      ensures Heap(h[..n]) && multiset(h) == multiset(old(h))
    {
      hide Less, HeapButDown, Heap, Swapped;
      var i: nat := 0;
      while true
        invariant |h| == |old(h)| && h[n..] == old(h)[n..]
        invariant HeapButDown(h, n, i) && multiset(h) == multiset(old(h))
        decreases n - i
      {
        var j1 := 2 * i + 1;
        if j1 >= n {
          DownEnds(h, n, i, 0);
          return;
        }
        var j := j1;
        if j1 + 1 < n && Less(h[j1 + 1], h[j1]) { j := j1 + 1; }
        SmallerChosen(h, n, i, j);
        if !Less(h[j], h[i]) {
          DownEnds(h, n, i, j);
          return;
        }
        SwapDown(h, n, i, j);
        SwappedSame(h, i, j);
        SwappedBelow(h, n, i, j);
        Swap(i, j);
        i := j;
      }
    }

    method Push(p: Packet)
      requires Heap(h)
      modifies this
      ensures Heap(h) && multiset(h) == multiset(old(h)) + multiset{p}
    {
      h := h + [p];
      Up(|h| - 1);
    }

    /** heap.Pop: the earliest packet leaves and the rest stays a heap. */
    method Pop() returns (p: Packet)
      requires Heap(h) && h != []
      modifies this
      ensures p == old(h)[0] && forall q :: q in old(h) ==> Leq(p, q)
      ensures Heap(h) && multiset(h) + multiset{p} == multiset(old(h)) && |h| == |old(h)| - 1
    {
      forall q | q in h
        ensures Leq(h[0], q)
      {
        var k :| 0 <= k < |h| && h[k] == q;
        TopIsFirst(h, k);
      }
      var n := |h| - 1;
      SwappedSame(h, 0, n);
      Swap(0, n);
      Down(n);
      p := h[n];
      assert h == h[..n] + [p] && h[n..][0] == p;
      h := h[..n];
    }
  }
}
