/** One direction of the link emulator (internal/netem/shaper.go): what send decides under the lock, and the
    shaper object with its heap. Times are in nanoseconds; loss and jitter draws are inputs. */
module Shaper {
  import opened Basics
  import opened ShaperHeap

  const MAX_QUEUE_DELAY: int := 200_000_000
  const HOUR: int := 3_600_000_000_000

  datatype Profile = Profile(delayMs: real, jitterMs: real, lossPct: real, rateKbit: real)

  /** One call of send: the clock it read, the profile in force, its random draws (a percentage and a number
      from -1 to 1) and the packet. */
  datatype Call = Call(now: int, profile: Profile, lossDraw: real, jitterDraw: real, buf: seq<byte>)

  /** The slot of the bottleneck given to an accepted packet under a rate cap. */
  datatype Slot = Slot(at: int, tx: nat, now: int, len: nat, rate: real)

  /** The fields under the lock; accepted counts the packets let through and slots lists the slots given. */
  datatype Core = Core(h: multiset<Packet>, nextFree: int, seqNo: nat, accepted: nat, slots: seq<Slot>)

  datatype Verdict = Lost | TailDropped | Immediate(p: Packet) | Queued(p: Packet)

  function Empty(): Core { Core(multiset{}, 0, 0, 0, []) }

  /** Serialization time; the conversion to a Duration truncates. */
  function Tx(len: nat, rate: real): (tx: nat)
    requires rate > 0.0
  {
    var x := (len as real) * 8.0 / rate * 1_000_000.0;
    x.Floor
  }

  /** One-way delay in nanoseconds. */
  function Delay(c: Call): (d: nat) {
    var owd := if c.profile.jitterMs > 0.0 then c.profile.delayMs + c.jitterDraw * c.profile.jitterMs
               else c.profile.delayMs;
    if owd < 0.0 then 0 else (owd * 1_000_000.0).Floor
  }

  function Max(a: int, b: int): int { if a < b then b else a }

  predicate LostOnTheLink(c: Call) { c.profile.lossPct > 0.0 && c.lossDraw < c.profile.lossPct }

  predicate Capped(c: Call) { c.profile.rateKbit > 0.0 }

  predicate QueueFull(s: Core, c: Call) { Capped(c) && Max(s.nextFree, c.now) - c.now > MAX_QUEUE_DELAY }

  /** Where the packet starts to be serialized. */
  function SlotAt(s: Core, c: Call): int { if Capped(c) then Max(s.nextFree, c.now) else c.now }

  /** The bottleneck's side of an accepted packet. */
  function Reserve(s: Core, c: Call): Core {
    if !Capped(c) then s.(accepted := s.accepted + 1)
    else
      var at, tx := SlotAt(s, c), Tx(|c.buf|, c.profile.rateKbit);
      s.(nextFree := at + tx, accepted := s.accepted + 1,
         slots := s.slots + [Slot(at, tx, c.now, |c.buf|, c.profile.rateKbit)])
  }

  /** Into the heap, or past it: a packet already due with nothing queued is delivered by its sender. */
  function Place(s: Core, due: int, now: int, id: nat, buf: seq<byte>): (Core, Verdict) {
    if due <= now && s.h == multiset{} then (s, Immediate(Packet(due, 0, id, buf)))
    else
      var p := Packet(due, s.seqNo + 1, id, buf);
      (s.(h := s.h + multiset{p}, seqNo := s.seqNo + 1), Queued(p))
  }

  /** send, up to the release of the lock. */
  function Send(s: Core, c: Call): (Core, Verdict) {
    if LostOnTheLink(c) then (s, Lost)
    else if QueueFull(s, c) then (s, TailDropped)
    else Place(Reserve(s, c), SlotAt(s, c) + Delay(c), c.now, s.accepted, c.buf)
  }

  predicate Sorted(ps: seq<Packet>) { forall i, j :: 0 <= i < j < |ps| ==> Leq(ps[i], ps[j]) }

  /** One pass of the scheduler over the heap: exactly the packets due by now leave, earliest first. */
  ghost predicate IsPass(h: multiset<Packet>, now: int, ready: seq<Packet>, h': multiset<Packet>) {
    && multiset(ready) + h' == h
    && Sorted(ready)
    && (forall p :: p in ready ==> p.due <= now)
    && (forall p :: p in h' ==> p.due > now)
  }

  /** The due time of the earliest packet of h. */
  ghost predicate IsTop(h: multiset<Packet>, top: Option<int>) {
    match top
    case None => h == multiset{}
    case Some(t) => (exists p :: p in h && p.due == t) && forall p :: p in h ==> t <= p.due
  }

  /** How long the pass lets the timer run. */
  function Wait(top: Option<int>, now: int): int {
    match top
    case None => HOUR
    case Some(t) => t - now
  }

  lemma TopLeq(h: seq<Packet>)
    requires Heap(h) && h != []
    ensures forall q :: q in h ==> Leq(h[0], q)
    ensures IsTop(multiset(h), Some(h[0].due))
  {
    forall q | q in h
      ensures Leq(h[0], q)
    {
      var k :| 0 <= k < |h| && h[k] == q;
      TopIsFirst(h, k);
    }
    assert h[0] in multiset(h);
    forall p | p in multiset(h)
      ensures h[0].due <= p.due
    {
      assert p in h;
    }
  }

  /** Taking the earliest packet of h keeps what was taken sorted and earlier than what is left. */
  lemma StillLater(ready: seq<Packet>, h: seq<Packet>, p: Packet, h': seq<Packet>)
    requires Sorted(ready) && multiset(h') + multiset{p} == multiset(h) && forall q :: q in h ==> Leq(p, q)
    requires forall q, r :: q in ready && r in h ==> Leq(q, r)
    ensures p in h && multiset(ready + [p]) + multiset(h') == multiset(ready) + multiset(h)
    ensures Sorted(ready + [p])
    ensures forall q, r :: q in ready + [p] && r in h' ==> Leq(q, r)
  {
    assert p in multiset(h);
    forall r | r in h'
      ensures r in h
    {
      assert r in multiset(h') && r in multiset(h);
    }
  }

  class Link {
    const heap: PktHeap
    var nextFree: int
    var seqNo: nat
    var wake: bool
    var accepted: nat
    ghost var slots: seq<Slot>

    constructor ()
      ensures Valid() && Now() == Empty() && !wake && fresh(heap)
    {
      heap := new PktHeap();
      nextFree, seqNo, wake := 0, 0, false;
      accepted, slots := 0, [];
    }

    ghost predicate Valid()
      reads this, heap
    {
      Heap(heap.h)
    }

    ghost function Now(): Core
      reads this, heap
    {
      Core(multiset(heap.h), nextFree, seqNo, accepted, slots)
    }

    /** send: the decision under the lock, and the wake token posted for a queued packet. */
    method SendPacket(c: Call) returns (v: Verdict)
      requires Valid()
      modifies this, heap
      ensures Valid() && (Now(), v) == Send(old(Now()), c)
      ensures wake == (old(wake) || v.Queued?)
    {
      hide Tx, Delay, Heap, Place;
      ghost var s0 := Now();
      if c.profile.lossPct > 0.0 && c.lossDraw < c.profile.lossPct { return Lost; }
      var slot := c.now;
      if c.profile.rateKbit > 0.0 {
        var free := if nextFree < c.now then c.now else nextFree;
        if free - c.now > MAX_QUEUE_DELAY { return TailDropped; }
        var tx := Tx(|c.buf|, c.profile.rateKbit);
        slot := free;
        nextFree := slot + tx;
        slots := slots + [Slot(slot, tx, c.now, |c.buf|, c.profile.rateKbit)];
      }
      var id := accepted;
      accepted := accepted + 1;
      assert Now() == Reserve(s0, c) && slot == SlotAt(s0, c);
      v := Schedule(slot + Delay(c), c.now, id, c.buf);
    }

    /** The end of send: deliver at once, or push and post the wake token. */
    method Schedule(due: int, now: int, id: nat, buf: seq<byte>) returns (v: Verdict)
      requires Valid()
      modifies this`seqNo, this`wake, heap
      ensures Valid() && (Now(), v) == Place(old(Now()), due, now, id, buf)
      ensures wake == (old(wake) || v.Queued?)
    {
      if due <= now && |heap.h| == 0 {
        return Immediate(Packet(due, 0, id, buf));
      }
      seqNo := seqNo + 1;
      v := Queued(Packet(due, seqNo, id, buf));
      heap.Push(v.p);
      wake := true;
    }

    /** The locked part of one turn of loop. */
    method Pass(now: int) returns (ready: seq<Packet>, wait: int)
      requires Valid()
      modifies heap
      ensures Valid() && IsPass(multiset(old(heap.h)), now, ready, multiset(heap.h))
      ensures exists top :: IsTop(multiset(heap.h), top) && wait == Wait(top, now)
    {
      ready, wait := [], HOUR;
      while heap.h != []
        invariant Heap(heap.h)
        invariant multiset(ready) + multiset(heap.h) == multiset(old(heap.h))
        invariant Sorted(ready) && forall p :: p in ready ==> p.due <= now
        invariant forall p, q :: p in ready && q in heap.h ==> Leq(p, q)
        decreases |heap.h|
      {
        var top := heap.h[0];
        TopLeq(heap.h);
        if top.due > now {
          wait := top.due - now;
          return;
        }
        ghost var before := heap.h;
        var p := heap.Pop();
        StillLater(ready, before, p, heap.h);
        ready := ready + [p];
      }
      assert IsTop(multiset(heap.h), None);
    }
  }
}
