/** The shaper as a concurrent system: senders, the scheduler goroutine, its timer and its wake token.

    Each action is the locked part of send or of a turn of loop, one delivery, or one operation on the wake
    channel or the timer. Clocks are read before the lock is taken, so the times of different actions are
    unrelated unless an action says otherwise. */
module ShaperRuns {
  import opened Basics
  import opened ShaperHeap
  import opened Shaper

  /** Where the scheduler is. Passed and Sleeping keep what its last pass saw: its clock, the sequence number
      it had reached and the earliest due time it left. */
  datatype Loop =
    | Passing
    | Passed(ready: seq<Packet>, at: int, seqAt: nat, top: Option<int>)
    | Sleeping(deadline: int, armed: int, at: int, seqAt: nat, top: Option<int>)
    | Stopped

  /** owing: senders that have pushed and not yet posted; flight: packets of the synchronous path between the
      lock and their delivery. */
  datatype State = State(core: Core, token: bool, owing: nat, flight: multiset<Packet>, loop: Loop,
                         sent: nat, lost: nat, tail: nat, out: seq<Packet>)

  datatype Action =
    | DoSend(c: Call)
    | Post
    | DeliverNow(p: Packet)
    | DoPass(now: int, ready: seq<Packet>, left: multiset<Packet>, top: Option<int>)
    | Deliver
    | Arm(now: int)
    | Wake
    | Fire(now: int)
    | Stop

  function Init(): State { State(Empty(), false, 0, multiset{}, Passing, 0, 0, 0, []) }

  ghost predicate Enabled(s: State, a: Action) {
    match a
    case DoSend(_) => true
    case Post => s.owing > 0
    case DeliverNow(p) => p in s.flight
    case DoPass(now, ready, left, top) => s.loop.Passing? && IsPass(s.core.h, now, ready, left) && IsTop(left, top)
    case Deliver => s.loop.Passed? && s.loop.ready != []
    case Arm(now) => s.loop.Passed? && s.loop.ready == [] && now >= s.loop.at
    case Wake => s.loop.Sleeping? && s.token
    case Fire(now) => s.loop.Sleeping? && now >= s.loop.deadline
    case Stop => s.loop.Sleeping?
  }

  function Sent(s: State, c: Call): State {
    var r := Send(s.core, c);
    var s' := s.(core := r.0, sent := s.sent + 1);
    match r.1
    case Lost => s'.(lost := s.lost + 1)
    case TailDropped => s'.(tail := s.tail + 1)
    case Immediate(p) => s'.(flight := s.flight + multiset{p})
    case Queued(_) => s'.(owing := s.owing + 1)
  }

  function Next(s: State, a: Action): State
    requires a.Post? ==> s.owing > 0
    requires a.Deliver? ==> s.loop.Passed? && s.loop.ready != []
    requires a.Arm? ==> s.loop.Passed?
  {
    match a
    case DoSend(c) => Sent(s, c)
    case Post => s.(owing := s.owing - 1, token := true)
    case DeliverNow(p) => s.(flight := s.flight - multiset{p}, out := s.out + [p])
    case DoPass(now, ready, left, top) =>
      s.(core := s.core.(h := left), loop := Passed(ready, now, s.core.seqNo, top))
    case Deliver =>
      var l := s.loop;
      s.(out := s.out + [l.ready[0]], loop := l.(ready := l.ready[1..]))
    case Arm(now) =>
      var l := s.loop;
      s.(loop := Sleeping(now + Wait(l.top, l.at), now, l.at, l.seqAt, l.top))
    case Wake => s.(token := false, loop := Passing)
    case Fire(_) => s.(loop := Passing)
    case Stop => s.(loop := Stopped)
  }

  ghost predicate Run(s: State, acts: seq<Action>, s': State)
    decreases |acts|
  {
    if acts == [] then s == s'
    else Enabled(s, acts[0]) && Run(Next(s, acts[0]), acts[1..], s')
  }

  ghost predicate Reachable(s: State) { exists acts :: Run(Init(), acts, s) }

  // ---------- Serialization ----------

  ghost predicate SlotsOk(c: Core) {
    && (forall i :: 0 <= i < |c.slots| ==> 0 <= c.slots[i].at - c.slots[i].now <= MAX_QUEUE_DELAY)
    && (forall i :: 0 <= i < |c.slots| ==>
          c.slots[i].rate > 0.0 && c.slots[i].tx == Tx(c.slots[i].len, c.slots[i].rate))
    && (forall i, j :: 0 <= i < j < |c.slots| ==> c.slots[i].at + c.slots[i].tx <= c.slots[j].at)
    && (forall i :: 0 <= i < |c.slots| ==> c.slots[i].at + c.slots[i].tx <= c.nextFree)
  }

  lemma SendKeepsSlots(s: Core, c: Call)
    requires SlotsOk(s)
    ensures SlotsOk(Send(s, c).0)
  {
    SendSlots(s, c);
    hide Tx, Send;
    var s' := Send(s, c).0;
    if s'.slots != s.slots {
      var n := |s.slots|;
      assert forall i :: 0 <= i < n ==> s'.slots[i] == s.slots[i];
    }
  }

  /** What a send does to the slots: at most one more, after all the others. */
  lemma SendSlots(s: Core, c: Call)
    ensures var s' := Send(s, c).0;
            || (s'.slots == s.slots && s'.nextFree == s.nextFree)
            || (|s'.slots| == |s.slots| + 1 && s'.slots[..|s.slots|] == s.slots
                && var l := s'.slots[|s.slots|];
                   && l.rate > 0.0 && l.tx == Tx(l.len, l.rate) && 0 <= l.at - l.now <= MAX_QUEUE_DELAY
                   && l.at >= s.nextFree && s'.nextFree == l.at + l.tx)
  {
    hide Tx, Delay;
  }

  function Total(slots: seq<Slot>): nat {
    if slots == [] then 0 else Total(slots[..|slots| - 1]) + slots[|slots| - 1].tx
  }

  /** The serialization times of any contiguous run of packets fit between its first slot and its end. */
  lemma {:induction false} TotalFits(slots: seq<Slot>)
    requires slots != [] && forall i, j :: 0 <= i < j < |slots| ==> slots[i].at + slots[i].tx <= slots[j].at
    ensures var last := slots[|slots| - 1]; Total(slots) <= last.at + last.tx - slots[0].at
    decreases |slots|
  {
    var init := slots[..|slots| - 1];
    if init != [] {
      assert forall i, j :: 0 <= i < j < |init| ==> init[i] == slots[i] && init[j] == slots[j];
      TotalFits(init);
      assert init[|init| - 1] == slots[|slots| - 2];
    } else {
      assert Total(init) == 0;
    }
  }

  function Bits(slots: seq<Slot>): nat {
    if slots == [] then 0 else Bits(slots[..|slots| - 1]) + 8 * slots[|slots| - 1].len
  }

  /** So many bits fit in so many nanoseconds. */
  predicate BitsIn(bits: nat, time: nat, rate: real) { (bits as real) * 1_000_000.0 <= rate * (time as real) }

  /** At one rate the truncation of each serialization time loses less than a nanosecond. */
  lemma {:induction false} BitsFit(slots: seq<Slot>, rate: real)
    requires rate > 0.0
    requires forall i :: 0 <= i < |slots| ==> slots[i].rate == rate && slots[i].tx == Tx(slots[i].len, rate)
    ensures BitsIn(Bits(slots), Total(slots) + |slots|, rate)
    decreases |slots|
  {
    if slots != [] {
      hide Tx, BitsIn;
      var init, last := slots[..|slots| - 1], slots[|slots| - 1];
      assert forall i :: 0 <= i < |init| ==> init[i] == slots[i];
      BitsFit(init, rate);
      OneFits(last.len, rate);
      BitsAdd(Bits(init), 8 * last.len, Total(init) + |init|, last.tx + 1, rate);
    }
  }

  lemma BitsAdd(a: nat, b: nat, x: nat, y: nat, rate: real)
    requires BitsIn(a, x, rate) && BitsIn(b, y, rate)
    ensures BitsIn(a + b, x + y, rate)
  {
    Distribute(rate, x as real, y as real);
    assert (x + y) as real == x as real + y as real && (a + b) as real == a as real + b as real;
  }

  lemma Distribute(r: real, a: real, b: real)
    ensures r * (a + b) == r * a + r * b
  {
  }

  lemma OneFits(len: nat, rate: real)
    requires rate > 0.0
    ensures BitsIn(8 * len, Tx(len, rate) + 1, rate)
  {
    var q := (len as real) * 8.0 / rate;
    assert q * rate == (len as real) * 8.0;
    var x := q * 1_000_000.0;
    assert x <= (x.Floor + 1) as real;
    MulMono(rate, x, (Tx(len, rate) + 1) as real);
    assert rate * x == (q * rate) * 1_000_000.0 by { MulSwap(rate, q, 1_000_000.0); }
  }

  lemma MulMono(r: real, a: real, b: real)
    requires r > 0.0 && a <= b
    ensures r * a <= r * b
  {
  }

  lemma MulSwap(r: real, q: real, m: real)
    ensures r * (q * m) == (q * r) * m
  {
  }

  // ---------- Packets, order and wakeups ----------

  ghost predicate HeapOk(c: Core) {
    && (forall p :: p in c.h ==> c.h[p] == 1 && p.seqNo <= c.seqNo)
    && (forall p, q :: p in c.h && q in c.h && p.seqNo == q.seqNo ==> p == q)
  }

  /** What the scheduler knows between its pass and its next one: everything it saw and left is due no
      earlier than top, and anything else was pushed since. */
  ghost predicate SawAll(h: multiset<Packet>, seqAt: nat, top: Option<int>) {
    forall p :: p in h ==> p.seqNo > seqAt || (top.Some? && top.value <= p.due)
  }

  ghost predicate LoopOk(s: State) {
    match s.loop
    case Passing => true
    case Stopped => true
    case Passed(ready, at, seqAt, top) =>
      && SawAll(s.core.h, seqAt, top) && seqAt <= s.core.seqNo
      && (s.core.seqNo > seqAt ==> s.token || s.owing > 0)
      && (forall p :: p in ready ==> p.due <= at) && Sorted(ready) && (top.Some? ==> top.value > at)
    case Sleeping(deadline, armed, at, seqAt, top) =>
      && SawAll(s.core.h, seqAt, top) && seqAt <= s.core.seqNo
      && (s.core.seqNo > seqAt ==> s.token || s.owing > 0)
      && (top.Some? ==> top.value > at)
      && armed >= at && deadline == armed + Wait(top, at)
  }

  function Ready(l: Loop): seq<Packet> { if l.Passed? then l.ready else [] }

  /** Packets let through and not yet delivered. */
  function Held(s: State): nat { |s.core.h| + |Ready(s.loop)| + |s.flight| }

  ghost predicate Inv(s: State) {
    && SlotsOk(s.core)
    && HeapOk(s.core)
    && LoopOk(s)
    && s.sent == s.lost + s.tail + |s.out| + Held(s)
  }

  lemma PlaceKeepsHeap(s: Core, c: Call)
    requires HeapOk(s)
    ensures HeapOk(Send(s, c).0) && Send(s, c).0.seqNo >= s.seqNo
    ensures var r := Send(s, c);
            if r.1.Queued? then r.0.h == s.h + multiset{r.1.p} && r.1.p.seqNo == r.0.seqNo == s.seqNo + 1
            else r.0.h == s.h && r.0.seqNo == s.seqNo
  {
    SendShape(s, c);
    hide Send;
    var r := Send(s, c);
    if r.1.Queued? { HeapMore(s.h, s.seqNo, r.1.p); }
  }

  lemma SendShape(s: Core, c: Call)
    ensures var r := Send(s, c);
            if r.1.Queued? then r.0.h == s.h + multiset{r.1.p} && r.1.p.seqNo == r.0.seqNo == s.seqNo + 1
            else r.0.h == s.h && r.0.seqNo == s.seqNo
  {
    hide Tx, Delay;
  }

  lemma HeapMore(h: multiset<Packet>, seqNo: nat, q: Packet)
    requires forall p :: p in h ==> h[p] == 1 && p.seqNo <= seqNo
    requires forall p, r :: p in h && r in h && p.seqNo == r.seqNo ==> p == r
    requires q.seqNo == seqNo + 1
    ensures var more := h + multiset{q};
            && (forall p :: p in more ==> more[p] == 1 && p.seqNo <= seqNo + 1)
            && forall p, r :: p in more && r in more && p.seqNo == r.seqNo ==> p == r
  {
    assert q !in h;
  }

  lemma SendKeepsInv(s: State, c: Call)
    requires Inv(s)
    ensures Inv(Sent(s, c))
  {
    hide Send, SlotsOk, HeapOk;
    SendKeepsSlots(s.core, c);
    PlaceKeepsHeap(s.core, c);
  }

  lemma PassKeepsInv(s: State, now: int, ready: seq<Packet>, left: multiset<Packet>, top: Option<int>)
    requires Inv(s) && Enabled(s, DoPass(now, ready, left, top))
    ensures Inv(Next(s, DoPass(now, ready, left, top)))
  {
    var s' := Next(s, DoPass(now, ready, left, top));
    assert |s.core.h| == |multiset(ready)| + |left|;
    forall p | p in left
      ensures p in s.core.h && left[p] <= s.core.h[p]
    {
      assert s.core.h[p] == multiset(ready)[p] + left[p];
    }
    assert SlotsOk(s'.core) by { hide Tx; }
  }

  lemma StepKeepsInv(s: State, a: Action)
    requires Inv(s) && Enabled(s, a)
    ensures Inv(Next(s, a))
  {
    hide SlotsOk, HeapOk, SawAll, Send, IsPass, IsTop, Sorted;
    match a
    case DoSend(c) => SendKeepsInv(s, c);
    case DoPass(now, ready, left, top) => PassKeepsInv(s, now, ready, left, top);
    case Deliver => DeliverKeepsInv(s);
    case Post =>
    case DeliverNow(p) =>
    case Arm(now) =>
    case Wake =>
    case Fire(_) =>
    case Stop =>
  }

  lemma DeliverKeepsInv(s: State)
    requires Inv(s) && Enabled(s, Deliver)
    ensures Inv(Next(s, Deliver))
  {
    hide SlotsOk, HeapOk, SawAll;
    var ready := s.loop.ready;
    assert forall p :: p in ready[1..] ==> p in ready;
    assert forall i :: 0 <= i < |ready[1..]| ==> ready[1..][i] == ready[i + 1];
  }

  lemma {:induction false} RunKeepsInv(s: State, acts: seq<Action>, s': State)
    requires Inv(s) && Run(s, acts, s')
    ensures Inv(s')
    decreases |acts|
  {
    hide Inv;
    if acts != [] {
      StepKeepsInv(s, acts[0]);
      RunKeepsInv(Next(s, acts[0]), acts[1..], s');
    }
  }

  lemma ReachableInv(s: State)
    requires Reachable(s)
    ensures Inv(s)
  {
    var acts :| Run(Init(), acts, s);
    RunKeepsInv(Init(), acts, s);
  }

  /** Serialization under a rate cap, for any sends at any changing rates: slots never overlap, no packet
      waits more than 200 ms for its slot, and the serialization times of any stretch of accepted packets
      fit in the time it takes. */
  lemma Serialization(s: State, i: nat, j: nat)
    requires Reachable(s) && i < j <= |s.core.slots|
    ensures var slots := s.core.slots;
            && (i + 1 < j ==> slots[i].at + slots[i].tx <= slots[j - 1].at)
            && slots[i].now <= slots[i].at <= slots[i].now + 200_000_000
            && Total(slots[i..j]) <= slots[j - 1].at + slots[j - 1].tx - slots[i].at
  {
    hide Tx, HeapOk, LoopOk, Reachable;
    ReachableInv(s);
    TotalFits(s.core.slots[i..j]);
  }

  /** At one rate a stretch of accepted packets carries no more bits than the rate allows in the time it
      takes, to a nanosecond a packet. */
  lemma RateRespected(s: State, i: nat, j: nat, rate: real)
    requires Reachable(s) && i < j <= |s.core.slots|
    requires forall k :: i <= k < j ==> s.core.slots[k].rate == rate
    ensures var slots := s.core.slots;
            (Bits(slots[i..j]) as real) * 1_000_000.0 <=
            rate * ((slots[j - 1].at + slots[j - 1].tx - slots[i].at + (j - i)) as real)
  {
    hide Tx, HeapOk, LoopOk, Reachable, Bits, Total;
    var part := s.core.slots[i..j];
    Serialization(s, i, j);
    SlotsTimed(s, i, j, rate);
    BitsFit(part, rate);
    var last := s.core.slots[j - 1];
    MulMono(rate, (Total(part) + |part|) as real, (last.at + last.tx - s.core.slots[i].at + (j - i)) as real);
  }

  lemma SlotsTimed(s: State, i: nat, j: nat, rate: real)
    requires Reachable(s) && i < j <= |s.core.slots|
    requires forall k :: i <= k < j ==> s.core.slots[k].rate == rate
    ensures rate > 0.0
    ensures var part := s.core.slots[i..j];
            forall k :: 0 <= k < |part| ==> part[k].rate == rate && part[k].tx == Tx(part[k].len, rate)
  {
    hide Tx, HeapOk, LoopOk, Reachable;
    ReachableInv(s);
    assert s.core.slots[i].rate > 0.0;
  }

  /** Every packet ever sent is lost, tail-dropped, delivered or held, in every state. */
  lemma PacketsConserved(s: State)
    requires Reachable(s)
    ensures s.sent == s.lost + s.tail + |s.out| + Held(s)
  {
    ReachableInv(s);
  }

  /** No wakeup is lost. While the scheduler sleeps, if no wake token is there and no sender is about to post
      one, then everything in the heap was there at its last pass, none of it is due before what that pass
      set the timer for, and the timer runs out as long after that as the deliveries took. */
  lemma NoLostWakeup(s: State)
    requires Reachable(s) && s.loop.Sleeping? && !s.token && s.owing == 0
    ensures s.core.seqNo == s.loop.seqAt
    ensures forall p :: p in s.core.h ==>
              s.loop.top.Some? && s.loop.top.value <= p.due &&
              s.loop.deadline == s.loop.top.value + (s.loop.armed - s.loop.at) <= p.due + (s.loop.armed - s.loop.at)
  {
    ReachableInv(s);
  }

  /** A pass delivers in (due, seq) order, nothing early, and leaves nothing that was due: what is in the
      heap until the next pass and was pushed before this one is due later. */
  lemma PassIsExact(s: State)
    requires Reachable(s) && s.loop.Passed?
    ensures Sorted(s.loop.ready) && forall p :: p in s.loop.ready ==> p.due <= s.loop.at
    ensures forall p :: p in s.core.h && p.seqNo <= s.loop.seqAt ==> p.due > s.loop.at
  {
    ReachableInv(s);
  }
}
