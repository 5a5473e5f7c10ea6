/** First in, first out. For runs under a fixed profile without jitter, whose sends read clocks that do not go back:
    exactly in which states the order of acceptance is safe, and the schedules that keep to such states. */
module ShaperFifo {
  import opened Basics
  import opened ShaperHeap
  import opened Shaper
  import opened ShaperRuns

  function Ids(ps: seq<Packet>): (r: seq<nat>)
    ensures |r| == |ps| && forall i :: 0 <= i < |r| ==> r[i] == ps[i].id
  {
    seq(|ps|, i requires 0 <= i < |ps| => ps[i].id)
  }

  /** Delivered so far in exactly the order of acceptance. */
  predicate InOrder(out: seq<Packet>) { forall i :: 0 <= i < |out| ==> out[i].id == i }

  /** Nothing is popped or let through and not yet delivered. */
  predicate Idle(s: State) { s.flight == multiset{} && Ready(s.loop) == [] }

  /** Only one delivery can come next: that of the first packet popped, or of a single packet let through. */
  predicate Calm(s: State) { s.flight == multiset{} || (|s.flight| == 1 && Ready(s.loop) == []) }

  /** The sends use profile p, at times from t on that do not go back. */
  predicate Steady(acts: seq<Action>, p: Profile, t: int)
    decreases |acts|
  {
    if acts == [] then true
    else if acts[0].DoSend? then
      acts[0].c.profile == p && t <= acts[0].c.now && Steady(acts[1..], p, acts[0].c.now)
    else Steady(acts[1..], p, t)
  }

  /** A packet goes past the heap, or a pass takes some from it. */
  predicate LetsThrough(s: State, a: Action) {
    (a.DoSend? && Send(s.core, a.c).1.Immediate?) || (a.DoPass? && a.ready != [])
  }

  /** Along the run, nothing is let through while a delivery is pending. */
  ghost predicate Undisturbed(s: State, acts: seq<Action>)
    decreases |acts|
  {
    acts == []
    || (Enabled(s, acts[0]) && (LetsThrough(s, acts[0]) ==> Idle(s)) && Undisturbed(Next(s, acts[0]), acts[1..]))
  }

  /** Along the run every state is calm. */
  ghost predicate AlwaysCalm(s: State, acts: seq<Action>)
    decreases |acts|
  {
    Calm(s) && (acts == [] || (Enabled(s, acts[0]) && AlwaysCalm(Next(s, acts[0]), acts[1..])))
  }

  predicate Deliveries(acts: seq<Action>) {
    forall i :: 0 <= i < |acts| ==> acts[i].Deliver? || acts[i].DeliverNow?
  }

  // ---------- What the packets of a steady run look like ----------

  /** The clock of the last send, and the heap in the order of acceptance. */
  datatype View = View(clock: int, held: seq<Packet>)

  /** A packet sent from now on is due no earlier than this. */
  function NextDue(c: Core, clock: int, p: Profile): int {
    (if p.rateKbit > 0.0 then Max(c.nextFree, clock) else clock) + Delay(Call(0, p, 0.0, 0.0, []))
  }

  ghost predicate Ordered(held: seq<Packet>) {
    forall i, j :: 0 <= i < j < |held| ==> held[i].due <= held[j].due && held[i].seqNo < held[j].seqNo
  }

  ghost predicate HeldOk(c: Core, v: View, p: Profile) {
    && multiset(v.held) == c.h
    && Ordered(v.held)
    && (forall i :: 0 <= i < |v.held| ==> v.held[i].due <= NextDue(c, v.clock, p) && v.held[i].seqNo <= c.seqNo)
  }

  /** Packets that have left the heap or never entered it. */
  function Loose(s: State): multiset<Packet> { multiset(s.out) + multiset(Ready(s.loop)) + s.flight }

  /** Their ids are distinct and those accepted first; the heap has the ids after them, in order. */
  ghost predicate IdsOk(loose: multiset<Packet>, held: seq<Packet>, accepted: nat) {
    && accepted == |loose| + |held|
    && (forall q :: q in loose ==> loose[q] == 1 && q.id < |loose|)
    && (forall q, r :: q in loose && r in loose && q.id == r.id ==> q == r)
    && (forall i :: 0 <= i < |held| ==> held[i].id == |loose| + i)
  }

  ghost predicate Climbing(ready: seq<Packet>) { forall i :: 0 < i < |ready| ==> ready[i - 1].id < ready[i].id }

  ghost predicate Follows(s: State, v: View, p: Profile) {
    HeldOk(s.core, v, p) && IdsOk(Loose(s), v.held, s.core.accepted) && Climbing(Ready(s.loop))
  }

  lemma DelayIsFixed(c: Call)
    requires c.profile.jitterMs <= 0.0
    ensures Delay(c) == Delay(Call(0, c.profile, 0.0, 0.0, []))
  {
  }

  lemma EmptyHeap(held: seq<Packet>)
    requires multiset(held) == multiset{}
    ensures held == []
  {
    assert |multiset(held)| == |held|;
  }

  /** What one send does: an accepted packet is due no earlier than anything held and gets the next id. */
  lemma SendIsOrdered(s: Core, v: View, c: Call, p: Profile)
    requires HeldOk(s, v, p) && v.clock <= c.now && c.profile == p && p.jitterMs <= 0.0
    ensures var r := Send(s, c);
            var (s', w) := r;
            && NextDue(s', c.now, p) >= NextDue(s, v.clock, p)
            && s'.seqNo >= s.seqNo
            && (w.Queued? ==> NextDue(s, v.clock, p) <= w.p.due <= NextDue(s', c.now, p)
                              && w.p.seqNo == s'.seqNo == s.seqNo + 1 && s'.h == s.h + multiset{w.p})
            && (!w.Queued? ==> s'.h == s.h)
            && (w.Immediate? ==> s.h == multiset{})
            && (w.Queued? || w.Immediate? ==> w.p.id == s.accepted && s'.accepted == s.accepted + 1)
            && (w.Lost? || w.TailDropped? ==> s'.accepted == s.accepted)
  {
    DelayIsFixed(c);
    hide Tx, Delay, Ordered;
  }

  lemma OrderedMore(held: seq<Packet>, p: Packet)
    requires Ordered(held) && forall i :: 0 <= i < |held| ==> held[i].due <= p.due && held[i].seqNo < p.seqNo
    ensures Ordered(held + [p])
  {
  }

  lemma HeldGrows(c: Core, c': Core, v: View, clock: int, p: Profile)
    requires HeldOk(c, v, p) && NextDue(c', clock, p) >= NextDue(c, v.clock, p) && c'.seqNo >= c.seqNo && c'.h == c.h
    ensures HeldOk(c', View(clock, v.held), p)
  {
    hide NextDue, Ordered;
  }

  lemma HeldGrowsBy(c: Core, c': Core, v: View, clock: int, q: Packet, p: Profile)
    requires HeldOk(c, v, p) && NextDue(c, v.clock, p) <= q.due <= NextDue(c', clock, p)
    requires q.seqNo == c'.seqNo == c.seqNo + 1 && c'.h == c.h + multiset{q}
    ensures HeldOk(c', View(clock, v.held + [q]), p)
  {
    hide NextDue, Ordered;
    OrderedMore(v.held, q);
  }

  lemma LooseMore(loose: multiset<Packet>, accepted: nat, q: Packet)
    requires IdsOk(loose, [], accepted) && q.id == accepted
    ensures IdsOk(loose + multiset{q}, [], accepted + 1)
  {
    assert q !in loose;
  }

  lemma HeldMore(loose: multiset<Packet>, held: seq<Packet>, accepted: nat, q: Packet)
    requires IdsOk(loose, held, accepted) && q.id == accepted
    ensures IdsOk(loose, held + [q], accepted + 1)
  {
  }

  lemma QueuedFollows(s: State, s': State, v: View, clock: int, q: Packet, p: Profile)
    requires Follows(s, v, p) && Loose(s') == Loose(s) && Ready(s'.loop) == Ready(s.loop)
    requires NextDue(s.core, v.clock, p) <= q.due <= NextDue(s'.core, clock, p)
    requires q.seqNo == s'.core.seqNo == s.core.seqNo + 1 && s'.core.h == s.core.h + multiset{q}
    requires q.id == s.core.accepted && s'.core.accepted == s.core.accepted + 1
    ensures Follows(s', View(clock, v.held + [q]), p)
  {
    hide NextDue, HeldOk, IdsOk, Climbing, Loose, Ready;
    HeldGrowsBy(s.core, s'.core, v, clock, q, p);
    HeldMore(Loose(s), v.held, s.core.accepted, q);
  }

  lemma ImmediateFollows(s: State, s': State, v: View, clock: int, q: Packet, p: Profile)
    requires Follows(s, v, p) && Loose(s') == Loose(s) + multiset{q} && Ready(s'.loop) == Ready(s.loop)
    requires NextDue(s'.core, clock, p) >= NextDue(s.core, v.clock, p) && s'.core.seqNo >= s.core.seqNo
    requires s'.core.h == s.core.h == multiset{}
    requires q.id == s.core.accepted && s'.core.accepted == s.core.accepted + 1
    ensures Follows(s', View(clock, v.held), p)
  {
    hide NextDue, HeldOk, IdsOk, Climbing, Loose, Ready;
    HeldGrows(s.core, s'.core, v, clock, p);
    HeldIsHeap(s.core, v, p);
    EmptyHeap(v.held);
    LooseMore(Loose(s), s.core.accepted, q);
  }

  lemma RefusedFollows(s: State, s': State, v: View, clock: int, p: Profile)
    requires Follows(s, v, p) && Loose(s') == Loose(s) && Ready(s'.loop) == Ready(s.loop)
    requires NextDue(s'.core, clock, p) >= NextDue(s.core, v.clock, p) && s'.core.seqNo >= s.core.seqNo
    requires s'.core.h == s.core.h && s'.core.accepted == s.core.accepted
    ensures Follows(s', View(clock, v.held), p)
  {
    hide NextDue, HeldOk, IdsOk, Climbing, Loose, Ready;
    HeldGrows(s.core, s'.core, v, clock, p);
  }

  lemma SendFollows(s: State, v: View, c: Call, p: Profile) returns (w: View)
    requires Follows(s, v, p) && v.clock <= c.now && c.profile == p && p.jitterMs <= 0.0
    ensures Follows(Sent(s, c), w, p) && w.clock == c.now
  {
    FollowsHeld(s, v, p);
    hide Send, Sent, NextDue, HeldOk, Follows, Loose;
    SendIsOrdered(s.core, v, c, p);
    SendIsLoose(s, c);
    var s', x := Sent(s, c), Send(s.core, c).1;
    w := View(c.now, v.held);
    if x.Queued? {
      w := View(c.now, v.held + [x.p]);
      QueuedFollows(s, s', v, c.now, x.p, p);
    } else if x.Immediate? {
      ImmediateFollows(s, s', v, c.now, x.p, p);
    } else {
      RefusedFollows(s, s', v, c.now, p);
    }
  }

  lemma FollowsHeld(s: State, v: View, p: Profile)
    requires Follows(s, v, p)
    ensures HeldOk(s.core, v, p) && IdsOk(Loose(s), v.held, s.core.accepted)
  {
    hide HeldOk, IdsOk, Climbing;
  }

  lemma SendIsLoose(s: State, c: Call)
    ensures var s', x := Sent(s, c), Send(s.core, c).1;
            && s'.core == Send(s.core, c).0 && s'.loop == s.loop && s'.out == s.out
            && Loose(s') == Loose(s) + if x.Immediate? then multiset{x.p} else multiset{}
  {
    hide Send;
  }

  lemma HeldIsHeap(c: Core, v: View, p: Profile)
    requires HeldOk(c, v, p)
    ensures multiset(v.held) == c.h && Ordered(v.held)
  {
  }

  function Due(held: seq<Packet>, now: int): (k: nat)
    ensures k <= |held|
  {
    if held == [] || held[0].due > now then 0 else 1 + Due(held[1..], now)
  }

  /** A sorted list of the due packets of a list ordered by due time and sequence number is its beginning. */
  lemma {:induction false} PassTakesPrefix(held: seq<Packet>, now: int, ready: seq<Packet>, left: multiset<Packet>)
    requires Ordered(held) && IsPass(multiset(held), now, ready, left)
    ensures ready == held[..Due(held, now)] && left == multiset(held[Due(held, now)..])
    decreases |held|
  {
    hide IsPass, Ordered;
    if held == [] || held[0].due > now {
      NoneDue(held, now, ready, left);
    } else {
      FirstIsReady(held, now, ready, left);
      TailPass(held, now, ready, left);
      PassTakesPrefix(held[1..], now, ready[1..], left);
      var k := Due(held[1..], now);
      assert ready == [ready[0]] + ready[1..] && held[..k + 1] == [held[0]] + held[1..][..k];
      assert held[k + 1..] == held[1..][k..];
    }
  }

  lemma NoneDue(held: seq<Packet>, now: int, ready: seq<Packet>, left: multiset<Packet>)
    requires Ordered(held) && IsPass(multiset(held), now, ready, left) && (held == [] || held[0].due > now)
    ensures ready == [] && left == multiset(held) && Due(held, now) == 0 && held[..0] == [] && held[0..] == held
  {
    if ready != [] { ReadyIsDue(held, now, ready, left); }
  }

  lemma TailPass(held: seq<Packet>, now: int, ready: seq<Packet>, left: multiset<Packet>)
    requires Ordered(held) && held != [] && IsPass(multiset(held), now, ready, left)
    requires ready != [] && ready[0] == held[0]
    ensures Ordered(held[1..]) && IsPass(multiset(held[1..]), now, ready[1..], left)
  {
    assert held == [held[0]] + held[1..] && ready == [ready[0]] + ready[1..];
    assert multiset(ready) == multiset{ready[0]} + multiset(ready[1..]);
    assert multiset(held) == multiset{held[0]} + multiset(held[1..]);
    OrderedTail(held, 1);
    Cancel(multiset{held[0]}, multiset(ready[1..]) + left, multiset(held[1..]));
    forall i, j | 0 <= i < j < |ready| - 1
      ensures Leq(ready[1..][i], ready[1..][j])
    {
      assert Leq(ready[i + 1], ready[j + 1]);
    }
    assert forall p :: p in ready[1..] ==> p in ready;
  }

  lemma Cancel(a: multiset<Packet>, b: multiset<Packet>, c: multiset<Packet>)
    requires a + b == a + c
    ensures b == c
  {
    forall x: Packet
      ensures b[x] == c[x]
    {
      assert (a + b)[x] == (a + c)[x];
    }
  }

  lemma OrderedTail(held: seq<Packet>, k: nat)
    requires Ordered(held) && k <= |held|
    ensures Ordered(held[k..])
  {
    forall i, j | 0 <= i < j < |held| - k
      ensures held[k..][i].due <= held[k..][j].due && held[k..][i].seqNo < held[k..][j].seqNo
    {
      assert held[i + k].due <= held[j + k].due;
    }
  }

  lemma ReadyIsDue(held: seq<Packet>, now: int, ready: seq<Packet>, left: multiset<Packet>)
    requires Ordered(held) && IsPass(multiset(held), now, ready, left) && ready != []
    ensures held != [] && held[0].due <= now
  {
    assert ready[0] in multiset(ready) && ready[0] in multiset(held);
    var i :| 0 <= i < |held| && held[i] == ready[0];
  }

  lemma FirstIsReady(held: seq<Packet>, now: int, ready: seq<Packet>, left: multiset<Packet>)
    requires Ordered(held) && held != [] && held[0].due <= now && IsPass(multiset(held), now, ready, left)
    ensures ready != [] && ready[0] == held[0]
  {
    var first := held[0];
    assert first in multiset(held);
    assert first in multiset(ready);
    var k :| 0 <= k < |ready| && ready[k] == first;
    assert Leq(ready[0], first);
    assert ready[0] in multiset(ready) && ready[0] in multiset(held);
    var i :| 0 <= i < |held| && held[i] == ready[0];
    assert forall m :: 0 < m < |held| ==> Less(first, held[m]);
  }

  lemma DeliveredIds(loose: multiset<Packet>, held: seq<Packet>, accepted: nat, k: nat)
    requires IdsOk(loose, held, accepted) && k <= |held|
    ensures IdsOk(loose + multiset(held[..k]), held[k..], accepted) && Climbing(held[..k])
  {
    var ready := held[..k];
    var more := loose + multiset(ready);
    assert |multiset(ready)| == k;
    forall q | q in more ensures more[q] == 1 && q.id < |more| {
      OnceIn(loose, ready, q);
    }
    forall q, r | q in more && r in more && q.id == r.id ensures q == r {
      OneId(loose, ready, q, r);
    }
  }

  lemma OneId(loose: multiset<Packet>, ready: seq<Packet>, q: Packet, r: Packet)
    requires forall x :: x in loose ==> x.id < |loose|
    requires forall x, y :: x in loose && y in loose && x.id == y.id ==> x == y
    requires forall i :: 0 <= i < |ready| ==> ready[i].id == |loose| + i
    requires q in loose + multiset(ready) && r in loose + multiset(ready) && q.id == r.id
    ensures q == r
  {
    if q in multiset(ready) { var i :| 0 <= i < |ready| && ready[i] == q; }
    if r in multiset(ready) { var j :| 0 <= j < |ready| && ready[j] == r; }
  }

  /** A packet is either loose once or popped once. */
  lemma OnceIn(loose: multiset<Packet>, ready: seq<Packet>, q: Packet)
    requires forall x :: x in loose ==> loose[x] == 1 && x.id < |loose|
    requires forall i :: 0 <= i < |ready| ==> ready[i].id == |loose| + i
    requires q in loose + multiset(ready)
    ensures (loose + multiset(ready))[q] == 1 && q.id < |loose| + |ready|
  {
    if q in multiset(ready) {
      var i :| 0 <= i < |ready| && ready[i] == q;
      assert q !in loose;
      CountOne(ready, i);
    }
  }

  lemma CountOne(ready: seq<Packet>, i: nat)
    requires i < |ready| && forall j, k :: 0 <= j < k < |ready| ==> ready[j].id != ready[k].id
    ensures multiset(ready)[ready[i]] == 1
  {
    var a, b := ready[..i], ready[i + 1..];
    assert ready == a + [ready[i]] + b;
    assert ready[i] !in a && ready[i] !in b;
  }

  lemma PassFollows(s: State, v: View, a: Action, p: Profile) returns (w: View)
    requires Follows(s, v, p) && Enabled(s, a) && a.DoPass?
    ensures Follows(Next(s, a), w, p) && w.clock == v.clock
  {
    FollowsHeld(s, v, p);
    HeldIsHeap(s.core, v, p);
    PassIsLoose(s, a);
    hide Follows, HeldOk, IdsOk, Ordered, Climbing, Loose, IsTop;
    PassTakesPrefix(v.held, a.now, a.ready, a.left);
    var k := Due(v.held, a.now);
    w := View(v.clock, v.held[k..]);
    PoppedFollows(s, Next(s, a), v, k, p);
  }

  lemma PassIsLoose(s: State, a: Action)
    requires Enabled(s, a) && a.DoPass?
    ensures Loose(Next(s, a)) == Loose(s) + multiset(a.ready)
  {
    hide IsPass, IsTop;
  }

  lemma PoppedFollows(s: State, s': State, v: View, k: nat, p: Profile)
    requires Follows(s, v, p) && k <= |v.held|
    requires s'.core == s.core.(h := multiset(v.held[k..])) && Ready(s'.loop) == v.held[..k]
    requires Loose(s') == Loose(s) + multiset(v.held[..k])
    ensures Follows(s', View(v.clock, v.held[k..]), p)
  {
    FollowsHeld(s, v, p);
    HeldIsHeap(s.core, v, p);
    hide Loose, Ready, HeldOk, IdsOk, Ordered, Climbing;
    DeliveredIds(Loose(s), v.held, s.core.accepted, k);
    OrderedTail(v.held, k);
    TailHeld(s.core, v, k, s'.core.h, p);
  }

  lemma TailHeld(c: Core, v: View, k: nat, left: multiset<Packet>, p: Profile)
    requires HeldOk(c, v, p) && k <= |v.held| && left == multiset(v.held[k..]) && Ordered(v.held[k..])
    ensures HeldOk(c.(h := left), View(v.clock, v.held[k..]), p)
  {
    hide Ordered, Delay;
    assert forall i :: 0 <= i < |v.held[k..]| ==> v.held[k..][i] == v.held[k + i];
  }

  lemma DeliverFollows(s: State, v: View, a: Action, p: Profile)
    requires Follows(s, v, p) && Enabled(s, a) && (a.Deliver? || a.DeliverNow?)
    ensures Follows(Next(s, a), v, p)
  {
    hide HeldOk, IdsOk, Loose;
    if a.Deliver? {
      PopLoose(s);
    } else {
      LetGoLoose(s, a.p);
    }
  }

  lemma PopLoose(s: State)
    requires Enabled(s, Deliver)
    ensures var s' := Next(s, Deliver);
            Loose(s') == Loose(s) && (Climbing(Ready(s.loop)) ==> Climbing(Ready(s'.loop)))
  {
    ClimbingTail(s.loop.ready);
    HeadApart(s.loop.ready);
    hide Climbing;
  }

  lemma HeadApart(ready: seq<Packet>)
    requires ready != []
    ensures multiset(ready) == multiset{ready[0]} + multiset(ready[1..])
  {
    assert ready == [ready[0]] + ready[1..];
  }

  lemma ClimbingTail(ready: seq<Packet>)
    requires ready != []
    ensures Climbing(ready) ==> Climbing(ready[1..])
  {
    assert forall i :: 0 < i < |ready[1..]| ==> ready[1..][i - 1] == ready[i] && ready[1..][i] == ready[i + 1];
  }

  lemma LetGoLoose(s: State, p: Packet)
    requires p in s.flight
    ensures Loose(Next(s, DeliverNow(p))) == Loose(s)
  {
    assert s.flight == (s.flight - multiset{p}) + multiset{p};
  }

  lemma StepFollows(s: State, v: View, a: Action, p: Profile) returns (w: View)
    requires Follows(s, v, p) && Enabled(s, a) && p.jitterMs <= 0.0
    requires a.DoSend? ==> a.c.profile == p && v.clock <= a.c.now
    ensures Follows(Next(s, a), w, p) && w.clock == if a.DoSend? then a.c.now else v.clock
  {
    hide HeldOk, IdsOk;
    w := v;
    if a.DoSend? {
      w := SendFollows(s, v, a.c, p);
    } else if a.DoPass? {
      w := PassFollows(s, v, a, p);
    } else if a.Deliver? || a.DeliverNow? {
      DeliverFollows(s, v, a, p);
    } else {
      assert Loose(Next(s, a)) == Loose(s);
    }
  }

  lemma {:induction false} RunFollows(s: State, v: View, acts: seq<Action>, s': State, p: Profile) returns (w: View)
    requires Follows(s, v, p) && Run(s, acts, s') && Steady(acts, p, v.clock) && p.jitterMs <= 0.0
    ensures Follows(s', w, p)
    decreases |acts|
  {
    hide Follows, Next;
    w := v;
    if acts != [] {
      w := StepFollows(s, v, acts[0], p);
      w := RunFollows(Next(s, acts[0]), w, acts[1..], s', p);
    }
  }

  lemma InitFollows(p: Profile, t: int)
    ensures Follows(Init(), View(t, []), p)
  {
  }

  // ---------- When the order is safe ----------

  lemma {:induction false} ClimbingSpread(ready: seq<Packet>, i: nat)
    requires Climbing(ready) && i < |ready|
    ensures ready[i].id >= ready[0].id + i
  {
    if i > 0 {
      ClimbingSpread(ready, i - 1);
    }
  }

  /** A packet not yet delivered has an id that has not been delivered. */
  lemma Undelivered(s: State, v: View, p: Profile, q: Packet)
    requires Follows(s, v, p) && InOrder(s.out) && (q in s.flight || q in Ready(s.loop))
    ensures q.id >= |s.out|
  {
    assert q in Loose(s);
    assert Loose(s)[q] == multiset(s.out)[q] + multiset(Ready(s.loop))[q] + s.flight[q];
    assert q !in multiset(s.out);
    forall i | 0 <= i < |s.out| ensures s.out[i].id != q.id {
      assert s.out[i] in multiset(s.out) && s.out[i] in Loose(s);
    }
    AboveAll(s.out, q, |s.out|);
  }

  lemma {:induction false} AboveAll(out: seq<Packet>, q: Packet, n: nat)
    requires InOrder(out) && n <= |out| && forall i :: 0 <= i < |out| ==> out[i].id != q.id
    ensures q.id >= n
  {
    if n > 0 {
      AboveAll(out, q, n - 1);
      assert out[n - 1].id == n - 1;
    }
  }

  lemma LooseCount(s: State)
    ensures |Loose(s)| == |s.out| + |Ready(s.loop)| + |s.flight|
    ensures forall q :: q in Ready(s.loop) || q in s.flight ==> q in Loose(s)
  {
  }

  /** The first packet popped is the one accepted next, when nothing is let through. */
  lemma FirstIsNext(s: State, v: View, p: Profile)
    requires Follows(s, v, p) && InOrder(s.out) && s.flight == multiset{} && Ready(s.loop) != []
    ensures Ready(s.loop)[0].id == |s.out|
  {
    var ready := Ready(s.loop);
    LooseCount(s);
    Undelivered(s, v, p, ready[0]);
    ClimbingSpread(ready, |ready| - 1);
    hide Loose, HeldOk, InOrder;
    assert ready[|ready| - 1] in ready;
  }

  /** So is a packet let through, when it is the only one and nothing is popped. */
  lemma OnlyIsNext(s: State, v: View, p: Profile, q: Packet)
    requires Follows(s, v, p) && InOrder(s.out) && |s.flight| == 1 && Ready(s.loop) == [] && q in s.flight
    ensures q.id == |s.out|
  {
    LooseCount(s);
    Undelivered(s, v, p, q);
    hide Loose, HeldOk, InOrder;
  }

  lemma OneMore(out: seq<Packet>, q: Packet)
    requires InOrder(out) && q.id == |out|
    ensures InOrder(out + [q])
  {
  }

  lemma SmallFlight(flight: multiset<Packet>, q: Packet)
    requires |flight| == 1 && q in flight
    ensures flight - multiset{q} == multiset{}
  {
    assert flight == (flight - multiset{q}) + multiset{q};
    assert |flight - multiset{q}| == 0;
  }

  /** In a calm state the delivery that can come next is of the packet accepted next. */
  lemma CalmDelivers(s: State, v: View, p: Profile, a: Action)
    requires Follows(s, v, p) && InOrder(s.out) && Calm(s) && Enabled(s, a) && (a.Deliver? || a.DeliverNow?)
    ensures InOrder(Next(s, a).out) && Calm(Next(s, a))
  {
    hide Follows, InOrder;
    if a.Deliver? {
      FirstIsNext(s, v, p);
      OneMore(s.out, Ready(s.loop)[0]);
    } else {
      OnlyIsNext(s, v, p, a.p);
      OneMore(s.out, a.p);
      SmallFlight(s.flight, a.p);
    }
  }

  lemma {:induction false} CalmDeliveries(s: State, v: View, p: Profile, acts: seq<Action>, s': State)
    requires Follows(s, v, p) && InOrder(s.out) && Calm(s) && Deliveries(acts) && Run(s, acts, s')
    ensures InOrder(s'.out)
    decreases |acts|
  {
    hide Follows, Next, Calm, InOrder;
    if acts != [] {
      CalmDelivers(s, v, p, acts[0]);
      DeliverFollows(s, v, acts[0], p);
      CalmDeliveries(Next(s, acts[0]), v, p, acts[1..], s');
    }
  }

  /** Of two packets that could be delivered next, one is not the packet accepted next. */
  lemma WrongDelivery(s: State, a: Action, q: Packet)
    requires Enabled(s, a) && (a == DeliverNow(q) || (a == Deliver && Ready(s.loop)[0] == q)) && q.id != |s.out|
    ensures exists acts, s' :: Deliveries(acts) && Run(s, acts, s') && !InOrder(s'.out)
  {
    var s' := Next(s, a);
    assert s'.out[|s.out|].id != |s.out|;
    assert Run(s', [a][1..], s');
    assert Run(s, [a], s') && Deliveries([a]) && !InOrder(s'.out);
  }

  lemma TwoPending(s: State, v: View, p: Profile, q: Packet, r: Packet)
    requires Follows(s, v, p) && q in s.flight
    requires r in s.flight - multiset{q} || r in Ready(s.loop)
    ensures q.id != r.id
  {
    FollowsHeld(s, v, p);
    assert Loose(s)[q] == multiset(s.out)[q] + multiset(Ready(s.loop))[q] + s.flight[q];
    LooseCount(s);
  }

  lemma OneOfMany(flight: multiset<Packet>) returns (q: Packet)
    requires |flight| > 0
    ensures q in flight
  {
    q :| q in flight;
  }

  lemma RestlessBreaks(s: State, v: View, p: Profile)
    requires Follows(s, v, p) && InOrder(s.out) && !Calm(s)
    ensures exists acts, s' :: Deliveries(acts) && Run(s, acts, s') && !InOrder(s'.out)
  {
    hide Follows, InOrder, Run;
    var q := OneOfMany(s.flight);
    if Ready(s.loop) != [] {
      var r := Ready(s.loop)[0];
      TwoPending(s, v, p, q, r);
      if q.id != |s.out| { WrongDelivery(s, DeliverNow(q), q); } else { WrongDelivery(s, Deliver, r); }
    } else {
      var r := OneOfMany(s.flight - multiset{q});
      TwoPending(s, v, p, q, r);
      if q.id != |s.out| { WrongDelivery(s, DeliverNow(q), q); } else { WrongDelivery(s, DeliverNow(r), r); }
    }
  }

  /** In any state of a steady run that has delivered in order so far: whichever pending packet comes to be delivered
      first, the order is kept, if and only if the state is calm. */
  lemma OrderIsSafeIff(acts: seq<Action>, p: Profile, t: int, s: State)
    requires p.jitterMs <= 0.0 && Run(Init(), acts, s) && Steady(acts, p, t) && InOrder(s.out)
    ensures (forall next, s' :: Deliveries(next) && Run(s, next, s') ==> InOrder(s'.out)) <==> Calm(s)
  {
    hide Follows, InOrder, Run, Steady, Calm, Deliveries;
    InitFollows(p, t);
    var v := RunFollows(Init(), View(t, []), acts, s, p);
    if Calm(s) {
      forall next, s' | Deliveries(next) && Run(s, next, s') ensures InOrder(s'.out) {
        CalmDeliveries(s, v, p, next, s');
      }
    } else {
      RestlessBreaks(s, v, p);
    }
  }

  // ---------- Whole runs ----------

  lemma CalmStep(s: State, v: View, p: Profile, a: Action)
    requires Follows(s, v, p) && InOrder(s.out) && Calm(s) && Enabled(s, a)
    ensures InOrder(Next(s, a).out)
  {
    hide Follows, InOrder, Calm, Enabled, Next;
    if a.Deliver? || a.DeliverNow? {
      CalmDelivers(s, v, p, a);
    } else {
      OutSame(s, a);
    }
  }

  lemma OutSame(s: State, a: Action)
    requires Enabled(s, a) && !a.Deliver? && !a.DeliverNow?
    ensures Next(s, a).out == s.out
  {
    hide Send, IsPass, IsTop;
  }

  lemma {:induction false} CalmRun(s: State, v: View, acts: seq<Action>, s': State, p: Profile)
    requires Follows(s, v, p) && InOrder(s.out) && p.jitterMs <= 0.0
    requires Run(s, acts, s') && Steady(acts, p, v.clock) && AlwaysCalm(s, acts)
    ensures InOrder(s'.out)
    decreases |acts|
  {
    hide Follows, Next, Calm, InOrder;
    if acts != [] {
      CalmStep(s, v, p, acts[0]);
      var w := StepFollows(s, v, acts[0], p);
      CalmRun(Next(s, acts[0]), w, acts[1..], s', p);
    }
  }

  /** A calm state stays calm in a step if and only if the step lets nothing through while a delivery is pending. */
  lemma StaysCalmIff(s: State, a: Action)
    requires Calm(s) && Enabled(s, a)
    ensures Calm(Next(s, a)) <==> (LetsThrough(s, a) ==> Idle(s))
  {
    hide Send, IsPass, IsTop;
    if a.DeliverNow? {
      SmallFlight(s.flight, a.p);
    } else if a.DoSend? {
      hide LetsThrough;
      SendStaysCalmIff(s, a.c);
    }
  }

  lemma SendStaysCalmIff(s: State, c: Call)
    requires Calm(s)
    ensures Calm(Sent(s, c)) <==> (LetsThrough(s, DoSend(c)) ==> Idle(s))
  {
    hide Send, Ready;
    var v := Send(s.core, c).1;
    if v.Immediate? {
      assert |s.flight + multiset{v.p}| == |s.flight| + 1;
    }
  }

  /** Exactly the undisturbed steps are safe: when a packet is let through or popped, from a state in order, every
      order of the deliveries that can follow keeps the order if and only if nothing was pending. */
  lemma LettingThroughIsSafeIff(acts: seq<Action>, p: Profile, t: int, s: State, a: Action)
    requires p.jitterMs <= 0.0 && InOrder(s.out) && Calm(s) && Enabled(s, a) && LetsThrough(s, a)
    requires Run(Init(), acts + [a], Next(s, a)) && Steady(acts + [a], p, t)
    ensures (forall next, s' :: Deliveries(next) && Run(Next(s, a), next, s') ==> InOrder(s'.out)) <==> Idle(s)
  {
    StaysCalmIff(s, a);
    hide Send, Run, Steady, Calm, Idle, Deliveries, InOrder;
    OrderIsSafeIff(acts + [a], p, t, Next(s, a));
  }

  lemma {:induction false} UndisturbedIsCalm(s: State, acts: seq<Action>)
    requires Calm(s)
    ensures Undisturbed(s, acts) ==> AlwaysCalm(s, acts)
    decreases |acts|
  {
    hide Calm, Next, LetsThrough, Idle;
    if acts != [] && Enabled(s, acts[0]) {
      StaysCalmIff(s, acts[0]);
      if Calm(Next(s, acts[0])) { UndisturbedIsCalm(Next(s, acts[0]), acts[1..]); }
    }
  }

  /** First in, first out, for a run of the senders and the scheduler under a fixed profile without jitter, with
      sends at times that do not go back: if no pass takes packets and no send goes past the heap while a delivery
      is pending, packets are delivered in exactly the order they were accepted, ties in due time included, and
      everything else accepted is popped, let through or in the heap. */
  lemma FirstInFirstOut(acts: seq<Action>, p: Profile, t: int, s: State)
    requires p.jitterMs <= 0.0 && Run(Init(), acts, s) && Steady(acts, p, t) && Undisturbed(Init(), acts)
    ensures InOrder(s.out)
    ensures s.core.accepted == |s.out| + Held(s)
  {
    hide Follows, Run, Steady, Undisturbed, AlwaysCalm;
    InitFollows(p, t);
    UndisturbedIsCalm(Init(), acts);
    CalmRun(Init(), View(t, []), acts, s, p);
    var v := RunFollows(Init(), View(t, []), acts, s, p);
    HeldInAll(s, v, p);
  }

  lemma HeldInAll(s: State, v: View, p: Profile)
    requires Follows(s, v, p)
    ensures s.core.accepted == |s.out| + Held(s)
  {
    FollowsHeld(s, v, p);
    HeldIsHeap(s.core, v, p);
    LooseCount(s);
    hide Follows, HeldOk, IdsOk, Loose;
    assert |multiset(v.held)| == |v.held|;
  }

  // ---------- Two runs that lose the order ----------

  const CLEAN: Profile := Profile(0.0, 0.0, 0.0, 0.0)
  const SENT_AT_ONCE: Call := Call(0, CLEAN, 0.0, 0.0, [0])

  /** Two senders on a clean link, at the same time and without any pass: each has been let past the heap, and the
      second delivers before the first. */
  lemma SendersOvertakeEachOther()
    ensures exists acts, s ::
              Run(Init(), acts, s) && Steady(acts, CLEAN, 0) && s.loop == Passing && Ids(s.out) == [1, 0]
  {
    hide Run, Steady, Next, Enabled;
    var acts, s := OvertakingRun(Init(), Packet(0, 0, 0, [0]), Packet(0, 0, 1, [0]), DoSend(SENT_AT_ONCE));
    assert Run(Init(), acts, s) && Steady(acts, CLEAN, 0) && Ids(s.out) == [1, 0];
  }

  lemma OvertakingRun(s0: State, q0: Packet, q1: Packet, send: Action) returns (acts: seq<Action>, s: State)
    requires s0.core.h == multiset{} && s0.core.accepted == 0 && s0.flight == multiset{} && s0.out == []
    requires q0 == Packet(0, 0, 0, [0]) && q1 == Packet(0, 0, 1, [0]) && send == DoSend(SENT_AT_ONCE)
    ensures Run(s0, acts, s) && Steady(acts, CLEAN, 0) && s.loop == s0.loop && s.out == [q1, q0]
  {
    hide Next, Enabled, Run, Steady;
    var s1, s2 := Next(s0, send), Next(Next(s0, send), send);
    LetPast(s0, q0);
    LetPast(s1, q1);
    var s3 := Next(s2, DeliverNow(q1));
    s := Next(s3, DeliverNow(q0));
    DeliversNow(s2, q1);
    DeliversNow(s3, q0);
    acts := [send, send, DeliverNow(q1), DeliverNow(q0)];
    FourSteps(s0, s1, s2, s3, s, acts);
    FourSteady(send, DeliverNow(q1), DeliverNow(q0));
  }

  lemma DeliversNow(s: State, q: Packet)
    requires q in s.flight
    ensures Enabled(s, DeliverNow(q))
    ensures Next(s, DeliverNow(q)) == s.(flight := s.flight - multiset{q}, out := s.out + [q])
  {
  }

  /** A send on a clean link with an empty heap. */
  lemma LetPast(s: State, q: Packet)
    requires s.core.h == multiset{} && q == Packet(0, 0, s.core.accepted, [0])
    ensures Next(s, DoSend(SENT_AT_ONCE))
            == s.(core := s.core.(accepted := s.core.accepted + 1), flight := s.flight + multiset{q},
                  sent := s.sent + 1)
    ensures Enabled(s, DoSend(SENT_AT_ONCE))
  {
    assert Delay(SENT_AT_ONCE) == 0;
    hide Tx, Delay;
  }

  lemma FourSteps(s0: State, s1: State, s2: State, s3: State, s4: State, acts: seq<Action>)
    requires |acts| == 4
    requires Enabled(s0, acts[0]) && Next(s0, acts[0]) == s1 && Enabled(s1, acts[1]) && Next(s1, acts[1]) == s2
    requires Enabled(s2, acts[2]) && Next(s2, acts[2]) == s3 && Enabled(s3, acts[3]) && Next(s3, acts[3]) == s4
    ensures Run(s0, acts, s4)
  {
    assert Run(s4, acts[4..], s4);
    hide Next, Enabled, Run;
    RunBefore(s3, acts, 3, s4);
    RunBefore(s2, acts, 2, s4);
    RunBefore(s1, acts, 1, s4);
    RunBefore(s0, acts, 0, s4);
    assert acts[0..] == acts;
  }

  lemma FourSteady(send: Action, a: Action, b: Action)
    requires send == DoSend(SENT_AT_ONCE) && !a.DoSend? && !b.DoSend?
    ensures Steady([send, send, a, b], CLEAN, 0)
  {
    assert [send, send, a, b][1..] == [send, a, b] && [send, a, b][1..] == [a, b] && [a, b][1..] == [b];
    assert Steady([b], CLEAN, 0);
    assert Steady([a, b], CLEAN, 0);
  }

  lemma RunBefore(s: State, acts: seq<Action>, k: nat, s': State)
    requires k < |acts| && Enabled(s, acts[k]) && Run(Next(s, acts[k]), acts[k + 1..], s')
    ensures Run(s, acts[k..], s')
  {
    assert acts[k..][0] == acts[k] && acts[k..][1..] == acts[k + 1..];
  }

  const P: Profile := Profile(0.0, 0.0, 0.0, 8.0)

  /** A one-byte packet, one millisecond of serialization at 8 kbit/s. */
  function ByteAt(now: int): Call { Call(now, P, 0.0, 0.0, [0]) }

  lemma ByteTakesOneMs()
    ensures Tx(1, 8.0) == 1_000_000 && forall now :: Delay(ByteAt(now)) == 0
  {
    assert (1 as real) * 8.0 / 8.0 * 1_000_000.0 == 1_000_000.0;
  }

  /** A sender overtakes the scheduler. Three packets are accepted, 0 and 1 at time 0 and
      2 at time 2 ms. The scheduler has popped packet 1 and not yet delivered it when packet 2 finds the heap
      empty and its slot already there, and is delivered by its sender. */
  lemma SynchronousPathOvertakes()
    ensures exists s :: Reachable(s) && Ids(s.out) == [0, 2, 1]
  {
    PacketOnePopped();
    ByteTakesOneMs();
    hide Tx, Delay;
    var s4 := Popped([P0], multiset{}, 2, [L0, L1]);
    var s5 := Popped([P0], multiset{P2}, 3, [L0, L1, L2]);
    assert [L0, L1] + [L2] == [L0, L1, L2];
    Step(s4, DoSend(ByteAt(2 * MS)), s5);
    var s6 := Popped([P0, P2], multiset{}, 3, [L0, L1, L2]);
    assert multiset{P2} - multiset{P2} == multiset{} && [P0] + [P2] == [P0, P2];
    Step(s5, DeliverNow(P2), s6);
    var s7 := s6.(out := [P0, P2, P1], loop := Passed([], MS, 1, None));
    assert [P0, P2] + [P1] == [P0, P2, P1] && [P1][1..] == [];
    Step(s6, Deliver, s7);
    assert Ids(s7.out) == [0, 2, 1];
  }

  const MS: int := 1_000_000
  const P0: Packet := Packet(0, 0, 0, [0])
  const P1: Packet := Packet(MS, 1, 1, [0])
  const P2: Packet := Packet(2 * MS, 0, 2, [0])
  const L0: Slot := Slot(0, 1_000_000, 0, 1, 8.0)
  const L1: Slot := Slot(MS, 1_000_000, 0, 1, 8.0)
  const L2: Slot := Slot(2 * MS, 1_000_000, 2 * MS, 1, 8.0)

  /** The scheduler holds packet 1 in its ready list; n packets have been sent. */
  function Popped(out: seq<Packet>, flight: multiset<Packet>, n: nat, slots: seq<Slot>): State {
    State(Core(multiset{}, n * MS, 1, n, slots), false, 1, flight, Passed([P1], MS, 1, None), n, 0, 0, out)
  }

  lemma PacketZeroDelivered()
    ensures Reachable(State(Core(multiset{}, MS, 0, 1, [L0]), false, 0, multiset{}, Passing, 1, 0, 0, [P0]))
  {
    FirstByte();
    var s0 := Init();
    assert Run(s0, [], s0);
    hide Send, Sent;
    var s1 := s0.(core := Core(multiset{}, MS, 0, 1, [L0]), flight := multiset{P0}, sent := 1);
    Step(s0, DoSend(ByteAt(0)), s1);
    assert multiset{P0} - multiset{P0} == multiset{} && [] + [P0] == [P0];
    Step(s1, DeliverNow(P0), s1.(flight := multiset{}, out := [P0]));
  }

  lemma FirstByte()
    ensures var s := Init();
            Sent(s, ByteAt(0)) == s.(core := Core(multiset{}, MS, 0, 1, [L0]), flight := multiset{P0}, sent := 1)
  {
    ByteTakesOneMs();
    hide Tx, Delay;
    assert multiset{} + multiset{P0} == multiset{P0} && [] + [L0] == [L0];
  }

  lemma PacketOnePopped()
    ensures Reachable(Popped([P0], multiset{}, 2, [L0, L1]))
  {
    PacketZeroDelivered();
    ByteTakesOneMs();
    hide Tx, Delay;
    var s2 := State(Core(multiset{}, MS, 0, 1, [L0]), false, 0, multiset{}, Passing, 1, 0, 0, [P0]);
    var s3 := s2.(core := Core(multiset{P1}, 2 * MS, 1, 2, [L0, L1]), owing := 1, sent := 2);
    assert multiset{} + multiset{P1} == multiset{P1} && [L0] + [L1] == [L0, L1];
    Step(s2, DoSend(ByteAt(0)), s3);
    assert multiset([P1]) + multiset{} == multiset{P1};
    Step(s3, DoPass(MS, [P1], multiset{}, None), Popped([P0], multiset{}, 2, [L0, L1]));
  }

  lemma Step(s: State, a: Action, s': State)
    requires Reachable(s) && Enabled(s, a) && s' == Next(s, a)
    ensures Reachable(s')
  {
    var acts :| Run(Init(), acts, s);
    RunOneMore(Init(), acts, s, a);
  }

  lemma {:induction false} RunOneMore(s: State, acts: seq<Action>, mid: State, a: Action)
    requires Run(s, acts, mid) && Enabled(mid, a)
    ensures Run(s, acts + [a], Next(mid, a))
    decreases |acts|
  {
    if acts == [] {
      assert ([] + [a])[1..] == [];
    } else {
      RunOneMore(Next(s, acts[0]), acts[1..], mid, a);
      assert (acts + [a])[1..] == acts[1..] + [a];
    }
  }
}
