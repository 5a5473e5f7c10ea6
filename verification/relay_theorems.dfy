/** What the relay guarantees one subscriber, in every reachable state of every interleaving. */
module RelayTheorems {
  import opened Basics
  import opened Relay
  import opened RelayInvariants

  // ---------- The track ----------

  lemma {:induction false} PublishOrderGrows(st: State, acts: seq<Action>, st': State)
    requires Run(st, acts, st')
    ensures st.pub <= st'.pub
    decreases |acts|
  {
    if acts != [] { PublishOrderGrows(Next(st, acts[0]), acts[1..], st'); }
  }

  /** The pair (generation, newest sequence number) of a track never decreases, whatever publishers do. */
  lemma TrackNeverGoesBack(st: State, acts: seq<Action>, st': State)
    requires Reachable(st) && Run(st, acts, st') && st.pub != []
    ensures st.pub <= st'.pub && st'.pub != []
    ensures LexLeq(st.pub[|st.pub| - 1], st'.pub[|st'.pub| - 1])
  {
    ReachableInv(st);
    RunKeepsInv(st, acts, st');
    PublishOrderGrows(st, acts, st');
    assert st'.pub[|st.pub| - 1] == st.pub[|st.pub| - 1];
  }

  // ---------- No group twice, none out of order, within a generation ----------

  ghost predicate SentOk(pub: seq<Group>, c: Cursor, sent: seq<nat>) {
    && (c.started <==> sent != [])
    && (sent != [] ==> var g := GroupAt(pub, sent[|sent| - 1]); c == Cursor(true, g.gen, g.seqNo))
    && forall i :: 0 < i < |sent| ==>
         var a, b := GroupAt(pub, sent[i - 1]), GroupAt(pub, sent[i]);
         a.gen == b.gen ==> a.seqNo < b.seqNo
  }

  lemma {:induction false} FoldSentOk(pub: seq<Group>, popped: seq<Pop>)
    ensures var r := Fold(pub, popped);
            SentOk(pub, if r.1 == [] then Cursor(false, 0, 0) else r.0, r.1) && (r.0.started <==> r.1 != [])
    decreases |popped|
  {
    if popped != [] { FoldSentOk(pub, popped[..|popped| - 1]); }
  }

  lemma {:induction false} FoldFromPopped(pub: seq<Group>, popped: seq<Pop>, gid: nat)
    requires gid in Fold(pub, popped).1
    ensures exists k :: 0 <= k < |popped| && popped[k].entry.gid == gid && !popped[k].dropped
    decreases |popped|
  {
    var n := |popped| - 1;
    if gid in Fold(pub, popped[..n]).1 {
      FoldFromPopped(pub, popped[..n], gid);
      var k :| 0 <= k < n && popped[..n][k].entry.gid == gid && !popped[..n][k].dropped;
      assert popped[k] == popped[..n][k];
    } else {
      assert popped[n].entry.gid == gid && !popped[n].dropped;
    }
  }

  /** A group is sent only if the queue took it, so it lies in the publish order from the subscriber's join
      (or the group before, the newest one when it joined). */
  lemma SentWasOffered(st: State, id: SubId, gid: nat)
    requires Inv(st) && id in st.subs && gid in st.subs[id].sent
    ensures gid < |st.pub| && st.subs[id].from <= gid + 1
  {
    hide Fold;
    var s := st.subs[id];
    assert SubOk(st.pub, st.fan, id, s);
    FoldFromPopped(st.pub, s.popped, gid);
    var k :| 0 <= k < |s.popped| && s.popped[k].entry.gid == gid;
    var e := s.popped[k].entry;
    assert s.accepted[k] == e;
    AcceptedBelow(|st.pub|, st.fan, id, s, e);
    assert Entry(gid, false) in s.accepted || Entry(gid, true) in s.accepted by {
      assert e == Entry(gid, e.late);
    }
  }

  function SeqNos(pub: seq<Group>, gids: seq<nat>): (r: seq<nat>)
    ensures |r| == |gids|
  {
    seq(|gids|, i requires 0 <= i < |gids| => GroupAt(pub, gids[i]).seqNo)
  }

  predicate StrictlyIncreasing(xs: seq<nat>) { forall i, j :: 0 <= i < j < |xs| ==> xs[i] < xs[j] }

  lemma {:induction false} AdjacentIncreasing(xs: seq<nat>)
    requires forall i :: 0 < i < |xs| ==> xs[i - 1] < xs[i]
    ensures StrictlyIncreasing(xs)
    decreases |xs|
  {
    if xs != [] {
      var init := xs[..|xs| - 1];
      AdjacentIncreasing(init);
      forall i, j | 0 <= i < j < |xs|
        ensures xs[i] < xs[j]
      {
        if j == |xs| - 1 && i < j - 1 { assert init[i] < init[j - 1]; }
        if j < |xs| - 1 { assert init[i] < init[j]; }
      }
    }
  }

  /** While the generation is the one that was current when the subscriber joined, it is sent strictly
      increasing sequence numbers: no group twice and none older after newer, for every interleaving of
      parallel ingests, fan-outs, the join and the run loop. */
  lemma OneGenerationInOrder(st: State, id: SubId)
    requires Reachable(st) && id in st.subs
    requires GroupAt(st.pub, if st.subs[id].from == 0 then 0 else st.subs[id].from - 1).gen == st.gen
    ensures StrictlyIncreasing(SeqNos(st.pub, st.subs[id].sent))
  {
    hide Fold;
    ReachableInv(st);
    var s := st.subs[id];
    assert SubOk(st.pub, st.fan, id, s);
    FoldSentOk(st.pub, s.popped);
    var first := if s.from == 0 then 0 else s.from - 1;
    forall i | 0 <= i < |s.sent|
      ensures GroupAt(st.pub, s.sent[i]).gen == st.gen
    {
      SentWasOffered(st, id, s.sent[i]);
      assert LexLeq(st.pub[first], st.pub[s.sent[i]]);
      assert LexLeq(st.pub[s.sent[i]], st.pub[|st.pub| - 1]);
    }
    AdjacentIncreasing(SeqNos(st.pub, s.sent));
  }

  // Across generations the order can break. A run in which it does: subscriber 0 joins; group 5 is published and
  // reaches it by the fan-out, and is also read by the join as the cached group; the publisher restarts at 0; the
  // join's enqueue comes last.

  function Raced(s: Sub, fan0: Fan, fan1: Fan): State {
    State([Group(5, 0), Group(0, 1)], 1, map[0 := s], [fan0, fan1])
  }

  function Racer(phase: Phase, entries: seq<Entry>): Sub {
    Sub(phase, true, 0, 0, Some(0), entries, entries, [], Cursor(false, 0, 0), [])
  }

  const IDLE := Fan({}, None, false)
  const TODO := Fan({0}, None, false)
  const BY_FAN0 := Entry(0, false)
  const BY_FAN1 := Entry(1, false)
  const BY_JOIN := Entry(0, true)

  lemma JoinBeforeFirstGroup()
    ensures Reachable(State([Group(5, 0)], 0, map[0 := NewSub(0)], [TODO]))
  {
    var t1 := State([], 0, map[0 := NewSub(0)], []);
    ReachableStep(Init(), Subscribe(0), t1) by { assert Run(Init(), [], Init()); }
    assert Members(t1) == {0};
    ReachableStep(t1, Publish(5), State([Group(5, 0)], 0, map[0 := NewSub(0)], [TODO]));
  }

  lemma JoinHoldsFirstGroup()
    ensures Reachable(State([Group(5, 0)], 0, map[0 := Racer(Joining(false), [])], [TODO]))
  {
    JoinBeforeFirstGroup();
    var t2 := State([Group(5, 0)], 0, map[0 := NewSub(0)], [TODO]);
    var s3 := NewSub(0).(phase := Greeting, live := Some(0));
    var t3 := t2.(subs := map[0 := s3]);
    SubStep(t2, ReadLive(0), s3, t3);
    var t4 := t2.(subs := map[0 := Racer(Joining(false), [])]);
    SubStep(t3, Greet(0, true), Racer(Joining(false), []), t4);
  }

  lemma JoinRacesRestart()
    ensures Reachable(Raced(Racer(Joining(false), []), TODO, TODO))
  {
    JoinHoldsFirstGroup();
    var t4 := State([Group(5, 0)], 0, map[0 := Racer(Joining(false), [])], [TODO]);
    assert Members(t4) == {0};
    ReachableStep(t4, Publish(0), Raced(Racer(Joining(false), []), TODO, TODO));
  }

  lemma FanOutsFirst()
    ensures Reachable(Raced(Racer(Joining(false), [BY_FAN0, BY_FAN1]), IDLE, IDLE))
  {
    JoinRacesRestart();
    var t5 := Raced(Racer(Joining(false), []), TODO, TODO);
    var s6, s7 := Racer(Joining(false), [BY_FAN0]), Racer(Joining(false), [BY_FAN0, BY_FAN1]);
    assert {0} - {0} == {} && [TODO, TODO][0 := IDLE] == [IDLE, TODO] && [IDLE, TODO][1 := IDLE] == [IDLE, IDLE];
    assert [] + [BY_FAN0] == [BY_FAN0];
    SubStep(t5, FanSend(0, 0), s6, Raced(s6, IDLE, TODO));
    assert [BY_FAN0] + [BY_FAN1] == [BY_FAN0, BY_FAN1];
    SubStep(Raced(s6, IDLE, TODO), FanSend(1, 0), s7, Raced(s7, IDLE, IDLE));
  }

  lemma JoinEnqueuesLast()
    ensures Reachable(Raced(Racer(Running, [BY_FAN0, BY_FAN1, BY_JOIN]), IDLE, IDLE))
  {
    FanOutsFirst();
    var s7 := Racer(Joining(false), [BY_FAN0, BY_FAN1]);
    assert [BY_FAN0, BY_FAN1] + [BY_JOIN] == [BY_FAN0, BY_FAN1, BY_JOIN];
    var s8 := Racer(Running, [BY_FAN0, BY_FAN1, BY_JOIN]);
    SubStep(Raced(s7, IDLE, IDLE), JoinSend(0), s8, Raced(s8, IDLE, IDLE));
  }

  /** The subscriber is sent the old group a second time, after the new one. */
  lemma OldGroupSentTwice()
    ensures exists st :: Reachable(st) && 0 in st.subs && st.subs[0].sent == [0, 1, 0]
                         && st.pub == [Group(5, 0), Group(0, 1)]
  {
    JoinEnqueuesLast();
    var s8 := Racer(Running, [BY_FAN0, BY_FAN1, BY_JOIN]);
    var s9 := s8.(queue := [BY_FAN1, BY_JOIN], popped := [Pop(BY_FAN0, false)],
      cursor := Cursor(true, 0, 5), sent := [0]);
    var s10 := s9.(queue := [BY_JOIN], popped := [Pop(BY_FAN0, false), Pop(BY_FAN1, false)],
      cursor := Cursor(true, 1, 0), sent := [0, 1]);
    var s11 := s10.(queue := [], popped := [Pop(BY_FAN0, false), Pop(BY_FAN1, false), Pop(BY_JOIN, false)],
      cursor := Cursor(true, 0, 5), sent := [0, 1, 0]);
    SubStep(Raced(s8, IDLE, IDLE), Consume(0), s9, Raced(s9, IDLE, IDLE));
    SubStep(Raced(s9, IDLE, IDLE), Consume(0), s10, Raced(s10, IDLE, IDLE));
    SubStep(Raced(s10, IDLE, IDLE), Consume(0), s11, Raced(s11, IDLE, IDLE));
    assert Raced(s11, IDLE, IDLE).subs[0] == s11;
  }

  // The publisher need not restart for that. Two of its streams are ingested in parallel, and the newer is published
  // first: the older one looks like a restart.

  function Swapped(s: Sub, fan0: Fan, fan1: Fan): State {
    State([Group(6, 0), Group(5, 1)], 1, map[0 := s], [fan0, fan1])
  }

  function Reader(entries: seq<Entry>): Sub {
    Sub(Running, true, 0, 0, None, entries, entries, [], Cursor(false, 0, 0), [])
  }

  lemma JoinedEmpty()
    ensures Reachable(State([], 0, map[0 := Reader([])], []))
  {
    var s0, s1, s2 := NewSub(0), NewSub(0).(phase := Greeting), Reader([]);
    ReachableStep(Init(), Subscribe(0), State([], 0, map[0 := s0], [])) by { assert Run(Init(), [], Init()); }
    SubStep(State([], 0, map[0 := s0], []), ReadLive(0), s1, State([], 0, map[0 := s1], []));
    SubStep(State([], 0, map[0 := s1], []), Greet(0, true), s2, State([], 0, map[0 := s2], []));
  }

  lemma NewerPublishedFirst()
    ensures Reachable(Swapped(Reader([]), TODO, TODO))
  {
    JoinedEmpty();
    hide Reachable, Run;
    var s := Reader([]);
    var t3, t4 := State([], 0, map[0 := s], []), State([Group(6, 0)], 0, map[0 := s], [TODO]);
    assert Members(t3) == {0} && Members(t4) == {0};
    ReachableStep(t3, Publish(6), t4);
    ReachableStep(t4, Publish(5), Swapped(s, TODO, TODO));
  }

  lemma BothFannedOut()
    ensures Reachable(Swapped(Reader([BY_FAN0, BY_FAN1]), IDLE, IDLE))
  {
    NewerPublishedFirst();
    assert {0} - {0} == {} && [TODO, TODO][0 := IDLE] == [IDLE, TODO] && [IDLE, TODO][1 := IDLE] == [IDLE, IDLE];
    assert [] + [BY_FAN0] == [BY_FAN0] && [BY_FAN0] + [BY_FAN1] == [BY_FAN0, BY_FAN1];
    SubStep(Swapped(Reader([]), TODO, TODO), FanSend(0, 0), Reader([BY_FAN0]), Swapped(Reader([BY_FAN0]), IDLE, TODO));
    SubStep(Swapped(Reader([BY_FAN0]), IDLE, TODO), FanSend(1, 0), Reader([BY_FAN0, BY_FAN1]),
            Swapped(Reader([BY_FAN0, BY_FAN1]), IDLE, IDLE));
  }

  /** Fanned out in publish order, the older group is sent after the newer one. */
  lemma ReorderedIngestIsTakenForRestart()
    ensures exists st :: Reachable(st) && 0 in st.subs && st.subs[0].sent == [0, 1]
                         && st.pub == [Group(6, 0), Group(5, 1)]
  {
    BothFannedOut();
    var s0 := Reader([BY_FAN0, BY_FAN1]);
    var s1 := s0.(queue := [BY_FAN1], popped := [Pop(BY_FAN0, false)], cursor := Cursor(true, 0, 6), sent := [0]);
    var s2 := s1.(queue := [], popped := [Pop(BY_FAN0, false), Pop(BY_FAN1, false)],
      cursor := Cursor(true, 1, 5), sent := [0, 1]);
    SubStep(Swapped(s0, IDLE, IDLE), Consume(0), s1, Swapped(s1, IDLE, IDLE));
    SubStep(Swapped(s1, IDLE, IDLE), Consume(0), s2, Swapped(s2, IDLE, IDLE));
    assert Swapped(s2, IDLE, IDLE).subs[0] == s2;
  }

  predicate NeverDescends(pub: seq<Group>, i: nat, j: nat)
    requires j < |pub|
  {
    forall k :: i < k <= j ==> pub[k - 1].seqNo <= pub[k].seqNo
  }

  /** A generation lasts over a stretch of the publish order if and only if the numbers never descend in it, whatever
      made them descend. */
  lemma GenerationLastsIff(st: State, i: nat, j: nat)
    requires Reachable(st) && i <= j < |st.pub|
    ensures st.pub[i].gen == st.pub[j].gen <==> NeverDescends(st.pub, i, j)
  {
    hide SubOk, FanOk, Reachable;
    ReachableInv(st);
    GenerationLasts(st.pub, st.gen, i, j);
  }

  lemma {:induction false} GenerationLasts(pub: seq<Group>, gen: nat, i: nat, j: nat)
    requires Stamped(pub, gen) && Contiguous(pub) && i <= j < |pub|
    ensures pub[i].gen == pub[j].gen <==> NeverDescends(pub, i, j)
    decreases j - i
  {
    if i < j {
      GenerationLasts(pub, gen, i, j - 1);
      assert LexLeq(pub[i], pub[j - 1]) && LexLeq(pub[j - 1], pub[j]);
      assert NeverDescends(pub, i, j) <==> NeverDescends(pub, i, j - 1) && pub[j - 1].seqNo <= pub[j].seqNo;
    }
  }

  lemma ReachableStep(st: State, a: Action, st': State)
    requires Reachable(st) && Enabled(st, a) && st' == Next(st, a)
    ensures Reachable(st')
  {
    var acts :| Run(Init(), acts, st);
    RunOneMore(Init(), acts, st, a);
  }

  lemma {:induction false} RunOneMore(st: State, acts: seq<Action>, mid: State, a: Action)
    requires Run(st, acts, mid) && Enabled(mid, a)
    ensures Run(st, acts + [a], Next(mid, a))
    decreases |acts|
  {
    if acts == [] {
      assert ([] + [a])[1..] == [];
    } else {
      RunOneMore(Next(st, acts[0]), acts[1..], mid, a);
      assert (acts + [a])[1..] == acts[1..] + [a];
    }
  }

  /** A step of the only subscriber, numbered 0. */
  lemma SubStep(st: State, a: Action, s': Sub, st': State)
    requires Reachable(st) && st.subs.Keys == {0} && Enabled(st, a) && !a.Publish? && !a.Subscribe?
    requires Target(st, a) == 0 && SubNext(st, a, st.subs[0]) == s'
    requires st' == State(st.pub, st.gen, map[0 := s'], FanNext(st, a))
    ensures Reachable(st')
  {
    hide SubNext, FanNext;
    assert st.subs[0 := s'] == map[0 := s'];
    ReachableStep(st, a, st');
  }

  lemma RunStep(st: State, acts: seq<Action>, k: nat, st': State)
    requires k < |acts| && Enabled(st, acts[k]) && Run(Next(st, acts[k]), acts[k + 1..], st')
    ensures Run(st, acts[k..], st')
  {
    assert acts[k..][0] == acts[k] && acts[k..][1..] == acts[k + 1..];
  }

  // ---------- The bounded queue ----------

  function Dropped(popped: seq<Pop>): (n: nat)
    ensures n <= |popped|
  {
    if popped == [] then 0
    else Dropped(popped[..|popped| - 1]) + if popped[|popped| - 1].dropped then 1 else 0
  }

  /** Groups run took from the queue and skipped as not newer. */
  function Filtered(pub: seq<Group>, popped: seq<Pop>): nat {
    if popped == [] then 0
    else
      var init, p := popped[..|popped| - 1], popped[|popped| - 1];
      Filtered(pub, init) +
      if !p.dropped && Stale(Fold(pub, init).0, GroupAt(pub, p.entry.gid)) then 1 else 0
  }

  lemma {:induction false} PoppedCounts(pub: seq<Group>, popped: seq<Pop>)
    ensures |popped| == |Fold(pub, popped).1| + Filtered(pub, popped) + Dropped(popped)
    decreases |popped|
  {
    if popped != [] { PoppedCounts(pub, popped[..|popped| - 1]); }
  }

  /** The queue never holds more than three groups, and every group it ever took is queued, sent,
      filtered or counted as dropped. */
  lemma QueueConserves(st: State, id: SubId)
    requires Reachable(st) && id in st.subs
    ensures var s := st.subs[id];
            && |s.queue| <= 3
            && |s.accepted| == |s.queue| + |s.sent| + Filtered(st.pub, s.popped) + Dropped(s.popped)
  {
    ReachableInv(st);
    var s := st.subs[id];
    assert SubOk(st.pub, st.fan, id, s);
    PoppedCounts(st.pub, s.popped);
  }

  // ---------- What an enqueue drops ----------

  /** An operation of enqueue on a queue: a send or a drop, of a fan-out or of a join. */
  predicate OfEnqueue(a: Action) { a.FanSend? || a.FanDrop? || a.JoinSend? || a.JoinDrop? }

  /** The entry that this call of enqueue is to put. */
  function Own(st: State, a: Action): Entry
    requires Enabled(st, a) && OfEnqueue(a)
  {
    if a.FanSend? || a.FanDrop? then Entry(a.gid, false)
    else
      var live := st.subs[a.id].live;
      Entry(if live.Some? then live.value else 0, true)
  }

  /** The same group, offered the other way. */
  function Other(e: Entry): Entry { Entry(e.gid, !e.late) }

  /** The subscriber was in the track's set when g was published, and then also read g as the cached group. */
  predicate DoublyOffered(s: Sub, g: nat) { s.live == Some(g) && s.from <= g }

  predicate Queued(s: Sub, g: nat) { Entry(g, false) in s.queue || Entry(g, true) in s.queue }

  /** The call of enqueue for e has returned. */
  predicate Returned(st: State, id: SubId, e: Entry)
    requires id in st.subs
  {
    if e.late then Joined(st.subs[id]) else !Owes(st.fan, e.gid, id)
  }

  predicate HasLeft(s: Sub, e: Entry) { exists k :: 0 <= k < |s.popped| && s.popped[k].entry == e }

  lemma QueuedIffNotLeft(pub: seq<Group>, s: Sub, e: Entry)
    requires QueueOk(pub, s) && forall i, j :: 0 <= i < j < |s.accepted| ==> s.accepted[i] != s.accepted[j]
    ensures e in s.queue <==> e in s.accepted && !HasLeft(s, e)
  {
    hide Fold;
    var n := |s.popped|;
    if e in s.queue {
      var i :| 0 <= i < |s.queue| && s.queue[i] == e;
      assert s.accepted[n + i] == e;
      forall k | 0 <= k < n ensures s.popped[k].entry != e { assert s.accepted[k] == s.popped[k].entry; }
    } else if e in s.accepted {
      var i :| 0 <= i < |s.accepted| && s.accepted[i] == e;
      assert (Entries(s.popped) + s.queue)[i] == e;
      assert i < n ==> s.popped[i].entry == e;
    }
  }

  /** The queue has never held the entry a call is to put. */
  lemma OwnIsNew(st: State, a: Action)
    requires Inv(st) && Enabled(st, a) && OfEnqueue(a)
    ensures var s, e := st.subs[Target(st, a)], Own(st, a);
            && e !in s.accepted && (if e.late then s.live == Some(e.gid) else s.from <= e.gid)
            && (Other(e) in s.accepted <==> DoublyOffered(s, e.gid) && Returned(st, Target(st, a), Other(e)))
  {
    hide Fold, QueueOk, NewestSafe;
    var id := Target(st, a);
    var s, e := st.subs[id], Own(st, a);
    assert SubOk(st.pub, st.fan, id, s);
    if e.late {
      assert s.phase.Joining?;
      assert s.live == Some(e.gid);
      assert Entry(e.gid, true) in s.accepted <==> Joined(s) && s.live == Some(e.gid);
      assert Entry(e.gid, false) in s.accepted <==>
             s.from <= e.gid < Upto(|st.pub|, s) && !Owes(st.fan, e.gid, id);
    } else {
      assert Owes(st.fan, e.gid, id);
      assert Entry(e.gid, true) in s.accepted <==> Joined(s) && s.live == Some(e.gid);
    }
  }

  /** When a call drops, the group it is for is itself in the queue, and can be the one dropped, exactly when it was
      offered twice, the other call has put it, and it has not left the queue since. */
  lemma DropsItsOwnIff(st: State, a: Action)
    requires Reachable(st) && Enabled(st, a) && (a.FanDrop? || a.JoinDrop?)
    ensures var id := Target(st, a);
            var s, e := st.subs[id], Own(st, a);
            && e !in s.queue
            && (Queued(s, e.gid) <==>
                  DoublyOffered(s, e.gid) && Returned(st, id, Other(e)) && !HasLeft(s, Other(e)))
  {
    hide Fold, NewestSafe;
    ReachableInv(st);
    var id := Target(st, a);
    var s, e := st.subs[id], Own(st, a);
    assert SubOk(st.pub, st.fan, id, s);
    OwnIsNew(st, a);
    QueuedIffNotLeft(st.pub, s, e);
    QueuedIffNotLeft(st.pub, s, Other(e));
    assert Queued(s, e.gid) <==> e in s.queue || Other(e) in s.queue by { assert Other(e) == Entry(e.gid, !e.late); }
  }

  /** A group that was offered once is never dropped by the call that enqueues it. */
  lemma NeverDropsItsOwn(st: State, a: Action)
    requires Reachable(st) && Enabled(st, a) && (a.FanDrop? || a.JoinDrop?)
    ensures var s, e := st.subs[Target(st, a)], Own(st, a);
            && e !in s.accepted && e !in s.queue
            && (!DoublyOffered(s, e.gid) ==> !Queued(s, e.gid))
  {
    hide Fold, Inv;
    ReachableInv(st);
    OwnIsNew(st, a);
    DropsItsOwnIff(st, a);
  }

  // A group offered twice. Subscriber 0 joins, is handed group 0 as the cached group and is a member when groups 0, 1
  // and 2 are fanned out.

  function Three(s: Sub, fan0: Fan, fan1: Fan, fan2: Fan): State {
    State([Group(0, 0), Group(1, 0), Group(2, 0)], 0, map[0 := s], [fan0, fan1, fan2])
  }

  const BY_FAN2 := Entry(2, false)

  lemma HandedGroupZero()
    ensures Reachable(State([Group(0, 0)], 0, map[0 := Racer(Greeting, [])], [TODO]))
  {
    var s0 := NewSub(0);
    ReachableStep(Init(), Subscribe(0), State([], 0, map[0 := s0], [])) by { assert Run(Init(), [], Init()); }
    assert Members(State([], 0, map[0 := s0], [])) == {0};
    var t1 := State([Group(0, 0)], 0, map[0 := s0], [TODO]);
    ReachableStep(State([], 0, map[0 := s0], []), Publish(0), t1);
    SubStep(t1, ReadLive(0), Racer(Greeting, []), t1.(subs := map[0 := Racer(Greeting, [])]));
  }

  lemma ThreePublished()
    ensures Reachable(Three(Racer(Greeting, []), TODO, TODO, TODO))
  {
    HandedGroupZero();
    var s1 := Racer(Greeting, []);
    var t2 := State([Group(0, 0)], 0, map[0 := s1], [TODO]);
    var t3 := State([Group(0, 0), Group(1, 0)], 0, map[0 := s1], [TODO, TODO]);
    assert Members(t2) == {0} && Members(t3) == {0};
    ReachableStep(t2, Publish(1), t3);
    ReachableStep(t3, Publish(2), Three(s1, TODO, TODO, TODO));
  }

  lemma ThreeFannedOut()
    ensures Reachable(Three(Racer(Greeting, [BY_FAN0, BY_FAN1, BY_FAN2]), IDLE, IDLE, IDLE))
  {
    ThreePublished();
    var s1, s2 := Racer(Greeting, [BY_FAN0]), Racer(Greeting, [BY_FAN0, BY_FAN1]);
    var s3 := Racer(Greeting, [BY_FAN0, BY_FAN1, BY_FAN2]);
    assert {0} - {0} == {} && [] + [BY_FAN0] == [BY_FAN0] && [BY_FAN0] + [BY_FAN1] == [BY_FAN0, BY_FAN1];
    assert [BY_FAN0, BY_FAN1] + [BY_FAN2] == [BY_FAN0, BY_FAN1, BY_FAN2];
    SubStep(Three(Racer(Greeting, []), TODO, TODO, TODO), FanSend(0, 0), s1, Three(s1, IDLE, TODO, TODO));
    SubStep(Three(s1, IDLE, TODO, TODO), FanSend(1, 0), s2, Three(s2, IDLE, IDLE, TODO));
    SubStep(Three(s2, IDLE, IDLE, TODO), FanSend(2, 0), s3, Three(s3, IDLE, IDLE, IDLE));
  }

  lemma FullAtTheJoin()
    ensures Reachable(Three(Racer(Joining(true), [BY_FAN0, BY_FAN1, BY_FAN2]), IDLE, IDLE, IDLE))
  {
    ThreeFannedOut();
    var s3, s4 := Racer(Greeting, [BY_FAN0, BY_FAN1, BY_FAN2]), Racer(Joining(false), [BY_FAN0, BY_FAN1, BY_FAN2]);
    SubStep(Three(s3, IDLE, IDLE, IDLE), Greet(0, true), s4, Three(s4, IDLE, IDLE, IDLE));
    SubStep(Three(s4, IDLE, IDLE, IDLE), JoinSend(0), s4.(phase := Joining(true)),
            Three(s4.(phase := Joining(true)), IDLE, IDLE, IDLE));
  }

  /** The join finds the queue full and drops group 0, the very group it is to put. */
  lemma JoinDropsItsOwnGroup()
    ensures exists st :: Reachable(st) && Enabled(st, JoinDrop(0)) && Own(st, JoinDrop(0)).gid == 0 &&
                         Next(st, JoinDrop(0)).subs[0].popped == [Pop(Entry(0, false), true)]
  {
    FullAtTheJoin();
    var st := Three(Racer(Joining(true), [BY_FAN0, BY_FAN1, BY_FAN2]), IDLE, IDLE, IDLE);
    assert st.subs[0] == Racer(Joining(true), [BY_FAN0, BY_FAN1, BY_FAN2]);
    assert [] + [Pop(BY_FAN0, true)] == [Pop(BY_FAN0, true)];
    assert Next(st, JoinDrop(0)).subs[0].popped == [Pop(Entry(0, false), true)];
  }

  const DROPPING := Fan({0}, Some(0), true)

  lemma JoinedFirst()
    ensures Reachable(Three(Racer(Running, [BY_JOIN]), TODO, TODO, TODO))
  {
    ThreePublished();
    var s1, s2 := Racer(Joining(false), []), Racer(Running, [BY_JOIN]);
    assert [] + [BY_JOIN] == [BY_JOIN];
    SubStep(Three(Racer(Greeting, []), TODO, TODO, TODO), Greet(0, true), s1, Three(s1, TODO, TODO, TODO));
    SubStep(Three(s1, TODO, TODO, TODO), JoinSend(0), s2, Three(s2, TODO, TODO, TODO));
  }

  lemma JoinedThenFull()
    ensures Reachable(Three(Racer(Running, [BY_JOIN, BY_FAN1, BY_FAN2]), DROPPING, IDLE, IDLE))
  {
    JoinedFirst();
    var s2, s3 := Racer(Running, [BY_JOIN]), Racer(Running, [BY_JOIN, BY_FAN1]);
    var s4 := Racer(Running, [BY_JOIN, BY_FAN1, BY_FAN2]);
    assert {0} - {0} == {} && [BY_JOIN] + [BY_FAN1] == [BY_JOIN, BY_FAN1];
    assert [BY_JOIN, BY_FAN1] + [BY_FAN2] == [BY_JOIN, BY_FAN1, BY_FAN2];
    SubStep(Three(s2, TODO, TODO, TODO), FanSend(1, 0), s3, Three(s3, TODO, IDLE, TODO));
    SubStep(Three(s3, TODO, IDLE, TODO), FanSend(2, 0), s4, Three(s4, TODO, IDLE, IDLE));
    SubStep(Three(s4, TODO, IDLE, IDLE), FanSend(0, 0), s4, Three(s4, DROPPING, IDLE, IDLE));
  }

  /** And the other way round: the fan-out of group 0 drops the join's copy of it. */
  lemma FanOutDropsItsOwnGroup()
    ensures exists st :: Reachable(st) && Enabled(st, FanDrop(0)) && 0 in Next(st, FanDrop(0)).subs &&
                         Next(st, FanDrop(0)).subs[0].popped == [Pop(Entry(0, true), true)]
  {
    JoinedThenFull();
    var st := Three(Racer(Running, [BY_JOIN, BY_FAN1, BY_FAN2]), DROPPING, IDLE, IDLE);
    assert st.subs[0] == Racer(Running, [BY_JOIN, BY_FAN1, BY_FAN2]);
    assert [] + [Pop(BY_JOIN, true)] == [Pop(BY_JOIN, true)];
    assert Next(st, FanDrop(0)).subs[0].popped == [Pop(Entry(0, true), true)];
  }

  predicate DistinctGroups(es: seq<Entry>) { forall i, j :: 0 <= i < j < |es| ==> es[i].gid != es[j].gid }

  /** The cached group the subscriber joined with is there twice. */
  predicate Twins(s: Sub, es: seq<Entry>) {
    s.live.Some? && Entry(s.live.value, false) in es && Entry(s.live.value, true) in es
  }

  /** The queue and the entry to be put hold different groups, unless the group of the join is there twice; and it is
      not if the subscriber was not yet in the set when that group was published. */
  lemma DistinctUnlessTwins(st: State, a: Action)
    requires Inv(st) && Enabled(st, a) && OfEnqueue(a)
    ensures var s := st.subs[Target(st, a)];
            var es := s.queue + [Own(st, a)];
            && (DistinctGroups(es) <==> !Twins(s, es))
            && ((forall g :: s.live == Some(g) ==> !DoublyOffered(s, g)) ==> DistinctGroups(es))
  {
    hide Fold, NewestSafe, Owes;
    var id := Target(st, a);
    var s, e := st.subs[id], Own(st, a);
    var es := s.queue + [e];
    assert SubOk(st.pub, st.fan, id, s);
    OwnIsNew(st, a);
    var all := s.accepted + [e];
    assert forall i :: 0 <= i < |es| ==> es[i] == all[|s.popped| + i];
    assert forall i, j :: 0 <= i < j < |es| ==> es[i] != es[j];
    forall g: nat | Entry(g, true) in es ensures s.live == Some(g) {
      if Entry(g, true) != e { QueueIsAccepted(st.pub, s, Entry(g, true)); }
    }
    forall g: nat | Entry(g, false) in es ensures s.from <= g {
      if Entry(g, false) != e { QueueIsAccepted(st.pub, s, Entry(g, false)); }
    }
    TwinsAreEqual(s, es);
  }

  lemma TwinsAreEqual(s: Sub, es: seq<Entry>)
    requires forall i, j :: 0 <= i < j < |es| ==> es[i] != es[j]
    requires forall g: nat :: Entry(g, true) in es ==> s.live == Some(g)
    ensures DistinctGroups(es) <==> !Twins(s, es)
  {
    if Twins(s, es) {
      var g := s.live.value;
      var i :| 0 <= i < |es| && es[i] == Entry(g, false);
      var j :| 0 <= j < |es| && es[j] == Entry(g, true);
      assert es[i].gid == es[j].gid && i != j;
    } else {
      forall i, j | 0 <= i < j < |es| ensures es[i].gid != es[j].gid {
        assert es[i] == Entry(es[i].gid, es[i].late) && es[j] == Entry(es[j].gid, es[j].late);
        assert es[i] in es && es[j] in es;
      }
    }
  }

  lemma QueueIsAccepted(pub: seq<Group>, s: Sub, e: Entry)
    requires QueueOk(pub, s) && e in s.queue
    ensures e in s.accepted
  {
    var i :| 0 <= i < |s.queue| && s.queue[i] == e;
    assert s.accepted[|s.popped| + i] == s.queue[i];
  }

  /** What a drop removes: the oldest entry. If the queue is still full then, three entries are later, the call's own
      included, and they are three groups other than the dropped one unless the group of the join is among the
      four twice. */
  lemma DropAge(st: State, a: Action)
    requires Reachable(st) && Enabled(st, a) && (a.FanDrop? || a.JoinDrop?)
    requires st.subs[Target(st, a)].queue != []
    ensures var s := st.subs[Target(st, a)];
            var k, later := |s.popped|, s.queue[1..] + [Own(st, a)];
            && k < |s.accepted| && s.accepted[k] == s.queue[0]
            && Next(st, a).subs[Target(st, a)].popped == s.popped + [Pop(s.queue[0], true)]
            && (|later| == 3 <==> |s.queue| == QUEUE_CAP)
            && (DistinctGroups([s.queue[0]] + later) <==> !Twins(s, [s.queue[0]] + later))
            && ((forall g :: s.live == Some(g) ==> !DoublyOffered(s, g)) ==> DistinctGroups([s.queue[0]] + later))
  {
    hide Inv;
    ReachableInv(st);
    var s := st.subs[Target(st, a)];
    DistinctUnlessTwins(st, a);
    DropsOldest(st, a);
    hide Own, DistinctGroups, Twins, Next, Enabled, Target;
    assert [s.queue[0]] + (s.queue[1..] + [Own(st, a)]) == s.queue + [Own(st, a)];
  }

  lemma DropsOldest(st: State, a: Action)
    requires Inv(st) && Enabled(st, a) && (a.FanDrop? || a.JoinDrop?)
    requires st.subs[Target(st, a)].queue != []
    ensures var s := st.subs[Target(st, a)];
            && |s.popped| < |s.accepted| && s.accepted[|s.popped|] == s.queue[0] && |s.queue| <= QUEUE_CAP
            && Next(st, a).subs[Target(st, a)].popped == s.popped + [Pop(s.queue[0], true)]
  {
    hide Fold, AcceptedOk, PhaseOk, NewestSafe;
    assert SubOk(st.pub, st.fan, Target(st, a), st.subs[Target(st, a)]);
  }

  /** The drop that belongs to a send. */
  function DropOf(a: Action): Action
    requires a.FanSend? || a.JoinSend?
  {
    if a.FanSend? then FanDrop(a.gid) else JoinDrop(a.id)
  }

  /** An enqueue, of a fan-out or of a join, whose three channel operations are not interleaved with anything else drops
      the oldest entry, and after it three were put, its own last: three groups other than the dropped one,
      unless the group of the join is among the four twice. */
  lemma UninterruptedEnqueue(st: State, a: Action)
    requires Reachable(st) && Enabled(st, a) && (a.FanSend? || a.JoinSend?)
    requires |st.subs[Target(st, a)].queue| == QUEUE_CAP
    ensures var id := Target(st, a);
            var s, e := st.subs[id], Own(st, a);
            && (DistinctGroups(s.queue + [e]) <==> !Twins(s, s.queue + [e]))
            && ((forall g :: s.live == Some(g) ==> !DoublyOffered(s, g)) ==> DistinctGroups(s.queue + [e]))
            && exists st' :: Run(st, [a, DropOf(a), a], st') && id in st'.subs &&
                 var s' := st'.subs[id];
                 && s'.queue == s.queue[1..] + [e]
                 && s'.popped == s.popped + [Pop(s.queue[0], true)] && s'.accepted == s.accepted + [e]
  {
    hide Inv, DistinctGroups, Twins;
    ReachableInv(st);
    DistinctUnlessTwins(st, a);
    SendDropSend(st, a);
  }

  lemma SendDropSend(st: State, a: Action)
    requires Enabled(st, a) && (a.FanSend? || a.JoinSend?) && |st.subs[Target(st, a)].queue| == QUEUE_CAP
    ensures var s, e := st.subs[Target(st, a)], Own(st, a);
            exists st' :: Run(st, [a, DropOf(a), a], st') && Target(st, a) in st'.subs &&
              var s' := st'.subs[Target(st, a)];
              && s'.queue == s.queue[1..] + [e]
              && s'.popped == s.popped + [Pop(s.queue[0], true)] && s'.accepted == s.accepted + [e]
  {
    var acts := [a, DropOf(a), a];
    var st1 := Next(st, acts[0]);
    var st2 := Next(st1, acts[1]);
    var st3 := Next(st2, acts[2]);
    assert Run(st3, acts[3..], st3);
    RunStep(st2, acts, 2, st3);
    RunStep(st1, acts, 1, st3);
    RunStep(st, acts, 0, st3);
    assert acts[0..] == acts;
  }

  // ---------- Late joins ----------

  /** The join still has to enqueue the group it read. */
  predicate JoinOwes(s: Sub, g: nat) { (s.phase == Greeting || s.phase.Joining?) && s.live == Some(g) }

  /** Group g has been, or is about to be, put into the queue of this subscriber. */
  predicate Offered(st: State, id: SubId, g: nat)
    requires id in st.subs
  {
    var s := st.subs[id];
    Owes(st.fan, g, id) || JoinOwes(s, g) || Entry(g, false) in s.accepted || Entry(g, true) in s.accepted
  }

  /** The first group a joiner is offered: the newest one when it joined, if it was still the newest when
      the join read it; otherwise the first one published since. */
  function FirstOffered(s: Sub): nat {
    if s.from > 0 && s.live == Some(s.from - 1) then s.from - 1 else s.from
  }

  /** Late-join gap freedom: however publishes interleave with addSub, the read of the cached group and its
      enqueue, the groups offered are exactly a contiguous stretch of the publish order that runs, while
      the subscriber is in the track's set, to the newest group. */
  lemma LateJoinHasNoGap(st: State, id: SubId, g: nat)
    requires Reachable(st) && id in st.subs && st.subs[id].phase !in {Added, Refused}
    ensures Offered(st, id, g) <==> FirstOffered(st.subs[id]) <= g < Upto(|st.pub|, st.subs[id])
    ensures FirstOffered(st.subs[id]) <= st.subs[id].from <= FirstOffered(st.subs[id]) + 1
  {
    hide QueueOk, NewestSafe;
    ReachableInv(st);
    var s := st.subs[id];
    assert SubOk(st.pub, st.fan, id, s);
    assert Entry(g, false) in s.accepted <==> s.from <= g < Upto(|st.pub|, s) && !Owes(st.fan, g, id);
    assert Owes(st.fan, g, id) ==> s.from <= g < Upto(|st.pub|, s);
    assert Entry(g, true) in s.accepted <==> Joined(s) && s.live == Some(g);
  }

  /** Where an entry the queue took is now. */
  predicate Placed(pub: seq<Group>, s: Sub, e: Entry) {
    || e in s.queue
    || exists k :: 0 <= k < |s.popped| && s.popped[k].entry == e &&
         (s.popped[k].dropped
          || e.gid in s.sent
          || Stale(Fold(pub, s.popped[..k]).0, GroupAt(pub, e.gid)))
  }

  lemma {:induction false} SentOrStale(pub: seq<Group>, popped: seq<Pop>, k: nat)
    requires k < |popped| && !popped[k].dropped
    ensures popped[k].entry.gid in Fold(pub, popped).1
            || Stale(Fold(pub, popped[..k]).0, GroupAt(pub, popped[k].entry.gid))
    decreases |popped|
  {
    var init := popped[..|popped| - 1];
    if k < |init| {
      SentOrStale(pub, init, k);
      assert init[..k] == popped[..k] && init[k] == popped[k];
    }
  }

  /** Each group in that stretch is pending, queued, sent, filtered as not newer or dropped. */
  lemma OfferedIsAccounted(st: State, id: SubId, g: nat)
    requires Reachable(st) && id in st.subs && st.subs[id].phase !in {Added, Refused}
    requires FirstOffered(st.subs[id]) <= g < Upto(|st.pub|, st.subs[id])
    ensures var s := st.subs[id];
            || Owes(st.fan, g, id) || JoinOwes(s, g)
            || Placed(st.pub, s, Entry(g, false)) || Placed(st.pub, s, Entry(g, true))
  {
    hide Fold, Owes, AcceptedOk, PhaseOk, NewestSafe;
    LateJoinHasNoGap(st, id, g);
    ReachableInv(st);
    var s := st.subs[id];
    assert SubOk(st.pub, st.fan, id, s);
    if e :| e in s.accepted && e.gid == g {
      assert e == Entry(g, e.late);
      var k :| 0 <= k < |s.accepted| && s.accepted[k] == e;
      if k < |s.popped| {
        if !s.popped[k].dropped { SentOrStale(st.pub, s.popped, k); }
        assert s.popped[k].entry == e;
      } else {
        assert s.queue[k - |s.popped|] == e;
      }
      assert Placed(st.pub, s, e);
    }
  }
}
