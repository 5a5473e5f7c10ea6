/** Every action of the relay keeps the relay's invariants. */
module RelayInvariants {
  import opened Basics
  import opened Relay

  lemma AcceptedBelow(n: nat, fan: seq<Fan>, id: SubId, s: Sub, e: Entry)
    requires AcceptedOk(n, fan, id, s) && PhaseOk(n, s) && e in s.accepted
    ensures e.gid < n
  {
    assert e == Entry(e.gid, e.late);
    if e.late { assert Entry(e.gid, true) in s.accepted; } else { assert Entry(e.gid, false) in s.accepted; }
  }

  lemma {:induction false} FoldGrows(pub: seq<Group>, g: Group, popped: seq<Pop>)
    requires forall p :: p in popped ==> p.entry.gid < |pub|
    ensures Fold(pub + [g], popped) == Fold(pub, popped)
    decreases |popped|
  {
    if popped != [] {
      var init, last := popped[..|popped| - 1], popped[|popped| - 1];
      forall p | p in init
        ensures p.entry.gid < |pub|
      {
        assert p in popped;
      }
      FoldGrows(pub, g, init);
      assert last in popped;
      assert GroupAt(pub + [g], last.entry.gid) == GroupAt(pub, last.entry.gid);
    }
  }

  lemma FoldOne(pub: seq<Group>, popped: seq<Pop>, p: Pop)
    ensures var before := Fold(pub, popped);
            var g := GroupAt(pub, p.entry.gid);
            Fold(pub, popped + [p]) ==
            if p.dropped || Stale(before.0, g) then before
            else (Cursor(true, g.gen, g.seqNo), before.1 + [p.entry.gid])
  {
    assert (popped + [p])[..|popped|] == popped;
  }

  /** Nothing the other subscribers' steps do to the fan-outs concerns this one. */
  ghost predicate SameFor(fan: seq<Fan>, fan': seq<Fan>, id: SubId) {
    && (forall g: nat :: Owes(fan', g, id) <==> Owes(fan, g, id))
    && (forall g: nat :: Busy(fan, g, id) ==> Busy(fan', g, id))
  }

  lemma Untouched(pub: seq<Group>, fan: seq<Fan>, fan': seq<Fan>, id: SubId, s: Sub)
    requires SubOk(pub, fan, id, s) && SameFor(fan, fan', id)
    ensures SubOk(pub, fan', id, s)
  {
    hide Fold, Owes, Busy;
    if s.queue == [] && s.popped != [] && s.popped[|s.popped| - 1].dropped && !s.phase.Joining? {
      var g: nat :| Busy(fan, g, id);
      assert Busy(fan', g, id);
    }
  }

  // ---------- The operations on one subscriber ----------

  lemma PushKeeps(n: nat, fan: seq<Fan>, fan': seq<Fan>, id: SubId, s: Sub, s': Sub, pub: seq<Group>, e: Entry)
    requires |pub| == n && SubOk(pub, fan, id, s) && |s.queue| < QUEUE_CAP
    requires s' == Push(s, e).(phase := s'.phase) && PhaseOk(n, s') && e !in s.accepted
    requires forall g: nat :: Owes(fan', g, id) <==> Owes(fan, g, id) && e != Entry(g, false)
    requires !e.late ==> Owes(fan, e.gid, id) && s'.phase == s.phase
    requires e.late ==> s.live == Some(e.gid) && Joined(s') && !Joined(s)
    ensures SubOk(pub, fan', id, s')
  {
    hide Fold, Owes, Busy, PhaseOk;
    forall g: nat
      ensures Entry(g, false) in s'.accepted <==> s'.from <= g < Upto(n, s') && !Owes(fan', g, id)
      ensures Owes(fan', g, id) ==> s'.from <= g < Upto(n, s')
      ensures Entry(g, true) in s'.accepted <==> Joined(s') && s'.live == Some(g)
    {
      assert Entry(g, false) in s.accepted <==> s.from <= g < Upto(n, s) && !Owes(fan, g, id);
      assert Entry(g, true) in s.accepted <==> Joined(s) && s.live == Some(g);
    }
    assert s'.accepted == Entries(s'.popped) + s'.queue;
  }

  lemma DropKeeps(pub: seq<Group>, fan: seq<Fan>, fan': seq<Fan>, id: SubId, s: Sub, s': Sub)
    requires SubOk(pub, fan, id, s) && SameFor(fan, fan', id)
    requires s' == DropOldest(s).(phase := s'.phase)
    requires s'.phase == s.phase || (s.phase.Joining? && s'.phase.Joining?)
    requires s'.phase.Joining? || exists g: nat :: Busy(fan', g, id)
    ensures SubOk(pub, fan', id, s')
  {
    hide Owes, Busy, Fold, QueueOk, AcceptedOk;
    AcceptedSame(|pub|, fan, fan', id, s, s');
    DropQueue(pub, s, s');
  }

  lemma AcceptedSame(n: nat, fan: seq<Fan>, fan': seq<Fan>, id: SubId, s: Sub, s': Sub)
    requires AcceptedOk(n, fan, id, s) && SameFor(fan, fan', id) && s'.accepted == s.accepted && s'.live == s.live
    requires s'.from == s.from && Upto(n, s') == Upto(n, s) && Joined(s') == Joined(s)
    ensures AcceptedOk(n, fan', id, s')
  {
    hide Owes, Busy, Upto, Joined;
  }

  lemma DropQueue(pub: seq<Group>, s: Sub, s': Sub)
    requires QueueOk(pub, s) && s' == DropOldest(s).(phase := s'.phase)
    ensures QueueOk(pub, s')
  {
    hide Fold;
    if s.queue != [] { QueuePopped(pub, s, true); }
  }

  lemma QueuePopped(pub: seq<Group>, s: Sub, dropped: bool)
    requires QueueOk(pub, s) && s.queue != []
    ensures var popped := s.popped + [Pop(s.queue[0], dropped)];
            s.accepted == Entries(popped) + s.queue[1..]
    ensures dropped ==> Fold(pub, s.popped + [Pop(s.queue[0], dropped)]) == Fold(pub, s.popped)
  {
    FoldOne(pub, s.popped, Pop(s.queue[0], dropped));
  }

  lemma ReceiveKeeps(pub: seq<Group>, fan: seq<Fan>, id: SubId, s: Sub)
    requires SubOk(pub, fan, id, s) && s.queue != [] && s.phase == Running
    ensures SubOk(pub, fan, id, Receive(pub, s))
  {
    hide Owes, Busy, Fold;
    var s' := Receive(pub, s);
    FoldOne(pub, s.popped, Pop(s.queue[0], false));
    QueuePopped(pub, s, false);
  }

  // ---------- The actions ----------

  lemma PublishKeeps(st: State, seqNo: nat)
    requires Inv(st)
    ensures Inv(Next(st, Publish(seqNo)))
  {
    hide Fold;
    var st' := Next(st, Publish(seqNo));
    var n, g := |st.pub|, Group(seqNo, st'.gen);
    forall i, j | 0 <= i <= j < |st'.pub|
      ensures LexLeq(st'.pub[i], st'.pub[j])
    {
      if i < n && j == n { assert LexLeq(st.pub[i], st.pub[n - 1]); }
    }
    forall id | id in st'.subs
      ensures SubOk(st'.pub, st'.fan, id, st'.subs[id])
    {
      PublishKeepsSub(st, seqNo, id);
    }
  }

  lemma QueueGrows(pub: seq<Group>, fan: seq<Fan>, id: SubId, s: Sub, g: Group)
    requires SubOk(pub, fan, id, s)
    ensures QueueOk(pub + [g], s)
  {
    forall p | p in s.popped
      ensures p.entry.gid < |pub|
    {
      var k :| 0 <= k < |s.popped| && s.popped[k] == p;
      assert s.accepted[k] == p.entry;
      AcceptedBelow(|pub|, fan, id, s, p.entry);
    }
    FoldGrows(pub, g, s.popped);
  }

  lemma PublishKeepsSub(st: State, seqNo: nat, id: SubId)
    requires Inv(st) && id in st.subs
    ensures var st' := Next(st, Publish(seqNo)); SubOk(st'.pub, st'.fan, id, st'.subs[id])
  {
    hide Fold, QueueOk;
    var st' := Next(st, Publish(seqNo));
    var s, n := st.subs[id], |st.pub|;
    assert SubOk(st.pub, st.fan, id, s);
    assert Owes(st'.fan, n, id) <==> s.member;
    assert forall g: nat :: g < n ==> (Owes(st'.fan, g, id) <==> Owes(st.fan, g, id));
    assert forall g: nat :: Busy(st.fan, g, id) ==> Busy(st'.fan, g, id);
    QueueGrows(st.pub, st.fan, id, s, Group(seqNo, st'.gen));
    forall g: nat
      ensures Entry(g, false) in s.accepted <==> s.from <= g < Upto(n + 1, s) && !Owes(st'.fan, g, id)
      ensures Owes(st'.fan, g, id) ==> s.from <= g < Upto(n + 1, s)
    {
      assert Entry(g, false) in s.accepted <==> s.from <= g < Upto(n, s) && !Owes(st.fan, g, id);
    }
    assert NewestSafe(st'.fan, id, s) by { NewestSafeGrows(st.fan, st'.fan, id, s); }
  }

  lemma NewestSafeGrows(fan: seq<Fan>, fan': seq<Fan>, id: SubId, s: Sub)
    requires NewestSafe(fan, id, s)
    requires forall g: nat :: Busy(fan, g, id) ==> Busy(fan', g, id)
    ensures NewestSafe(fan', id, s)
  {
    hide Busy;
    if (exists g: nat :: Busy(fan, g, id)) {
      var g: nat :| Busy(fan, g, id);
      assert Busy(fan', g, id);
    }
  }

  lemma FanSendKeeps(st: State, g: nat, id: SubId)
    requires Inv(st) && Enabled(st, FanSend(g, id))
    ensures var st' := Next(st, FanSend(g, id)); SubOk(st'.pub, st'.fan, id, st'.subs[id])
  {
    hide Fold, QueueOk, NewestSafe;
    var st', s := Next(st, FanSend(g, id)), st.subs[id];
    assert SubOk(st.pub, st.fan, id, s);
    if |s.queue| < QUEUE_CAP {
      assert Owes(st.fan, g, id);
      assert Entry(g, false) !in s.accepted;
      PushKeeps(|st.pub|, st.fan, st'.fan, id, s, st'.subs[id], st.pub, Entry(g, false));
    } else {
      Untouched(st.pub, st.fan, st'.fan, id, s);
    }
  }

  lemma FanDropKeeps(st: State, g: nat)
    requires Inv(st) && Enabled(st, FanDrop(g))
    ensures var st' := Next(st, FanDrop(g)); var id := Target(st, FanDrop(g));
            SubOk(st'.pub, st'.fan, id, st'.subs[id])
  {
    hide Fold, SubOk;
    var st', id := Next(st, FanDrop(g)), Target(st, FanDrop(g));
    assert Busy(st'.fan, g, id);
    DropKeeps(st.pub, st.fan, st'.fan, id, st.subs[id], st'.subs[id]);
  }

  lemma StillJoining(pub: seq<Group>, fan: seq<Fan>, id: SubId, s: Sub, s': Sub)
    requires SubOk(pub, fan, id, s) && s.phase.Joining? && s'.phase.Joining? && s' == s.(phase := s'.phase)
    ensures SubOk(pub, fan, id, s')
  {
    hide Fold;
  }

  lemma JoinSendKeeps(st: State, id: SubId)
    requires Inv(st) && Enabled(st, JoinSend(id))
    ensures var st' := Next(st, JoinSend(id)); SubOk(st'.pub, st'.fan, id, st'.subs[id])
  {
    hide Fold, QueueOk, NewestSafe;
    var st', s := Next(st, JoinSend(id)), st.subs[id];
    assert SubOk(st.pub, st.fan, id, s);
    if |s.queue| < QUEUE_CAP {
      assert Entry(s.live.value, true) !in s.accepted;
      PushKeeps(|st.pub|, st.fan, st.fan, id, s, st'.subs[id], st.pub, Entry(s.live.value, true));
    } else {
      StillJoining(st.pub, st.fan, id, s, st'.subs[id]);
    }
  }

  /** The subscriber an action works on. */
  lemma TargetKeeps(st: State, a: Action)
    requires Inv(st) && Enabled(st, a) && !a.Publish?
    ensures var st' := Next(st, a); var id := Target(st, a); SubOk(st'.pub, st'.fan, id, st'.subs[id])
  {
    hide Fold, AcceptedOk, QueueOk, NewestSafe;
    match a
    case FanSend(g, id) => FanSendKeeps(st, g, id);
    case FanDrop(g) => FanDropKeeps(st, g);
    case Subscribe(id) => FreshSub(st, id);
    case JoinSend(id) => JoinSendKeeps(st, id);
    case JoinDrop(id) =>
      assert SubOk(st.pub, st.fan, id, st.subs[id]);
      DropKeeps(st.pub, st.fan, st.fan, id, st.subs[id], Next(st, a).subs[id]);
    case Consume(id) =>
      assert SubOk(st.pub, st.fan, id, st.subs[id]);
      ReceiveKeeps(st.pub, st.fan, id, st.subs[id]);
    case ReadLive(id) => PhaseOnly(st, a, id);
    case Greet(id, _) => PhaseOnly(st, a, id);
    case Leave(id) => PhaseOnly(st, a, id);
    case Remove(id) => PhaseOnly(st, a, id);
  }

  lemma FreshSub(st: State, id: SubId)
    requires Inv(st) && id !in st.subs
    ensures SubOk(st.pub, st.fan, id, NewSub(|st.pub|))
  {
  }

  lemma PhaseOnly(st: State, a: Action, id: SubId)
    requires Inv(st) && Enabled(st, a) && a in {ReadLive(id), Greet(id, false), Greet(id, true), Leave(id), Remove(id)}
    ensures var st' := Next(st, a); SubOk(st'.pub, st'.fan, id, st'.subs[id])
  {
    hide AcceptedOk, QueueOk, NewestSafe;
    assert SubOk(st.pub, st.fan, id, st.subs[id]);
    SamePlaces(st.pub, st.fan, id, st.subs[id], SubNext(st, a, st.subs[id]));
  }

  lemma SamePlaces(pub: seq<Group>, fan: seq<Fan>, id: SubId, s: Sub, s': Sub)
    requires SubOk(pub, fan, id, s) && PhaseOk(|pub|, s') && Joined(s) == Joined(s') && !s.phase.Joining?
    requires s'.from == s.from && Upto(|pub|, s') == Upto(|pub|, s) && (Joined(s) ==> s'.live == s.live)
    requires s'.queue == s.queue && s'.accepted == s.accepted && s'.popped == s.popped
    requires s'.cursor == s.cursor && s'.sent == s.sent
    ensures SubOk(pub, fan, id, s')
  {
    hide Fold, PhaseOk;
  }

  lemma StepKeepsInv(st: State, a: Action)
    requires Inv(st) && Enabled(st, a)
    ensures Inv(Next(st, a))
  {
    hide Fold, SubOk;
    if a.Publish? {
      PublishKeeps(st, a.seqNo);
    } else {
      var st', t := Next(st, a), Target(st, a);
      forall id | id in st'.subs
        ensures SubOk(st'.pub, st'.fan, id, st'.subs[id])
      {
        if id == t {
          TargetKeeps(st, a);
        } else {
          Untouched(st.pub, st.fan, st'.fan, id, st.subs[id]);
        }
      }
    }
  }

  lemma {:induction false} RunKeepsInv(st: State, acts: seq<Action>, st': State)
    requires Inv(st) && Run(st, acts, st')
    ensures Inv(st')
    decreases |acts|
  {
    hide Inv;
    if acts != [] {
      StepKeepsInv(st, acts[0]);
      RunKeepsInv(Next(st, acts[0]), acts[1..], st');
    }
  }

  lemma ReachableInv(st: State)
    requires Reachable(st)
    ensures Inv(st)
  {
    var acts :| Run(Init(), acts, st);
    RunKeepsInv(Init(), acts, st);
  }
}
