/** What happens to a subscriber that leaves: its run loop has returned, or its greeting failed, and the deferred
    removeSub takes it out of the track's set. */
module RelayLeave {
  import opened Basics
  import opened Relay
  import opened RelayInvariants
  import opened RelayTheorems

  /** Only a subscription adds to the set, and only a removal takes out of it. */
  lemma MembersChange(st: State, a: Action)
    requires Enabled(st, a)
    ensures Members(Next(st, a))
            == if a.Subscribe? then Members(st) + {a.id} else if a.Remove? then Members(st) - {a.id} else Members(st)
  {
    var after :=
      if a.Subscribe? then Members(st) + {a.id} else if a.Remove? then Members(st) - {a.id} else Members(st);
    forall id ensures id in Members(Next(st, a)) <==> id in after { MemberChanges(st, a, id); }
  }

  lemma MemberChanges(st: State, a: Action, id: SubId)
    requires Enabled(st, a)
    ensures id in Members(Next(st, a))
            <==> (id in Members(st) || a == Subscribe(id)) && a != Remove(id)
  {
    hide FanNext;
  }

  /** The subscriber's run loop has returned or was never started. */
  predicate Over(s: Sub) { s.phase == Quit || s.phase == Refused }

  /** What a step leaves alone in a subscriber whose session is over. */
  lemma OverKeeps(st: State, a: Action, id: SubId)
    requires Enabled(st, a) && id in st.subs && Over(st.subs[id])
    ensures var st' := Next(st, a);
            && id in st'.subs && st'.subs[id].phase == st.subs[id].phase && st'.subs[id].sent == st.subs[id].sent
            && (a == Remove(id) || st'.subs[id].member == st.subs[id].member)
            && (st.subs[id].member || st'.subs[id].upto == st.subs[id].upto)
  {
    hide Receive, FanNext;
  }

  lemma {:induction false} StaysOver(st: State, acts: seq<Action>, st': State, id: SubId)
    requires Run(st, acts, st') && id in st.subs && Over(st.subs[id])
    ensures id in st'.subs && Over(st'.subs[id]) && st'.subs[id].sent == st.subs[id].sent
    ensures st'.subs[id].member <==> st.subs[id].member && Remove(id) !in acts
    ensures !st.subs[id].member ==> st'.subs[id].upto == st.subs[id].upto
    decreases |acts|
  {
    hide Enabled, Next;
    if acts != [] {
      OverKeeps(st, acts[0], id);
      if acts[0] == Remove(id) { RemovalEnds(st, id); }
      StaysOver(Next(st, acts[0]), acts[1..], st', id);
      assert acts == [acts[0]] + acts[1..];
    }
  }

  lemma RemovalEnds(st: State, id: SubId)
    requires Enabled(st, Remove(id))
    ensures var st' := Next(st, Remove(id));
            && id in st'.subs && !st'.subs[id].member && st'.subs[id].upto == |st.pub| && Over(st'.subs[id])
            && st'.subs[id].sent == st.subs[id].sent && st'.pub == st.pub
  {
  }

  /** From a failed greeting or the return of its run loop on, whatever else happens, a subscriber is sent nothing more,
      and it stays in the set, its removal still to be done, exactly until it is removed. */
  lemma LeftForGood(st: State, a: Action, acts: seq<Action>, st': State, id: SubId)
    requires Reachable(st) && Enabled(st, a) && a in {Leave(id), Greet(id, false)} && Run(Next(st, a), acts, st')
    ensures id in st'.subs && st'.subs[id].sent == st.subs[id].sent
    ensures id in Members(st') <==> Remove(id) !in acts
    ensures id in Members(st') <==> Enabled(st', Remove(id))
  {
    hide Run, FanNext, Inv;
    ReachableInv(st);
    StillIn(st, a, id);
    StaysOver(Next(st, a), acts, st', id);
  }

  lemma StillIn(st: State, a: Action, id: SubId)
    requires Inv(st) && Enabled(st, a) && a in {Leave(id), Greet(id, false)}
    ensures var st' := Next(st, a);
            id in st'.subs && st'.subs[id].member && Over(st'.subs[id]) && st'.subs[id].sent == st.subs[id].sent
  {
    hide AcceptedOk, QueueOk, NewestSafe, FanOk, Stamped, Contiguous;
    assert SubOk(st.pub, st.fan, id, st.subs[id]);
  }

  /** A removal takes the subscriber out of the set for good: in every state reached from there it is no member, no
      group published since is owed to it or put into its queue, and it is sent nothing more. */
  lemma RemovedForGood(st: State, id: SubId, acts: seq<Action>, st': State)
    requires Reachable(st) && Enabled(st, Remove(id)) && Run(Next(st, Remove(id)), acts, st')
    ensures Members(Next(st, Remove(id))) == Members(st) - {id}
    ensures id !in Members(st') && !Enabled(st', Remove(id)) && id in st'.subs
    ensures forall g: nat :: g >= |st.pub| ==> !Owes(st'.fan, g, id)
    ensures forall e :: e in st'.subs[id].accepted ==> e.gid < |st.pub|
    ensures st'.subs[id].sent == st.subs[id].sent
  {
    hide Run, Inv, Reachable, Next;
    MembersChange(st, Remove(id));
    RemovalEnds(st, id);
    ReachableStep(st, Remove(id), Next(st, Remove(id)));
    ReachableInv(Next(st, Remove(id)));
    RunKeepsInv(Next(st, Remove(id)), acts, st');
    StaysOver(Next(st, Remove(id)), acts, st', id);
    NothingSince(st', id, |st.pub|);
  }

  lemma NothingSince(st: State, id: SubId, n: nat)
    requires Inv(st) && id in st.subs && !st.subs[id].member && st.subs[id].upto == n
    ensures forall g: nat :: g >= n ==> !Owes(st.fan, g, id)
    ensures forall e :: e in st.subs[id].accepted ==> e.gid < n
  {
    hide QueueOk, NewestSafe, FanOk, Stamped, Contiguous, Owes;
    var s := st.subs[id];
    assert SubOk(st.pub, st.fan, id, s);
    forall e | e in s.accepted ensures e.gid < n {
      assert e == Entry(e.gid, e.late);
      if e.late { assert Entry(e.gid, true) in s.accepted; } else { assert Entry(e.gid, false) in s.accepted; }
    }
  }
}
