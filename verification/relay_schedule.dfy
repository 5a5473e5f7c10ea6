/** Disciplines of a relay's goroutines, each a condition on the state in which an action is taken, under which a
    subscriber is served in order. The code keeps to none of them by itself; they say what it would take. */
module RelaySchedule {
  import opened Basics
  import opened Relay
  import opened RelayInvariants
  import opened RelayTheorems
  import opened RelayChain

  datatype Discipline =
    | PublishWaits  // a group is published only when nothing is owed to the subscriber
    | RestartWaits  // a group with a lower number than the newest is
    | SendWaits     // an enqueue sends only to a queue with room

  /** Group g is still to be put into the subscriber's queue, by a fan-out or by the join. */
  predicate Owed(st: State, id: SubId, g: nat)
    requires id in st.subs
  {
    Owes(st.fan, g, id) || JoinOwes(st.subs[id], g)
  }

  ghost predicate NothingOwed(st: State, id: SubId) { id in st.subs ==> forall g: nat :: !Owed(st, id, g) }

  predicate Restarts(st: State, seqNo: nat) { st.pub != [] && seqNo < st.pub[|st.pub| - 1].seqNo }

  ghost predicate Allowed(d: Discipline, st: State, id: SubId, a: Action) {
    match d
    case PublishWaits => a.Publish? ==> NothingOwed(st, id)
    case RestartWaits => a.Publish? && Restarts(st, a.seqNo) ==> NothingOwed(st, id)
    case SendWaits =>
      (a.FanSend? && a.to == id && id in st.subs) || (a.JoinSend? && a.id == id && id in st.subs)
      ==> |st.subs[id].queue| < QUEUE_CAP
  }

  ghost predicate Obeys(d: Discipline, st: State, id: SubId, acts: seq<Action>)
    decreases |acts|
  {
    acts == []
    || (Enabled(st, acts[0]) && Allowed(d, st, id, acts[0]) && Obeys(d, Next(st, acts[0]), id, acts[1..]))
  }

  predicate GensNonDecreasing(pub: seq<Group>, entries: seq<Entry>) {
    forall i, j :: 0 <= i < j < |entries| ==> GroupAt(pub, entries[i].gid).gen <= GroupAt(pub, entries[j].gid).gen
  }

  predicate NoneDropping(fan: seq<Fan>, id: SubId) {
    forall g :: 0 <= g < |fan| ==> !(fan[g].popping && fan[g].cur == Some(id))
  }

  /** What a discipline keeps true. */
  ghost predicate Maintained(d: Discipline, st: State, id: SubId) {
    id in st.subs ==>
      var s := st.subs[id];
      match d
      case PublishWaits =>
        NonDecreasing(Gids(s.accepted)) && forall g: nat :: Owed(st, id, g) ==> g + 1 == |st.pub|
      case RestartWaits =>
        && GensNonDecreasing(st.pub, s.accepted)
        && forall g: nat :: Owed(st, id, g) ==> g < |st.pub| && st.pub[g].gen == st.gen
      case SendWaits =>
        && (forall i :: 0 <= i < |s.popped| ==> !s.popped[i].dropped)
        && s.phase != Joining(true) && NoneDropping(st.fan, id)
  }

  // ---------- What an action does to one subscriber ----------

  /** Everything the queue took comes from groups already published. */
  lemma AcceptedPublished(st: State, id: SubId)
    requires Inv(st) && id in st.subs
    ensures forall e :: e in st.subs[id].accepted ==> e.gid < |st.pub|
    ensures forall g: nat :: Owed(st, id, g) ==> g < |st.pub|
  {
    hide Fold;
    var s := st.subs[id];
    assert SubOk(st.pub, st.fan, id, s);
    forall e | e in s.accepted ensures e.gid < |st.pub| { AcceptedBelow(|st.pub|, st.fan, id, s, e); }
  }

  /** A send with room moves one group from owed to accepted, and nothing else adds to what is accepted. */
  lemma AcceptedEffect(st: State, a: Action, id: SubId)
    requires Enabled(st, a) && id in st.subs
    ensures id in Next(st, a).subs
    ensures var s, s' := st.subs[id], Next(st, a).subs[id];
            s'.accepted == s.accepted
            || (s'.accepted != [] && s'.accepted[..|s'.accepted| - 1] == s.accepted
                && Owed(st, id, s'.accepted[|s'.accepted| - 1].gid))
  {
    hide Fold;
    var s, s' := st.subs[id], Next(st, a).subs[id];
    if s'.accepted != s.accepted {
      assert a.FanSend? || a.JoinSend?;
      assert s'.accepted[..|s'.accepted| - 1] == s.accepted;
    }
  }

  /** A publish makes its group owed, reading the cached group makes that owed, and nothing else adds to what is
      owed. */
  lemma OwedEffect(st: State, a: Action, id: SubId)
    requires |st.fan| == |st.pub| && Enabled(st, a) && id in st.subs
    ensures id in Next(st, a).subs
    ensures forall g: nat :: Owed(Next(st, a), id, g) ==>
              Owed(st, id, g) || (a.Publish? && g == |st.pub|) || (!a.Publish? && g + 1 == |st.pub|)
  {
    forall g: nat | Owed(Next(st, a), id, g)
      ensures Owed(st, id, g) || (a.Publish? && g == |st.pub|) || (!a.Publish? && g + 1 == |st.pub|)
    {
      FanOwes(st, a, id, g);
      JoinEffect(st, a, id, g);
    }
  }

  lemma FanOwes(st: State, a: Action, id: SubId, g: nat)
    requires |st.fan| == |st.pub| && Enabled(st, a)
    ensures Owes(Next(st, a).fan, g, id) ==> Owes(st.fan, g, id) || (a.Publish? && g == |st.pub|)
  {
    hide SubNext;
  }

  lemma JoinEffect(st: State, a: Action, id: SubId, g: nat)
    requires Enabled(st, a) && id in st.subs
    ensures id in Next(st, a).subs
    ensures JoinOwes(Next(st, a).subs[id], g) ==>
              JoinOwes(st.subs[id], g) || (!a.Publish? && g + 1 == |st.pub|)
  {
    hide Fold, FanNext;
  }

  lemma FanPerGroup(st: State)
    requires Inv(st)
    ensures |st.fan| == |st.pub|
  {
    hide SubOk, Stamped, Contiguous;
  }

  lemma PubLength(st: State, a: Action)
    requires Enabled(st, a)
    ensures |Next(st, a).pub| == |st.pub| + if a.Publish? then 1 else 0
  {
    hide SubNext, FanNext;
  }

  lemma NotYetSubscribed(st: State, id: SubId, g: nat)
    requires Inv(st) && id !in st.subs
    ensures !Owes(st.fan, g, id)
  {
  }

  lemma Appended(before: seq<Entry>, after: seq<Entry>)
    requires after != [] && after[..|after| - 1] == before
    ensures Gids(after) == Gids(before) + [after[|after| - 1].gid]
    ensures forall e :: e in before ==> e in after
  {
  }

  // ---------- The disciplines ----------

  lemma PublishWaitsKeeps(st: State, a: Action, id: SubId)
    requires Inv(st) && Enabled(st, a) && id in st.subs
    requires Maintained(PublishWaits, st, id) && Allowed(PublishWaits, st, id, a)
    ensures Maintained(PublishWaits, Next(st, a), id)
  {
    hide Owed, Inv, NonDecreasing, Enabled, Next;
    FanPerGroup(st);
    AcceptedEffect(st, a, id);
    OwedEffect(st, a, id);
    AcceptedPublished(st, id);
    PubLength(st, a);
    var st' := Next(st, a);
    var s, s' := st.subs[id], st'.subs[id];
    if s'.accepted != s.accepted {
      var e := s'.accepted[|s'.accepted| - 1];
      Appended(s.accepted, s'.accepted);
      forall i | 0 <= i < |s.accepted| ensures Gids(s.accepted)[i] <= e.gid { assert s.accepted[i] in s.accepted; }
      NonDecreasingMore(Gids(s.accepted), e.gid);
    }
  }

  lemma RestartWaitsKeeps(st: State, a: Action, id: SubId)
    requires Inv(st) && Enabled(st, a) && id in st.subs
    requires Maintained(RestartWaits, st, id) && Allowed(RestartWaits, st, id, a)
    ensures Maintained(RestartWaits, Next(st, a), id)
  {
    hide Owed, Inv, Enabled, Next, GensNonDecreasing;
    AcceptedEffect(st, a, id);
    AcceptedPublished(st, id);
    PublishedGens(st, a);
    OwedGens(st, a, id);
    hide Allowed;
    var st' := Next(st, a);
    var s, s' := st.subs[id], st'.subs[id];
    SameGens(st.pub, st'.pub, s.accepted);
    if s'.accepted != s.accepted {
      GensMore(st.pub, st'.pub, st.gen, s.accepted, s'.accepted);
    }
  }

  /** Published groups keep their generation, none newer than the track's. */
  lemma PublishedGens(st: State, a: Action)
    requires Inv(st) && Enabled(st, a)
    ensures |st.pub| <= |Next(st, a).pub|
    ensures forall g :: 0 <= g < |st.pub| ==> Next(st, a).pub[g] == st.pub[g] && st.pub[g].gen <= st.gen
    ensures st.pub != [] ==> st.pub[|st.pub| - 1].gen == st.gen
    ensures !a.Publish? ==> Next(st, a).pub == st.pub && Next(st, a).gen == st.gen
  {
    forall g | 0 <= g < |st.pub| ensures st.pub[g].gen <= st.gen { assert LexLeq(st.pub[g], st.pub[|st.pub| - 1]); }
  }

  lemma OwedGens(st: State, a: Action, id: SubId)
    requires Inv(st) && Enabled(st, a) && id in st.subs
    requires Maintained(RestartWaits, st, id) && Allowed(RestartWaits, st, id, a)
    ensures id in Next(st, a).subs
    ensures forall g: nat :: Owed(Next(st, a), id, g) ==>
              g < |Next(st, a).pub| && Next(st, a).pub[g].gen == Next(st, a).gen
  {
    FanPerGroup(st);
    OwedEffect(st, a, id);
    PublishedGens(st, a);
    hide Owed, Inv, GensNonDecreasing;
  }

  lemma SameGens(pub: seq<Group>, pub': seq<Group>, entries: seq<Entry>)
    requires |pub| <= |pub'| && forall g :: 0 <= g < |pub| ==> pub'[g] == pub[g]
    requires forall e :: e in entries ==> e.gid < |pub|
    ensures GensNonDecreasing(pub', entries) == GensNonDecreasing(pub, entries)
  {
    assert forall i :: 0 <= i < |entries| ==>
             entries[i] in entries && GroupAt(pub', entries[i].gid) == GroupAt(pub, entries[i].gid);
  }

  lemma GensMore(pub: seq<Group>, pub': seq<Group>, gen: nat, before: seq<Entry>, after: seq<Entry>)
    requires |pub| <= |pub'| && forall g :: 0 <= g < |pub| ==> pub'[g] == pub[g] && pub[g].gen <= gen
    requires after != [] && after[..|after| - 1] == before && GensNonDecreasing(pub', before)
    requires forall e :: e in before ==> e.gid < |pub|
    requires var g := after[|after| - 1].gid; g < |pub| && pub[g].gen == gen
    ensures GensNonDecreasing(pub', after)
  {
    var n := |before|;
    forall i, j | 0 <= i < j < |after|
      ensures GroupAt(pub', after[i].gid).gen <= GroupAt(pub', after[j].gid).gen
    {
      assert after[i] == before[i] && before[i] in before;
      if j < n { assert after[j] == before[j]; }
    }
  }

  lemma SendWaitsKeeps(st: State, a: Action, id: SubId)
    requires Inv(st) && Enabled(st, a) && id in st.subs
    requires Maintained(SendWaits, st, id) && Allowed(SendWaits, st, id, a)
    ensures Maintained(SendWaits, Next(st, a), id)
  {
    hide Fold, Inv;
  }

  lemma NewcomerKeeps(d: Discipline, st: State, a: Action, id: SubId)
    requires Inv(st) && Enabled(st, a) && id !in st.subs
    ensures Maintained(d, Next(st, a), id)
  {
    hide Fold;
    forall g: nat ensures !Owes(st.fan, g, id) { NotYetSubscribed(st, id, g); }
  }

  lemma StepKeeps(d: Discipline, st: State, a: Action, id: SubId)
    requires Inv(st) && Enabled(st, a) && Maintained(d, st, id) && Allowed(d, st, id, a)
    ensures Maintained(d, Next(st, a), id)
  {
    hide Maintained, Allowed, Inv, Enabled, Next;
    if id !in st.subs {
      NewcomerKeeps(d, st, a, id);
    } else {
      match d
      case PublishWaits => PublishWaitsKeeps(st, a, id);
      case RestartWaits => RestartWaitsKeeps(st, a, id);
      case SendWaits => SendWaitsKeeps(st, a, id);
    }
  }

  lemma {:induction false} RunKeeps(d: Discipline, st: State, acts: seq<Action>, st': State, id: SubId)
    requires Inv(st) && Run(st, acts, st') && Obeys(d, st, id, acts) && Maintained(d, st, id)
    ensures Maintained(d, st', id)
    decreases |acts|
  {
    hide Maintained, Allowed, Inv;
    if acts != [] {
      StepKeeps(d, st, acts[0], id);
      StepKeepsInv(st, acts[0]);
      RunKeeps(d, Next(st, acts[0]), acts[1..], st', id);
    }
  }

  lemma FromInit(d: Discipline, acts: seq<Action>, st: State, id: SubId)
    requires Run(Init(), acts, st) && Obeys(d, Init(), id, acts)
    ensures Maintained(d, st, id) && Reachable(st) && Inv(st)
  {
    RunKeeps(d, Init(), acts, st, id);
    ReachableInv(st);
  }

  // ---------- What they ensure ----------

  /** If no group is published while one is owed to the subscriber, its queue takes the groups in publish order. */
  lemma PublishWhenNothingOwed(acts: seq<Action>, st: State, id: SubId)
    requires Run(Init(), acts, st) && Obeys(PublishWaits, Init(), id, acts) && id in st.subs
    ensures InOrder(st, id)
  {
    FromInit(PublishWaits, acts, st, id);
  }

  /** If no enqueue to the subscriber finds its queue full, nothing is dropped. */
  lemma SendWhenThereIsRoom(acts: seq<Action>, st: State, id: SubId)
    requires Run(Init(), acts, st) && Obeys(SendWaits, Init(), id, acts) && id in st.subs
    ensures NoDrops(st, id)
  {
    FromInit(SendWaits, acts, st, id);
  }

  /** Both together: whatever else interleaves, once nothing is pending the hop has delivered exactly what was published
      since the first group offered, repeats merged. */
  lemma DisciplinedHopDelivers(acts: seq<Action>, st: State, id: SubId)
    requires Run(Init(), acts, st) && Quiet(st, id)
    requires Obeys(PublishWaits, Init(), id, acts) && Obeys(SendWaits, Init(), id, acts)
    ensures FirstOffered(st.subs[id]) <= |st.pub|
    ensures Delivered(st, id) == Collapse(Published(st)[FirstOffered(st.subs[id])..])
  {
    hide Delivered, Collapse, Published, FirstOffered, Obeys, Run, InOrder, NoDrops;
    PublishWhenNothingOwed(acts, st, id);
    SendWhenThereIsRoom(acts, st, id);
    assert Reachable(st);
    HopDelivers(st, id);
  }

  /** A relay with the run that led to its state. */
  datatype Disciplined = Disciplined(relay: Relayed, acts: seq<Action>)

  /** The relay's run obeys both disciplines, is over for the subscriber, and offered it everything published. */
  ghost predicate Obedient(d: Disciplined) {
    var r := d.relay;
    && Run(Init(), d.acts, r.st) && Quiet(r.st, r.id)
    && Obeys(PublishWaits, Init(), r.id, d.acts) && Obeys(SendWaits, Init(), r.id, d.acts)
    && r.st.pub != [] && FirstOffered(r.st.subs[r.id]) == 0
  }

  function Relays(ds: seq<Disciplined>): (rs: seq<Relayed>)
    ensures |rs| == |ds| && forall i :: 0 <= i < |rs| ==> rs[i] == ds[i].relay
  {
    seq(|ds|, i requires 0 <= i < |ds| => ds[i].relay)
  }

  lemma ObedientHop(d: Disciplined)
    requires Obedient(d)
    ensures HopOk(d.relay) && NoDrops(d.relay.st, d.relay.id)
  {
    hide Obeys, Run, InOrder, NoDrops, FirstOffered;
    PublishWhenNothingOwed(d.acts, d.relay.st, d.relay.id);
    SendWhenThereIsRoom(d.acts, d.relay.st, d.relay.id);
    assert Reachable(d.relay.st);
  }

  /** A chain of relays whose runs obey both disciplines delivers exactly what was published, adjacent repeats
      merged. */
  lemma DisciplinedChainDelivers(ds: seq<Disciplined>)
    requires ds != [] && forall i :: 0 <= i < |ds| ==> ds[i].relay.id in ds[i].relay.st.subs && Obedient(ds[i])
    requires forall i :: 0 < i < |ds| ==> Published(ds[i].relay.st) == Outcome(ds[i - 1].relay)
    ensures Outcome(ds[|ds| - 1].relay) == Collapse(Published(ds[0].relay.st))
  {
    hide Obeys, Run, Published, Delivered, Collapse, Reachable, InOrder, NoDrops, FirstOffered;
    forall i | 0 <= i < |ds| ensures HopOk(ds[i].relay) && NoDrops(ds[i].relay.st, ds[i].relay.id) {
      ObedientHop(ds[i]);
    }
    ChainDelivers(Relays(ds));
  }

  /** If no number lower than the newest is published while a group is owed to the subscriber, what it is sent increases
      lexicographically by generation and number, in every interleaving and through any number of restarts. */
  lemma RestartWhenNothingOwed(acts: seq<Action>, st: State, id: SubId)
    requires Run(Init(), acts, st) && Obeys(RestartWaits, Init(), id, acts) && id in st.subs
    ensures LexSent(st, id)
  {
    FromInit(RestartWaits, acts, st, id);
    hide Run, Obeys, Reachable;
    var s := st.subs[id];
    PoppedAccepted(st, id);
    KeptGensRise(st.pub, s.popped);
    AcrossGenerations(st, id);
  }

  lemma PoppedAccepted(st: State, id: SubId)
    requires Inv(st) && id in st.subs && GensNonDecreasing(st.pub, st.subs[id].accepted)
    ensures GensNonDecreasing(st.pub, Entries(st.subs[id].popped))
  {
    hide Fold;
    var s := st.subs[id];
    assert SubOk(st.pub, st.fan, id, s);
    assert forall i :: 0 <= i < |s.popped| ==> s.accepted[i] == s.popped[i].entry;
  }

  lemma {:induction false} KeptGensRise(pub: seq<Group>, popped: seq<Pop>)
    requires GensNonDecreasing(pub, Entries(popped))
    ensures GensRise(Groups(pub, Kept(popped)))
    decreases |popped|
  {
    if popped != [] {
      var init, p := popped[..|popped| - 1], popped[|popped| - 1];
      assert forall i :: 0 <= i < |init| ==> Entries(init)[i] == Entries(popped)[i];
      KeptGensRise(pub, init);
      if !p.dropped {
        var before := Kept(init);
        GroupsMore(pub, before, p.entry.gid);
        if before != [] {
          assert before[|before| - 1] in before;
          var k :| 0 <= k < |init| && init[k].entry.gid == before[|before| - 1];
          assert Entries(popped)[k].gid == before[|before| - 1] && Entries(popped)[|init|] == p.entry;
        }
        GensRiseMore(Groups(pub, before), GroupAt(pub, p.entry.gid));
      }
    }
  }
}
