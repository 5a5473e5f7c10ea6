/** When the order of what a subscriber is sent, across generations, is safe from here on, read off the state:
    its run loop's cursor, its queue and the fan-outs that still owe it a group. */
module RelayOrder {
  import opened Basics
  import opened Relay
  import opened RelayInvariants
  import opened RelayTheorems
  import opened RelayChain

  predicate NoPublish(acts: seq<Action>) { forall i :: 0 <= i < |acts| ==> !acts[i].Publish? }

  /** However the fan-outs, the run loop and the other subscribers interleave from here, as long as nothing more is
      published, what the subscriber is sent increases lexicographically. */
  ghost predicate SafeFromHere(st: State, id: SubId) {
    forall acts, st' :: Run(st, acts, st') && NoPublish(acts) ==> id in st'.subs && LexSent(st', id)
  }

  /** The group sent last, if any, and the groups in the queue. */
  function Ahead(pub: seq<Group>, s: Sub): seq<Group> {
    (if s.cursor.started then [Group(s.cursor.seqNo, s.cursor.gen)] else []) + Groups(pub, Gids(s.queue))
  }

  /** The owed groups are of one generation, not below the last of those before them. */
  ghost predicate OwedFits(pub: seq<Group>, fan: seq<Fan>, id: SubId, line: seq<Group>) {
    && (forall g: nat :: Owes(fan, g, id) && line != [] ==> line[|line| - 1].gen <= GroupAt(pub, g).gen)
    && (forall g: nat, h: nat :: Owes(fan, g, id) && Owes(fan, h, id) ==> GroupAt(pub, g).gen == GroupAt(pub, h).gen)
  }

  /** The generations from the cursor along the queue do not fall, and the owed groups fit behind them. */
  ghost predicate Settled(st: State, id: SubId)
    requires id in st.subs
  {
    var line := Ahead(st.pub, st.subs[id]);
    GensRise(line) && OwedFits(st.pub, st.fan, id, line)
  }

  // ---------- All that run has taken or will take from the queue ----------

  /** The groups run took from the queue and those still in it. */
  function TakenAndQueued(s: Sub): seq<nat> { Kept(s.popped) + Gids(s.queue) }

  /** As Settled, but of everything ever taken. */
  ghost predicate Fits(pub: seq<Group>, fan: seq<Fan>, id: SubId, s: Sub) {
    var line := Groups(pub, TakenAndQueued(s));
    GensRise(line) && OwedFits(pub, fan, id, line)
  }

  lemma GroupsConcat(pub: seq<Group>, xs: seq<nat>, ys: seq<nat>)
    ensures Groups(pub, xs + ys) == Groups(pub, xs) + Groups(pub, ys)
  {
  }

  lemma GensRiseConcat(xs: seq<Group>, ys: seq<Group>)
    ensures GensRise(xs + ys) <==>
              GensRise(xs) && GensRise(ys) && (xs != [] && ys != [] ==> xs[|xs| - 1].gen <= ys[0].gen)
  {
    var all := xs + ys;
    if GensRise(all) {
      forall i | 0 < i < |xs| ensures xs[i - 1].gen <= xs[i].gen { assert all[i - 1].gen <= all[i].gen; }
      forall i | 0 < i < |ys| ensures ys[i - 1].gen <= ys[i].gen {
        assert all[|xs| + i - 1].gen <= all[|xs| + i].gen;
      }
      if xs != [] && ys != [] { assert all[|xs| - 1].gen <= all[|xs|].gen; }
    }
  }

  /** In order so far, the cursor stands for all that was taken. */
  lemma SettledIsFits(st: State, id: SubId)
    requires Reachable(st) && id in st.subs
    ensures LexSent(st, id) && Settled(st, id) <==> Fits(st.pub, st.fan, id, st.subs[id])
  {
    hide Reachable, Kept, Fold, LexSent, GensRise, Owes;
    AcrossGenerations(st, id);
    CursorStands(st, id);
    var s := st.subs[id];
    var kept, queue := Groups(st.pub, Kept(s.popped)), Groups(st.pub, Gids(s.queue));
    var cursor := if s.cursor.started then [Group(s.cursor.seqNo, s.cursor.gen)] else [];
    GroupsConcat(st.pub, Kept(s.popped), Gids(s.queue));
    GensRiseConcat(kept, queue);
    GensRiseConcat(cursor, queue);
    assert GensRise(cursor) by { OneRises(cursor); }
    assert Groups(st.pub, TakenAndQueued(s)) == kept + queue && Ahead(st.pub, s) == cursor + queue;
  }

  lemma OneRises(xs: seq<Group>)
    requires |xs| <= 1
    ensures GensRise(xs)
  {
  }

  lemma CursorStands(st: State, id: SubId)
    requires Reachable(st) && id in st.subs
    ensures var s := st.subs[id];
            var kept := Groups(st.pub, Kept(s.popped));
            (s.cursor.started <==> kept != []) && (kept != [] ==> kept[|kept| - 1].gen == s.cursor.gen)
  {
    hide Reachable, Fold, Kept, GensRise;
    ReachableInv(st);
    assert SubOk(st.pub, st.fan, id, st.subs[id]);
    SentGens(st.pub, st.subs[id].popped);
  }

  // ---------- The condition is kept by every step but a publish ----------

  predicate Served(s: Sub) { s.phase == Running || s.phase == Quit }

  /** Nothing changed in what was taken and queued, an owed group was put, or the oldest entry was taken out. */
  ghost predicate Moved(s: Sub, s': Sub, owed: bool, g: nat) {
    || (s'.popped == s.popped && s'.queue == s.queue)
    || (owed && s'.popped == s.popped && s'.queue == s.queue + [Entry(g, false)])
    || (s.queue != [] && s'.queue == s.queue[1..]
        && exists dropped :: s'.popped == s.popped + [Pop(s.queue[0], dropped)])
  }

  /** What a step other than a publish does to a served subscriber: one of these, and it owes it nothing new. */
  lemma SubEffect(st: State, a: Action, id: SubId)
    requires Inv(st) && Enabled(st, a) && !a.Publish? && id in st.subs && Served(st.subs[id])
    ensures var st' := Next(st, a);
            && id in st'.subs && Served(st'.subs[id]) && st'.pub == st.pub
            && Moved(st.subs[id], st'.subs[id], a.FanSend? && Owes(st.fan, a.gid, id), if a.FanSend? then a.gid else 0)
    ensures forall h: nat :: Owes(Next(st, a).fan, h, id) ==> Owes(st.fan, h, id)
  {
    hide Fold, SubOk, Stamped, Contiguous;
  }

  lemma KeptMore(popped: seq<Pop>, p: Pop)
    ensures Kept(popped + [p]) == if p.dropped then Kept(popped) else Kept(popped) + [p.entry.gid]
  {
    assert (popped + [p])[..|popped|] == popped;
  }

  lemma OneLess(xs: seq<Group>, k: nat)
    requires k < |xs| && GensRise(xs)
    ensures var ys := xs[..k] + xs[k + 1..];
            GensRise(ys) && (ys != [] ==> ys[|ys| - 1].gen <= xs[|xs| - 1].gen)
  {
    var ys := xs[..k] + xs[k + 1..];
    assert forall i :: 0 <= i < |ys| ==> ys[i] == if i < k then xs[i] else xs[i + 1];
    if 0 < k < |xs| - 1 { assert xs[k - 1].gen <= xs[k].gen <= xs[k + 1].gen; }
  }

  /** The groups after a step that takes the oldest entry out. */
  lemma LineShorter(popped: seq<Pop>, queue: seq<Entry>, dropped: bool)
    requires queue != []
    ensures var before, n := Kept(popped) + Gids(queue), |Kept(popped)|;
            Kept(popped + [Pop(queue[0], dropped)]) + Gids(queue[1..])
            == if dropped then before[..n] + before[n + 1..] else before
  {
    hide Kept;
    KeptMore(popped, Pop(queue[0], dropped));
    GidsTail(queue);
    hide Gids;
    FirstOut(Kept(popped), Gids(queue));
  }

  lemma GidsTail(queue: seq<Entry>)
    requires queue != []
    ensures Gids(queue) != [] && Gids(queue)[0] == queue[0].gid && Gids(queue[1..]) == Gids(queue)[1..]
  {
  }

  lemma FirstOut(xs: seq<nat>, ys: seq<nat>)
    requires ys != []
    ensures (xs + [ys[0]]) + ys[1..] == xs + ys
    ensures (xs + ys)[..|xs|] + (xs + ys)[|xs| + 1..] == xs + ys[1..]
  {
  }

  lemma FitsLess(pub: seq<Group>, fan: seq<Fan>, fan': seq<Fan>, id: SubId, line: seq<nat>, k: nat)
    requires k < |line| && GensRise(Groups(pub, line)) && OwedFits(pub, fan, id, Groups(pub, line))
    requires forall h: nat :: Owes(fan', h, id) ==> Owes(fan, h, id)
    ensures var less := Groups(pub, line[..k] + line[k + 1..]); GensRise(less) && OwedFits(pub, fan', id, less)
  {
    hide GensRise, Owes;
    OneLess(Groups(pub, line), k);
    assert Groups(pub, line[..k] + line[k + 1..]) == Groups(pub, line)[..k] + Groups(pub, line)[k + 1..];
  }

  lemma FitsMore(pub: seq<Group>, fan: seq<Fan>, fan': seq<Fan>, id: SubId, line: seq<nat>, g: nat)
    requires GensRise(Groups(pub, line)) && OwedFits(pub, fan, id, Groups(pub, line)) && Owes(fan, g, id)
    requires forall h: nat :: Owes(fan', h, id) ==> Owes(fan, h, id)
    ensures var more := Groups(pub, line + [g]); GensRise(more) && OwedFits(pub, fan', id, more)
  {
    hide GensRise, Owes;
    GroupsMore(pub, line, g);
    GensRiseMore(Groups(pub, line), GroupAt(pub, g));
  }

  lemma LineMoved(s: Sub, s': Sub, owed: bool, g: nat)
    requires Moved(s, s', owed, g)
    ensures var before, after, n := TakenAndQueued(s), TakenAndQueued(s'), |Kept(s.popped)|;
            || after == before
            || (owed && after == before + [g])
            || (n < |before| && after == before[..n] + before[n + 1..])
  {
    hide Kept;
    if s'.popped == s.popped {
      if s'.queue != s.queue { assert Gids(s'.queue) == Gids(s.queue) + [g]; }
    } else {
      var dropped :| s'.popped == s.popped + [Pop(s.queue[0], dropped)];
      LineShorter(s.popped, s.queue, dropped);
    }
  }

  lemma FitsMoved(pub: seq<Group>, fan: seq<Fan>, fan': seq<Fan>, id: SubId, s: Sub, s': Sub, owed: bool, g: nat)
    requires Moved(s, s', owed, g) && (owed ==> Owes(fan, g, id))
    requires forall h: nat :: Owes(fan', h, id) ==> Owes(fan, h, id)
    requires Fits(pub, fan, id, s)
    ensures Fits(pub, fan', id, s')
  {
    LineMoved(s, s', owed, g);
    hide Moved, TakenAndQueued, GensRise, OwedFits, Owes, Kept;
    var line, line', n := TakenAndQueued(s), TakenAndQueued(s'), |Kept(s.popped)|;
    OwedFewer(pub, fan, fan', id, Groups(pub, line));
    if owed && line' == line + [g] {
      FitsMore(pub, fan, fan', id, line, g);
    } else if line' != line {
      FitsLess(pub, fan, fan', id, line, n);
    }
  }

  lemma FitsKept(st: State, a: Action, id: SubId)
    requires Inv(st) && Enabled(st, a) && !a.Publish? && id in st.subs && Served(st.subs[id])
    requires Fits(st.pub, st.fan, id, st.subs[id])
    ensures var st' := Next(st, a);
            id in st'.subs && Served(st'.subs[id]) && Fits(st'.pub, st'.fan, id, st'.subs[id])
  {
    SubEffect(st, a, id);
    hide Inv, Enabled, Next, Owes, Served, Moved, Fits;
    var st' := Next(st, a);
    FitsMoved(st.pub, st.fan, st'.fan, id, st.subs[id], st'.subs[id],
              a.FanSend? && Owes(st.fan, a.gid, id), if a.FanSend? then a.gid else 0);
  }

  lemma OwedFewer(pub: seq<Group>, fan: seq<Fan>, fan': seq<Fan>, id: SubId, line: seq<Group>)
    requires OwedFits(pub, fan, id, line) && forall h: nat :: Owes(fan', h, id) ==> Owes(fan, h, id)
    ensures OwedFits(pub, fan', id, line)
  {
    hide Owes;
  }

  lemma {:induction false} FitsForEver(st: State, acts: seq<Action>, st': State, id: SubId)
    requires Reachable(st) && Run(st, acts, st') && NoPublish(acts)
    requires id in st.subs && Served(st.subs[id]) && Fits(st.pub, st.fan, id, st.subs[id])
    ensures id in st'.subs && LexSent(st', id)
    decreases |acts|
  {
    hide Inv, Reachable, Enabled, Next, Served, Fits, LexSent;
    if acts == [] {
      SettledIsFits(st, id);
    } else {
      ReachableInv(st);
      FitsKept(st, acts[0], id);
      ReachableStep(st, acts[0], Next(st, acts[0]));
      FitsForEver(Next(st, acts[0]), acts[1..], st', id);
    }
  }

  // ---------- Where the condition fails, some run breaks the order ----------

  /** Some run without a publish breaks the order. */
  ghost predicate Breaks(st: State, id: SubId) {
    exists acts, st' :: Run(st, acts, st') && NoPublish(acts) && id in st'.subs && !LexSent(st', id)
  }

  lemma BreaksBefore(st: State, a: Action, id: SubId)
    requires Enabled(st, a) && !a.Publish? && Breaks(Next(st, a), id)
    ensures Breaks(st, id)
  {
    hide Enabled, Next, LexSent;
    var acts, st' :| Run(Next(st, a), acts, st') && NoPublish(acts) && id in st'.subs && !LexSent(st', id);
    assert ([a] + acts)[1..] == acts;
    assert Run(st, [a] + acts, st');
  }

  lemma BreaksNow(st: State, id: SubId)
    requires id in st.subs && !LexSent(st, id)
    ensures Breaks(st, id)
  {
    hide LexSent;
    assert Run(st, [], st);
  }

  /** Taking the oldest entry out of the queue. */
  lemma ConsumeOne(st: State, id: SubId)
    requires Reachable(st) && id in st.subs && st.subs[id].phase == Running && st.subs[id].queue != []
    ensures Enabled(st, Consume(id)) && Reachable(Next(st, Consume(id)))
    ensures var st' := Next(st, Consume(id));
            && st'.pub == st.pub && st'.fan == st.fan && id in st'.subs && st'.subs[id].phase == Running
            && st'.subs[id].queue == st.subs[id].queue[1..]
            && TakenAndQueued(st'.subs[id]) == TakenAndQueued(st.subs[id])
  {
    hide Reachable, Kept;
    var s := st.subs[id];
    ReachableStep(st, Consume(id), Next(st, Consume(id)));
    LineShorter(s.popped, s.queue, false);
  }

  /** If generations fall along what was taken and queued, emptying the queue breaks the order. */
  lemma {:induction false} FallingBreaks(st: State, id: SubId)
    requires Reachable(st) && id in st.subs && st.subs[id].phase == Running
    requires !GensRise(Groups(st.pub, TakenAndQueued(st.subs[id])))
    ensures Breaks(st, id)
    decreases |st.subs[id].queue|
  {
    hide Reachable, Breaks, GensRise, LexSent, Kept, Enabled, Next;
    var s := st.subs[id];
    if s.queue == [] {
      assert TakenAndQueued(s) == Kept(s.popped);
      AcrossGenerations(st, id);
      BreaksNow(st, id);
    } else {
      ConsumeOne(st, id);
      FallingBreaks(Next(st, Consume(id)), id);
      BreaksBefore(st, Consume(id), id);
    }
  }

  /** The fan-out of g can send to the subscriber next. */
  predicate Free(fan: seq<Fan>, g: nat, id: SubId) {
    g < |fan| && id in fan[g].todo && !fan[g].popping && (fan[g].cur == None || fan[g].cur == Some(id))
  }

  /** Nothing changed for the subscriber. */
  ghost predicate Alike(st: State, st': State, id: SubId) {
    && st'.pub == st.pub && id in st.subs && id in st'.subs && st'.subs[id] == st.subs[id]
    && forall h: nat :: Owes(st'.fan, h, id) <==> Owes(st.fan, h, id)
  }

  /** A step of the fan-out of g towards freeing it: it drops, or sends to the subscriber it is busy with. */
  function Freeing(fan: seq<Fan>, g: nat): Action
    requires g < |fan| && fan[g].cur.Some?
  {
    if fan[g].popping then FanDrop(g) else FanSend(g, fan[g].cur.value)
  }

  /** How far the fan-out of g is from being free: a full queue takes a send, a drop and a send. */
  function Distance(st: State, g: nat): nat
    requires g < |st.fan| && st.fan[g].cur.Some? && st.fan[g].cur.value in st.subs
  {
    if st.fan[g].popping then 2 else if |st.subs[st.fan[g].cur.value].queue| < QUEUE_CAP then 1 else 3
  }

  lemma BusyFan(st: State, g: nat, id: SubId)
    requires Inv(st) && Owes(st.fan, g, id) && !Free(st.fan, g, id)
    ensures id in st.subs && g < |st.fan| && st.fan[g].cur.Some? && st.fan[g].cur.value in st.subs
    ensures Enabled(st, Freeing(st.fan, g)) && |st.subs[st.fan[g].cur.value].queue| <= QUEUE_CAP
    ensures st.fan[g].cur == Some(id) ==> st.fan[g].popping
  {
    hide Fold, Stamped, Contiguous, AcceptedOk, PhaseOk, NewestSafe;
    assert SubOk(st.pub, st.fan, st.fan[g].cur.value, st.subs[st.fan[g].cur.value]);
  }

  lemma DropFrees(st: State, g: nat, id: SubId)
    requires Enabled(st, FanDrop(g)) && id in st.subs && st.subs[id].queue == []
    requires |st.subs[st.fan[g].cur.value].queue| <= QUEUE_CAP
    ensures var st' := Next(st, FanDrop(g));
            && Alike(st, st', id) && g < |st'.fan| && !st'.fan[g].popping && st'.fan[g].cur == st.fan[g].cur
            && st'.fan[g].cur.value in st'.subs && |st'.subs[st'.fan[g].cur.value].queue| < QUEUE_CAP
  {
    var s := st.subs[st.fan[g].cur.value];
    assert |DropOldest(s).queue| < QUEUE_CAP;
  }

  lemma SendFrees(st: State, g: nat, o: SubId, id: SubId)
    requires Enabled(st, FanSend(g, o)) && o != id && id in st.subs
    ensures var st' := Next(st, FanSend(g, o));
            && Alike(st, st', id) && g < |st'.fan| && o in st'.subs
            && st'.fan[g].popping == (|st.subs[o].queue| >= QUEUE_CAP)
            && st'.fan[g].cur == if |st.subs[o].queue| < QUEUE_CAP then None else Some(o)
  {
    hide Push;
  }

  lemma FreeStep(st: State, g: nat, id: SubId)
    requires Inv(st) && Owes(st.fan, g, id) && !Free(st.fan, g, id) && id in st.subs && st.subs[id].queue == []
    ensures g < |st.fan| && st.fan[g].cur.Some? && st.fan[g].cur.value in st.subs
    ensures Enabled(st, Freeing(st.fan, g))
    ensures var st' := Next(st, Freeing(st.fan, g));
            && Alike(st, st', id)
            && (Free(st'.fan, g, id)
                || (g < |st'.fan| && st'.fan[g].cur.Some? && st'.fan[g].cur.value in st'.subs
                    && Distance(st', g) < Distance(st, g)))
  {
    hide Inv, Next;
    BusyFan(st, g, id);
    var o := st.fan[g].cur.value;
    if st.fan[g].popping { DropFrees(st, g, id); } else { SendFrees(st, g, o, id); }
  }

  function FreeingCost(st: State, g: nat): nat {
    if g < |st.fan| && st.fan[g].cur.Some? && st.fan[g].cur.value in st.subs then Distance(st, g) else 0
  }

  /** Let the fan-out of g finish with the subscriber it is busy with. */
  lemma {:induction false} Freed(st: State, g: nat, id: SubId) returns (st': State)
    requires Reachable(st) && id in st.subs && st.subs[id].queue == [] && Owes(st.fan, g, id)
    ensures Reachable(st') && Alike(st, st', id) && Free(st'.fan, g, id) && (Breaks(st', id) ==> Breaks(st, id))
    decreases FreeingCost(st, g)
  {
    hide Reachable, Breaks, Enabled, Next, Inv, Free, Owes;
    ReachableInv(st);
    st' := st;
    if !Free(st.fan, g, id) {
      FreeStep(st, g, id);
      var a := Freeing(st.fan, g);
      var mid := Next(st, a);
      ReachableStep(st, a, mid);
      st' := mid;
      if !Free(mid.fan, g, id) { st' := Freed(mid, g, id); }
      if Breaks(st', id) { BreaksBefore(st, a, id); }
    }
  }

  /** Then it sends its group to this subscriber, whose queue has room. */
  lemma SentNext(st: State, g: nat, id: SubId) returns (st': State)
    requires Reachable(st) && id in st.subs && st.subs[id].phase == Running && st.subs[id].queue == []
    requires Owes(st.fan, g, id)
    ensures Reachable(st') && st'.pub == st.pub && id in st'.subs && st'.subs[id].phase == Running
    ensures TakenAndQueued(st'.subs[id]) == TakenAndQueued(st.subs[id]) + [g]
    ensures forall h: nat :: h != g && Owes(st.fan, h, id) ==> Owes(st'.fan, h, id)
    ensures Breaks(st', id) ==> Breaks(st, id)
  {
    hide Reachable, Breaks, Kept;
    var mid := Freed(st, g, id);
    SendPuts(mid, g, id);
    st' := Next(mid, FanSend(g, id));
    ReachableStep(mid, FanSend(g, id), st');
    if Breaks(st', id) { BreaksBefore(mid, FanSend(g, id), id); }
  }

  lemma SendPuts(st: State, g: nat, id: SubId)
    requires Free(st.fan, g, id) && id in st.subs && st.subs[id].queue == []
    ensures Enabled(st, FanSend(g, id))
    ensures var st' := Next(st, FanSend(g, id));
            && st'.pub == st.pub && id in st'.subs && st'.subs[id].phase == st.subs[id].phase
            && TakenAndQueued(st'.subs[id]) == TakenAndQueued(st.subs[id]) + [g]
            && forall h: nat :: h != g && Owes(st.fan, h, id) ==> Owes(st'.fan, h, id)
  {
    hide Kept;
    var st' := Next(st, FanSend(g, id));
    assert st'.subs[id].queue == [Entry(g, false)];
    assert Gids(st'.subs[id].queue) == [g] && Gids(st.subs[id].queue) == [];
  }

  /** An owed group of an older generation than the last before it: empty the queue, then send it. */
  lemma {:induction false} OwedBelowBreaks(st: State, g: nat, id: SubId)
    requires Reachable(st) && id in st.subs && st.subs[id].phase == Running && Owes(st.fan, g, id)
    requires var line := Groups(st.pub, TakenAndQueued(st.subs[id]));
             line != [] && line[|line| - 1].gen > GroupAt(st.pub, g).gen
    ensures Breaks(st, id)
    decreases |st.subs[id].queue|
  {
    hide Reachable, Breaks, Enabled, Next, Owes, GensRise, TakenAndQueued;
    if st.subs[id].queue == [] {
      var st' := SentNext(st, g, id);
      GroupsMore(st.pub, TakenAndQueued(st.subs[id]), g);
      GensRiseMore(Groups(st.pub, TakenAndQueued(st.subs[id])), GroupAt(st.pub, g));
      FallingBreaks(st', id);
    } else {
      ConsumeOne(st, id);
      OwedBelowBreaks(Next(st, Consume(id)), g, id);
      BreaksBefore(st, Consume(id), id);
    }
  }

  /** Two owed groups of different generations: the newer can be sent first. */
  lemma {:induction false} OwedApartBreaks(st: State, g: nat, h: nat, id: SubId)
    requires Reachable(st) && id in st.subs && st.subs[id].phase == Running
    requires Owes(st.fan, g, id) && Owes(st.fan, h, id) && GroupAt(st.pub, g).gen > GroupAt(st.pub, h).gen
    ensures Breaks(st, id)
    decreases |st.subs[id].queue|
  {
    hide Reachable, Breaks, Enabled, Next, Owes, GensRise, TakenAndQueued;
    if st.subs[id].queue == [] {
      var st' := SentNext(st, g, id);
      GroupsMore(st.pub, TakenAndQueued(st.subs[id]), g);
      OwedBelowBreaks(st', h, id);
    } else {
      ConsumeOne(st, id);
      OwedApartBreaks(Next(st, Consume(id)), g, h, id);
      BreaksBefore(st, Consume(id), id);
    }
  }

  lemma UnfitBreaks(st: State, id: SubId)
    requires Reachable(st) && id in st.subs && st.subs[id].phase == Running
    requires !Fits(st.pub, st.fan, id, st.subs[id])
    ensures Breaks(st, id)
  {
    hide Reachable, Breaks, Owes, GensRise, TakenAndQueued;
    var line := Groups(st.pub, TakenAndQueued(st.subs[id]));
    if !GensRise(line) {
      FallingBreaks(st, id);
    } else if g: nat :| Owes(st.fan, g, id) && line != [] && line[|line| - 1].gen > GroupAt(st.pub, g).gen {
      OwedBelowBreaks(st, g, id);
    } else {
      var g: nat, h: nat :| Owes(st.fan, g, id) && Owes(st.fan, h, id)
                            && GroupAt(st.pub, g).gen != GroupAt(st.pub, h).gen;
      if GroupAt(st.pub, g).gen > GroupAt(st.pub, h).gen {
        OwedApartBreaks(st, g, h, id);
      } else {
        OwedApartBreaks(st, h, g, id);
      }
    }
  }

  /** For a subscriber that has been sent everything in order so far, this is exactly when the order is safe: until
      something more is published, no interleaving can break it if and only if the generations from the cursor
      along the queue do not fall and the groups owed are of one generation, none below those before it. */
  lemma OrderIsSafeIff(st: State, id: SubId)
    requires Reachable(st) && id in st.subs && st.subs[id].phase == Running && LexSent(st, id)
    ensures SafeFromHere(st, id) <==> Settled(st, id)
  {
    hide Reachable, Settled, Fits, LexSent, Run;
    SettledIsFits(st, id);
    if Settled(st, id) {
      forall acts, st' | Run(st, acts, st') && NoPublish(acts) ensures id in st'.subs && LexSent(st', id) {
        FitsForEver(st, acts, st', id);
      }
    } else {
      UnfitBreaks(st, id);
    }
  }
}
