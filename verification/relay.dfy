/** The relay's publish and subscribe protocol on one track (internal/relay/relay.go) as a step system.

    The state is the track (publisher generation, newest group, subscriber set), the fan-out of each
    published group, and each subscriber with its bounded queue and the cursor of its run loop. Each action
    is one lock region or one channel operation of the source: publishGroup enqueues after it has released
    the track lock, so fan-outs of different groups, late joins and consumers interleave freely. */
module Relay {
  import opened Basics

  const QUEUE_CAP: nat := 3

  type SubId = nat

  /** A published group. Its identity is its position in the publish order, its gid. */
  datatype Group = Group(seqNo: nat, gen: nat)

  /** One call of enqueue: by the fan-out of the group, or by a late join that was handed it. */
  datatype Entry = Entry(gid: nat, late: bool)

  /** A group leaving a queue, to the run loop or dropped. */
  datatype Pop = Pop(entry: Entry, dropped: bool)

  /** Progress of handleSubscriber, then of run, for one subscriber. */
  datatype Phase =
    | Added                   // in the track's set; live not read yet
    | Greeting                // live read; SUBSCRIBE_OK not written yet
    | Joining(popping: bool)  // in enqueue(live); popping: the send found the queue full
    | Running                 // run loop started
    | Quit                    // run returned; removeSub not done yet
    | Refused                 // SUBSCRIBE_OK failed; removeSub not done yet

  /** run's started, lastGen and last. */
  datatype Cursor = Cursor(started: bool, gen: nat, seqNo: nat)

  /** One subscriber. from and upto are the lengths of the publish order at addSub and removeSub; accepted
      is every entry the queue took and popped every entry that left it, in order; sent is the groups run
      went on to write. */
  datatype Sub = Sub(phase: Phase, member: bool, from: nat, upto: nat, live: Option<nat>,
                     queue: seq<Entry>, accepted: seq<Entry>, popped: seq<Pop>,
                     cursor: Cursor, sent: seq<nat>)

  /** What is left of one publishGroup after it released the lock. cur is the subscriber whose enqueue is
      under way after a send that found the queue full; popping: that call is about to drop. */
  datatype Fan = Fan(todo: set<SubId>, cur: Option<SubId>, popping: bool)

  datatype State = State(pub: seq<Group>, gen: nat, subs: map<SubId, Sub>, fan: seq<Fan>)

  function Init(): State { State([], 0, map[], []) }

  function Members(st: State): set<SubId> { set s | s in st.subs && st.subs[s].member }

  function GroupAt(pub: seq<Group>, gid: nat): Group {
    if gid < |pub| then pub[gid] else Group(0, 0)
  }

  /** The generation publishGroup gives a group: one more when the sequence number moved backwards. */
  function Stamp(pub: seq<Group>, gen: nat, seqNo: nat): nat {
    if pub != [] && seqNo < pub[|pub| - 1].seqNo then gen + 1 else gen
  }

  /** The filter of run. */
  predicate Stale(c: Cursor, g: Group) { c.started && g.gen == c.gen && g.seqNo <= c.seqNo }

  function Push(s: Sub, e: Entry): Sub {
    s.(queue := s.queue + [e], accepted := s.accepted + [e])
  }

  function DropOldest(s: Sub): Sub {
    if s.queue == [] then s
    else s.(queue := s.queue[1..], popped := s.popped + [Pop(s.queue[0], true)])
  }

  function Receive(pub: seq<Group>, s: Sub): Sub
    requires s.queue != []
  {
    var e := s.queue[0];
    var g := GroupAt(pub, e.gid);
    var s' := s.(queue := s.queue[1..], popped := s.popped + [Pop(e, false)]);
    if Stale(s.cursor, g) then s' else s'.(cursor := Cursor(true, g.gen, g.seqNo), sent := s.sent + [e.gid])
  }

  datatype Action =
    | Publish(seqNo: nat)
    | FanSend(gid: nat, to: SubId)
    | FanDrop(gid: nat)
    | Subscribe(id: SubId)
    | ReadLive(id: SubId)
    | Greet(id: SubId, ok: bool)
    | JoinSend(id: SubId)
    | JoinDrop(id: SubId)
    | Consume(id: SubId)
    | Leave(id: SubId)
    | Remove(id: SubId)

  predicate Enabled(st: State, a: Action) {
    match a
    case Publish(_) => true
    case FanSend(g, s) =>
      && g < |st.fan| && s in st.fan[g].todo && s in st.subs && !st.fan[g].popping
      && (st.fan[g].cur == None || st.fan[g].cur == Some(s))
    case FanDrop(g) =>
      g < |st.fan| && st.fan[g].popping && st.fan[g].cur.Some? && st.fan[g].cur.value in st.subs
    case Subscribe(s) => s !in st.subs
    case ReadLive(s) => s in st.subs && st.subs[s].phase == Added
    case Greet(s, _) => s in st.subs && st.subs[s].phase == Greeting
    case JoinSend(s) => s in st.subs && st.subs[s].phase == Joining(false) && st.subs[s].live.Some?
    case JoinDrop(s) => s in st.subs && st.subs[s].phase == Joining(true)
    case Consume(s) => s in st.subs && st.subs[s].phase == Running && st.subs[s].queue != []
    case Leave(s) => s in st.subs && st.subs[s].phase == Running
    case Remove(s) => s in st.subs && st.subs[s].member && st.subs[s].phase in {Quit, Refused}
  }

  function NewSub(from: nat): Sub {
    Sub(Added, true, from, from, None, [], [], [], Cursor(false, 0, 0), [])
  }

  /** The subscriber an action works on, after it. */
  function SubNext(st: State, a: Action, s: Sub): Sub
    requires Enabled(st, a)
    requires a.Consume? ==> s.queue != []
    requires a.JoinSend? ==> s.live.Some?
  {
    match a
    case Publish(_) => s
    case FanSend(g, _) => if |s.queue| < QUEUE_CAP then Push(s, Entry(g, false)) else s
    case FanDrop(_) => DropOldest(s)
    case Subscribe(_) => NewSub(|st.pub|)
    case ReadLive(_) =>
      s.(phase := Greeting, live := if st.pub == [] then None else Some(|st.pub| - 1))
    case Greet(_, ok) => s.(phase := if !ok then Refused else if s.live.Some? then Joining(false) else Running)
    case JoinSend(_) =>
      if |s.queue| < QUEUE_CAP then Push(s, Entry(s.live.value, true)).(phase := Running)
      else s.(phase := Joining(true))
    case JoinDrop(_) => DropOldest(s).(phase := Joining(false))
    case Consume(_) => Receive(st.pub, s)
    case Leave(_) => s.(phase := Quit)
    case Remove(_) => s.(member := false, upto := |st.pub|)
  }

  function Target(st: State, a: Action): SubId
    requires Enabled(st, a) && !a.Publish?
  {
    match a
    case FanSend(_, s) => s
    case FanDrop(g) => st.fan[g].cur.value
    case Subscribe(s) => s
    case ReadLive(s) => s
    case Greet(s, _) => s
    case JoinSend(s) => s
    case JoinDrop(s) => s
    case Consume(s) => s
    case Leave(s) => s
    case Remove(s) => s
  }

  function FanNext(st: State, a: Action): seq<Fan>
    requires Enabled(st, a)
  {
    match a
    case Publish(_) => st.fan + [Fan(Members(st), None, false)]
    case FanSend(g, s) =>
      if |st.subs[s].queue| < QUEUE_CAP then st.fan[g := Fan(st.fan[g].todo - {s}, None, false)]
      else st.fan[g := Fan(st.fan[g].todo, Some(s), true)]
    case FanDrop(g) => st.fan[g := st.fan[g].(popping := false)]
    case _ => st.fan
  }

  function Next(st: State, a: Action): State
    requires Enabled(st, a)
  {
    if a.Publish? then
      var gen := Stamp(st.pub, st.gen, a.seqNo);
      State(st.pub + [Group(a.seqNo, gen)], gen, st.subs, FanNext(st, a))
    else
      var s := Target(st, a);
      var before := if a.Subscribe? then NewSub(0) else st.subs[s];
      State(st.pub, st.gen, st.subs[s := SubNext(st, a, before)], FanNext(st, a))
  }

  /** A run: the listed actions, each enabled in turn, lead from st to st'. */
  ghost predicate Run(st: State, acts: seq<Action>, st': State)
    decreases |acts|
  {
    if acts == [] then st == st'
    else Enabled(st, acts[0]) && Run(Next(st, acts[0]), acts[1..], st')
  }

  ghost predicate Reachable(st: State) { exists acts :: Run(Init(), acts, st) }

  // ---------- Invariants ----------

  /** Lexicographic order on (generation, sequence number). */
  predicate LexLeq(a: Group, b: Group) { a.gen < b.gen || (a.gen == b.gen && a.seqNo <= b.seqNo) }

  predicate LexLess(a: Group, b: Group) { a.gen < b.gen || (a.gen == b.gen && a.seqNo < b.seqNo) }

  ghost predicate Stamped(pub: seq<Group>, gen: nat) {
    && (pub != [] ==> pub[|pub| - 1].gen == gen)
    && forall i, j :: 0 <= i <= j < |pub| ==> LexLeq(pub[i], pub[j])
  }

  /** Each restart is visible: where a sequence number repeats next to itself the generation is the same. */
  ghost predicate Contiguous(pub: seq<Group>) {
    forall i :: 0 < i < |pub| ==>
      pub[i].gen == if pub[i].seqNo < pub[i - 1].seqNo then pub[i - 1].gen + 1 else pub[i - 1].gen
  }

  function Entries(popped: seq<Pop>): (r: seq<Entry>)
    ensures |r| == |popped|
    ensures forall i :: 0 <= i < |r| ==> r[i] == popped[i].entry
  {
    seq(|popped|, i requires 0 <= i < |popped| => popped[i].entry)
  }

  /** The cursor and the sent list that run builds from what left the queue. */
  function Fold(pub: seq<Group>, popped: seq<Pop>): (Cursor, seq<nat>) {
    if popped == [] then (Cursor(false, 0, 0), [])
    else
      var before := Fold(pub, popped[..|popped| - 1]);
      var p := popped[|popped| - 1];
      var g := GroupAt(pub, p.entry.gid);
      if p.dropped || Stale(before.0, g) then before
      else (Cursor(true, g.gen, g.seqNo), before.1 + [p.entry.gid])
  }

  /** The fan-out of group g still has to enqueue to s. */
  predicate Owes(fan: seq<Fan>, g: nat, s: SubId) { g < |fan| && s in fan[g].todo }

  /** An enqueue to s has dropped or is about to, and has not yet put its own group. */
  predicate Busy(fan: seq<Fan>, g: nat, s: SubId) { g < |fan| && fan[g].cur == Some(s) }

  function Upto(n: nat, s: Sub): nat { if s.member then n else s.upto }

  predicate Joined(s: Sub) { s.phase in {Running, Quit} && s.live.Some? }

  /** Which entries the queue has taken so far, exactly. */
  ghost predicate AcceptedOk(n: nat, fan: seq<Fan>, id: SubId, s: Sub) {
    && (forall g: nat :: Entry(g, false) in s.accepted <==> s.from <= g < Upto(n, s) && !Owes(fan, g, id))
    && (forall g: nat :: Owes(fan, g, id) ==> s.from <= g < Upto(n, s))
    && (forall g: nat :: Entry(g, true) in s.accepted <==> Joined(s) && s.live == Some(g))
    && (forall i, j :: 0 <= i < j < |s.accepted| ==> s.accepted[i] != s.accepted[j])
  }

  ghost predicate PhaseOk(n: nat, s: Sub) {
    && s.from <= Upto(n, s) <= n
    && (s.phase !in {Quit, Refused} ==> s.member)
    && (s.phase == Added ==> s.live == None)
    && (s.phase.Joining? ==> s.live.Some?)
    && (s.live.Some? ==> s.live.value < Upto(n, s) && s.from <= s.live.value + 1)
    && (s.live.None? && s.phase != Added ==> s.from == 0)
  }

  ghost predicate QueueOk(pub: seq<Group>, s: Sub) {
    && |s.queue| <= QUEUE_CAP
    && s.accepted == Entries(s.popped) + s.queue
    && (s.cursor, s.sent) == Fold(pub, s.popped)
  }

  /** If the last group to leave an empty queue was dropped, the call that dropped it is still to send. */
  ghost predicate NewestSafe(fan: seq<Fan>, id: SubId, s: Sub) {
    s.queue == [] && s.popped != [] && s.popped[|s.popped| - 1].dropped ==>
      s.phase.Joining? || exists g :: Busy(fan, g, id)
  }

  ghost predicate SubOk(pub: seq<Group>, fan: seq<Fan>, id: SubId, s: Sub) {
    && AcceptedOk(|pub|, fan, id, s)
    && PhaseOk(|pub|, s)
    && QueueOk(pub, s)
    && NewestSafe(fan, id, s)
  }

  ghost predicate FanOk(st: State) {
    && |st.fan| == |st.pub|
    && forall g :: 0 <= g < |st.fan| ==>
         && st.fan[g].todo <= st.subs.Keys
         && (st.fan[g].popping ==> st.fan[g].cur.Some?)
         && (st.fan[g].cur.Some? ==> st.fan[g].cur.value in st.fan[g].todo)
  }

  ghost predicate Inv(st: State) {
    && Stamped(st.pub, st.gen)
    && Contiguous(st.pub)
    && FanOk(st)
    && forall id :: id in st.subs ==> SubOk(st.pub, st.fan, id, st.subs[id])
  }
}
