/** One group's object log (groupBuffer in internal/relay/relay.go): a single producer appends, any number of
    subscriber writers stream it out, and a condition variable wakes the writers that ran ahead.

    Each action is one lock region of the source, or the Broadcast that append and close make after they
    have released the lock. sync.Cond.Wait queues the waiter before it releases the lock, so the check that
    finds nothing to read and the start of the wait are one action. */
module RelayLog {

  datatype Status = Running | Waiting | Ended | Broken

  /** A writer: the objects it got from next so far, and whether it is inside cond.Wait. */
  datatype Writer<T> = Writer(got: seq<T>, status: Status)

  /** owed: the producer has changed the log and not yet broadcast. */
  datatype Log<T> = Log(objs: seq<T>, closed: bool, owed: bool, writers: map<nat, Writer<T>>)

  datatype Action<T> =
    | Append(obj: T)
    | Close
    | Broadcast
    | Attach(id: nat)
    | Poll(id: nat)
    | WriteError(id: nat)

  function Empty<T>(): Log<T> { Log([], false, false, map[]) }

  predicate Enabled<T>(s: Log<T>, a: Action<T>) {
    match a
    case Append(_) => !s.closed && !s.owed
    case Close => !s.closed && !s.owed
    case Broadcast => s.owed
    case Attach(id) => id !in s.writers
    case Poll(id) => id in s.writers && s.writers[id].status == Running
    case WriteError(id) => id in s.writers && s.writers[id].status == Running
  }

  /** next(len(got)) up to its return or its wait. */
  function Polled<T>(s: Log<T>, w: Writer<T>): Writer<T> {
    if |w.got| < |s.objs| then w.(got := w.got + [s.objs[|w.got|]])
    else if s.closed then w.(status := Ended)
    else w.(status := Waiting)
  }

  function Woken<T>(w: Writer<T>): Writer<T> {
    if w.status == Waiting then w.(status := Running) else w
  }

  function Next<T>(s: Log<T>, a: Action<T>): Log<T>
    requires Enabled(s, a)
  {
    match a
    case Append(x) => s.(objs := s.objs + [x], owed := true)
    case Close => s.(closed := true, owed := true)
    case Broadcast => s.(owed := false, writers := map id | id in s.writers :: Woken(s.writers[id]))
    case Attach(id) => s.(writers := s.writers[id := Writer([], Running)])
    case Poll(id) => s.(writers := s.writers[id := Polled(s, s.writers[id])])
    case WriteError(id) => s.(writers := s.writers[id := s.writers[id].(status := Broken)])
  }

  /** A run: the listed actions, each enabled in turn, lead from s to s'. */
  ghost predicate Run<T>(s: Log<T>, acts: seq<Action<T>>, s': Log<T>)
    decreases |acts|
  {
    if acts == [] then s == s'
    else Enabled(s, acts[0]) && Run(Next(s, acts[0]), acts[1..], s')
  }

  ghost predicate WriterOk<T>(s: Log<T>, w: Writer<T>) {
    && w.got <= s.objs
    && (w.status == Ended ==> s.closed && w.got == s.objs)
    && (w.status == Waiting && !s.owed ==> w.got == s.objs && !s.closed)
  }

  ghost predicate Inv<T>(s: Log<T>) {
    forall id :: id in s.writers ==> WriterOk(s, s.writers[id])
  }

  lemma StepKeepsInv<T>(s: Log<T>, a: Action<T>)
    requires Inv(s) && Enabled(s, a)
    ensures Inv(Next(s, a))
    ensures s.objs <= Next(s, a).objs && (s.closed ==> Next(s, a).closed && Next(s, a).objs == s.objs)
  {
    var s' := Next(s, a);
    forall id | id in s'.writers
      ensures WriterOk(s', s'.writers[id])
    {
      if id in s.writers { assert WriterOk(s, s.writers[id]); }
    }
  }

  /** Over every run and interleaving: what a writer got is a prefix of the log; a writer that ended got
      exactly the closed log; and no wakeup is lost, since a writer asleep with no broadcast to come has
      read everything there is of a group still open. The log only grows, and never after close. */
  lemma {:induction false} LogBroadcast<T>(s: Log<T>, acts: seq<Action<T>>, s': Log<T>)
    requires Inv(s) && Run(s, acts, s')
    ensures Inv(s')
    ensures s.objs <= s'.objs && (s.closed ==> s'.closed && s'.objs == s.objs)
    decreases |acts|
  {
    if acts != [] {
      StepKeepsInv(s, acts[0]);
      LogBroadcast(Next(s, acts[0]), acts[1..], s');
    }
  }

  lemma FromTheStart<T>(acts: seq<Action<T>>, s: Log<T>, id: nat)
    requires Run(Empty(), acts, s) && id in s.writers
    ensures WriterOk(s, s.writers[id])
  {
    LogBroadcast(Empty(), acts, s);
  }

  function Polls<T>(id: nat, n: nat): (acts: seq<Action<T>>) { seq(n, i => Poll(id)) }

  /** Progress: once the group is closed and the last broadcast made, every writer still connected is
      awake, and its own polls, one for each object left and one more, take it to the end of the log. */
  lemma {:induction false} WritersFinish<T>(s: Log<T>, id: nat, n: nat)
    requires Inv(s) && s.closed && !s.owed && id in s.writers
    requires s.writers[id].status !in {Ended, Broken}
    requires n == |s.objs| - |s.writers[id].got| + 1
    ensures Run(s, Polls(id, n), s.(writers := s.writers[id := Writer(s.objs, Ended)]))
    decreases n
  {
    var w := s.writers[id];
    assert WriterOk(s, w);
    var a: Action<T> := Poll(id);
    var s1 := Next(s, a);
    assert Polls<T>(id, n)[1..] == Polls<T>(id, n - 1);
    StepKeepsInv(s, a);
    var last := s.(writers := s.writers[id := Writer(s.objs, Ended)]);
    if n == 1 {
      assert w.got == s.objs;
      assert s1 == last;
    } else {
      WritersFinish(s1, id, n - 1);
      assert s1.(writers := s1.writers[id := Writer(s.objs, Ended)]) == last;
    }
  }
}
