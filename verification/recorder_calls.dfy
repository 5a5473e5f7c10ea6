/** What a recorder reports, said of the calls made to it alone: jitter, delays, startup, and what each second holds. */
module RecorderCalls {
  import opened Basics
  import opened Recorder
  import opened RecorderTheorems

  /** The greatest presentation time so far, on the recorder's clock: a unit that comes when no arrival is on record, or
      one at time 0, begins anew. */
  function Newest(calls: seq<Call>): nat {
    if calls == [] then 0
    else
      var c, before := calls[|calls| - 1], calls[..|calls| - 1];
      if c.Arrived? && (Latest(before) == 0 || c.pts > Newest(before)) then c.pts else Newest(before)
  }

  lemma RunOne(c: Config, calls: seq<Call>, call: Call)
    ensures Run(c, calls + [call]) == Step(Run(c, calls), c, call)
    ensures Latest(calls + [call]) == if call.Arrived? then call.now else Latest(calls)
    ensures Newest(calls + [call])
            == if call.Arrived? && (Latest(calls) == 0 || call.pts > Newest(calls)) then call.pts else Newest(calls)
  {
    assert (calls + [call])[..|calls|] == calls;
  }

  /** The parts of Media, one after the other. */
  lemma MediaParts(v: Score, c: Config, now: int, pts: u64, bytes: nat, pick: nat)
    ensures var w := Media(v, c, now, pts, bytes, pick);
            && w.prevArr == now
            && (if v.prevArr == 0 then w.prevPTS == w.maxPTS == pts && w.jitter == v.jitter
                else if pts <= v.maxPTS then w.prevPTS == v.prevPTS && w.maxPTS == v.maxPTS && w.jitter == v.jitter
                else w.prevPTS == w.maxPTS == pts)
            && (v.prevArr != 0 && pts > v.maxPTS && v.prevPTS == v.maxPTS ==>
                  16.0 * (w.jitter - v.jitter) == Gap((now - v.prevArr) - (pts - v.prevPTS)) - v.jitter)
  {
    var ms := (now - Signed(pts)) as real / 1000.0;
    var u := Delayed(Received(v, now, bytes), ms, pick);
    ReceivedKeeps(v, now, bytes, ms, pick);
    StalledKeeps(u, now, (now - v.prevArr - JITTER_BUF) as real / 1000.0);
    hide Signed, Received, Delayed, Stalled, Jittered, Gap;
    var gap := now - v.prevArr;
    var w := if Starved(c.autoStall, gap) then Stalled(u, now, (gap - JITTER_BUF) as real / 1000.0) else u;
    JitteredSays(w, now, pts);
  }

  lemma JitteredSays(v: Score, now: int, pts: u64)
    ensures var w := Jittered(v, now, pts);
            && (if pts <= v.maxPTS then w == v else w.prevPTS == w.maxPTS == pts)
            && (pts > v.maxPTS && v.prevPTS == v.maxPTS ==>
                  16.0 * (w.jitter - v.jitter) == Gap((now - v.prevArr) - (pts - v.prevPTS)) - v.jitter)
  {
  }

  lemma ReceivedKeeps(v: Score, now: int, bytes: nat, ms: real, pick: nat)
    ensures var u := Delayed(Received(v, now, bytes), ms, pick);
            && u.prevArr == v.prevArr && u.prevPTS == v.prevPTS && u.maxPTS == v.maxPTS && u.jitter == v.jitter
            && u.startup == v.startup && u.startupSet == v.startupSet
  {
    hide Unix, Seconds;
  }

  /** How far two intervals differ, in microseconds. */
  function Gap(d: int): real { (if d < 0 then -d else d) as real }

  lemma {:induction false} Clocks(c: Config, calls: seq<Call>)
    ensures var v := Run(c, calls); v.prevArr == Latest(calls) && v.prevPTS == v.maxPTS == Newest(calls)
  {
    hide Media, Stalled;
    if calls != [] {
      var before, call := calls[..|calls| - 1], calls[|calls| - 1];
      Clocks(c, before);
      assert calls == before + [call];
      RunOne(c, before, call);
      if call.Arrived? {
        MediaParts(Run(c, before), c, call.now, call.pts, call.bytes, call.pick);
      } else {
        StalledKeeps(Run(c, before), call.now, if call.Underran? then call.ms else 0.0);
      }
    }
  }

  lemma StalledKeeps(v: Score, now: int, ms: real)
    ensures var w := Stalled(v, now, ms);
            && w.prevArr == v.prevArr && w.prevPTS == v.prevPTS && w.maxPTS == v.maxPTS && w.jitter == v.jitter
            && w.e2e == v.e2e && w.startup == v.startup && w.startupSet == v.startupSet && w.bytes == v.bytes
  {
  }

  // ---------- Jitter ----------

  /** A unit in presentation order, not the first. */
  predicate InSequence(calls: seq<Call>, call: Call) {
    call.Arrived? && Latest(calls) != 0 && call.pts > Newest(calls)
  }

  /** How far the time since the latest arrival is from the presentation time since the newest unit. */
  function Deviation(calls: seq<Call>, call: Call): real
    requires call.Arrived?
  {
    Gap((call.now - Latest(calls)) - (call.pts - Newest(calls)))
  }

  /** Section 6.4.1 of RFC 3550: a unit in order moves the estimate one sixteenth of the way to its deviation, and no
      other call moves it. */
  lemma JitterMoves(c: Config, calls: seq<Call>, call: Call)
    ensures var was, now := Run(c, calls).jitter, Run(c, calls + [call]).jitter;
            if InSequence(calls, call) then 16.0 * (now - was) == Deviation(calls, call) - was else now == was
  {
    hide Media, Stalled, Gap;
    RunOne(c, calls, call);
    Clocks(c, calls);
    var v := Run(c, calls);
    if call.Arrived? {
      MediaParts(v, c, call.now, call.pts, call.bytes, call.pick);
    } else {
      StalledKeeps(v, call.now, if call.Underran? then call.ms else 0.0);
    }
  }

  /** Every unit in order came as long after the latest one as it is presented after the newest. */
  predicate Even(calls: seq<Call>) {
    calls == []
    || (var call, before := calls[|calls| - 1], calls[..|calls| - 1];
        Even(before) && (InSequence(before, call) ==> call.now - Latest(before) == call.pts - Newest(before)))
  }

  lemma {:induction false} NoJitterIff(c: Config, calls: seq<Call>)
    ensures Run(c, calls).jitter >= 0.0
    ensures Run(c, calls).jitter == 0.0 <==> Even(calls)
  {
    hide Step;
    if calls != [] {
      var before, call := calls[..|calls| - 1], calls[|calls| - 1];
      NoJitterIff(c, before);
      assert calls == before + [call];
      JitterMoves(c, before, call);
    }
  }

  /** Units in presentation order that all take the same time to arrive. */
  predicate Steady(calls: seq<Call>, transit: int) {
    calls == []
    || (var call, before := calls[|calls| - 1], calls[..|calls| - 1];
        Steady(before, transit)
        && (call.Arrived? ==> call.now == call.pts + transit && (Arrivals(before) > 0 ==> call.pts > Newest(before))))
  }

  lemma {:induction false} SteadyIsEven(calls: seq<Call>, transit: int)
    requires Steady(calls, transit)
    ensures Even(calls) && (Arrivals(calls) > 0 ==> Latest(calls) == Newest(calls) + transit)
    ensures Arrivals(calls) == 0 ==> Latest(calls) == 0
  {
    if calls != [] { SteadyIsEven(calls[..|calls| - 1], transit); }
  }

  /** A constant transit time gives no jitter, whatever the cadence. */
  lemma SteadyHasNoJitter(c: Config, calls: seq<Call>, transit: int)
    requires Steady(calls, transit)
    ensures Run(c, calls).jitter == 0.0
  {
    hide Run, Even;
    SteadyIsEven(calls, transit);
    NoJitterIff(c, calls);
  }

  // ---------- Delays ----------

  /** The presentation time as a signed number: the one of 64 bits equal to it modulo 2^64. */
  lemma SignedIs(n: u64)
    ensures -0x8000_0000_0000_0000 <= Signed(n) < 0x8000_0000_0000_0000
    ensures (n - Signed(n)) % 0x1_0000_0000_0000_0000 == 0
  {
  }

  /** The end-to-end delays in milliseconds that are not negative, in order of arrival. */
  function Delays(calls: seq<Call>): seq<real> {
    if calls == [] then []
    else
      var c, before := calls[|calls| - 1], Delays(calls[..|calls| - 1]);
      if c.Arrived? && c.now >= Signed(c.pts) then before + [(c.now - Signed(c.pts)) as real / 1000.0] else before
  }

  /** The reservoir holds all of them while there is room, and then as many of them as it has room for. */
  predicate Holds(e2e: seq<real>, delays: seq<real>) {
    if |delays| <= 8192 then e2e == delays else |e2e| == 8192 && forall x :: x in e2e ==> x in delays
  }

  lemma HoldsMore(e2e: seq<real>, delays: seq<real>, ms: real, pick: nat)
    requires Holds(e2e, delays)
    ensures Holds(if |e2e| < RESERVOIR then e2e + [ms] else e2e[pick % |e2e| := ms], delays + [ms])
  {
  }

  lemma MediaDelays(v: Score, c: Config, now: int, pts: u64, bytes: nat, pick: nat)
    ensures var w, ms := Media(v, c, now, pts, bytes, pick), (now - Signed(pts)) as real / 1000.0;
            w.e2e == if now < Signed(pts) then v.e2e
                     else if |v.e2e| < RESERVOIR then v.e2e + [ms] else v.e2e[pick % |v.e2e| := ms]
  {
    hide Signed, Unix, Seconds, Abs;
  }

  lemma {:induction false} DelaysAreKept(c: Config, calls: seq<Call>)
    ensures Holds(Run(c, calls).e2e, Delays(calls))
  {
    hide Media, Stalled, Signed, Holds;
    if calls == [] {
      assert Holds([], []) by { NoDelays(); }
    } else {
      var before, call := calls[..|calls| - 1], calls[|calls| - 1];
      DelaysAreKept(c, before);
      var v := Run(c, before);
      if call.Arrived? {
        MediaDelays(v, c, call.now, call.pts, call.bytes, call.pick);
        HoldsMore(v.e2e, Delays(before), (call.now - Signed(call.pts)) as real / 1000.0, call.pick);
      } else {
        StalledKeeps(v, call.now, if call.Underran? then call.ms else 0.0);
      }
    }
  }

  lemma NoDelays()
    ensures Holds([], [])
  {
  }

  // ---------- Startup ----------

  /** When playback began: at the first mark, or at the first arrival unless startup is marked by hand. */
  function Beginning(c: Config, calls: seq<Call>): Option<int> {
    if calls == [] then None
    else
      var call, first := calls[|calls| - 1], Beginning(c, calls[..|calls| - 1]);
      if first.None? && (call.Began? || (call.Arrived? && !c.manualStartup)) then Some(call.now) else first
  }

  lemma MediaStarts(v: Score, c: Config, now: int, pts: u64, bytes: nat, pick: nat)
    ensures var w := Media(v, c, now, pts, bytes, pick);
            if v.prevArr == 0 && !c.manualStartup && !v.startupSet
            then w.startupSet && w.startup == (now - c.start) as real / 1000.0
            else w.startupSet == v.startupSet && w.startup == v.startup
  {
    hide Signed, Unix, Seconds, Abs;
  }

  /** The startup delay reported is the time from the session's start to that, in milliseconds, and -1 before. */
  lemma {:induction false} StartupIsTheFirst(c: Config, calls: seq<Call>)
    ensures var v, first := Run(c, calls), Beginning(c, calls);
            && (v.startupSet <==> first.Some?)
            && v.startup == if first.Some? then (first.value - c.start) as real / 1000.0 else -1.0
    ensures !c.manualStartup && Latest(calls) != 0 ==> Beginning(c, calls).Some?
  {
    hide Media, Stalled;
    if calls != [] {
      var before, call := calls[..|calls| - 1], calls[|calls| - 1];
      StartupIsTheFirst(c, before);
      Clocks(c, before);
      var v := Run(c, before);
      match call {
        case Arrived(now, pts, bytes, pick) => MediaStarts(v, c, now, pts, bytes, pick);
        case Underran(now, ms) => StalledKeeps(v, now, ms);
        case Began(now) =>
      }
    }
  }

  // ---------- Seconds ----------

  predicate During(call: Call, sec: int) { 1_000_000 * sec <= call.now < 1_000_000 * (sec + 1) }

  /** An arrival more than 250 ms after the one before it stalls a session that leaves stalls to the recorder, by what
      exceeds 150 ms. */
  predicate Starves(c: Config, before: seq<Call>, now: int) {
    c.autoStall && Latest(before) != 0 && now - Latest(before) > 250_000
  }

  /** What one call adds to its second. */
  function Adds(c: Config, before: seq<Call>, call: Call): Second {
    match call
    case Arrived(now, _, bytes, _) =>
      Second(bytes, 1, if Starves(c, before, now) then (now - Latest(before) - 150_000) as real / 1000.0 else 0.0)
    case Underran(_, ms) => Second(0, 0, ms)
    case Began(_) => NOTHING
  }

  function InSecond(c: Config, calls: seq<Call>, sec: int): Second {
    if calls == [] then NOTHING
    else
      var before, call := calls[..|calls| - 1], calls[|calls| - 1];
      if During(call, sec) then Plus(InSecond(c, before, sec), Adds(c, before, call)) else InSecond(c, before, sec)
  }

  function InAll(c: Config, calls: seq<Call>): Second {
    if calls == [] then NOTHING
    else Plus(InAll(c, calls[..|calls| - 1]), Adds(c, calls[..|calls| - 1], calls[|calls| - 1]))
  }

  function StallsOf(c: Config, before: seq<Call>, call: Call): nat {
    if call.Underran? || (call.Arrived? && Starves(c, before, call.now)) then 1 else 0
  }

  function StallsIn(c: Config, calls: seq<Call>): nat {
    if calls == [] then 0
    else StallsIn(c, calls[..|calls| - 1]) + StallsOf(c, calls[..|calls| - 1], calls[|calls| - 1])
  }

  predicate SomethingIn(calls: seq<Call>, sec: int) {
    calls != []
    && ((!calls[|calls| - 1].Began? && During(calls[|calls| - 1], sec)) || SomethingIn(calls[..|calls| - 1], sec))
  }

  /** What a call changes: the totals, and one second. */
  predicate Charged(v: Score, w: Score, at: int, s: Second, stalls: nat) {
    && w.bytes == v.bytes + s.bytes && w.stalledMs == v.stalledMs + s.stallMs && w.stallCount == v.stallCount + stalls
    && w.seconds == v.seconds[at / 1_000_000 := Plus(Seconds(v.seconds, at / 1_000_000), s)]
  }

  lemma StepCharges(c: Config, before: seq<Call>, call: Call)
    requires !call.Began?
    ensures var s := Adds(c, before, call);
            Charged(Run(c, before), Step(Run(c, before), c, call), call.now, s, StallsOf(c, before, call))
  {
    Clocks(c, before);
    var v := Run(c, before);
    hide Run, Latest, Newest;
    match call {
      case Arrived(now, pts, bytes, pick) =>
        ReceivedCharges(v, now, bytes, (now - Signed(pts)) as real / 1000.0, pick);
        hide Received, Delayed, Signed, Abs;
        var u := Delayed(Received(v, now, bytes), (now - Signed(pts)) as real / 1000.0, pick);
        var ms := (now - Latest(before) - 150_000) as real / 1000.0;
        if Starves(c, before, now) { StalledCharges(v, u, now, bytes, ms); }
        MediaCharges(v, c, now, pts, bytes, pick);
        hide Media, Stalled, Charged;
      case Underran(now, ms) =>
    }
  }

  /** After the stall, Media changes nothing that is accounted for. */
  lemma MediaCharges(v: Score, c: Config, now: int, pts: u64, bytes: nat, pick: nat)
    ensures var w := Media(v, c, now, pts, bytes, pick);
            var u := Delayed(Received(v, now, bytes), (now - Signed(pts)) as real / 1000.0, pick);
            var x := if v.prevArr != 0 && c.autoStall && now - v.prevArr > 250_000
                     then Stalled(u, now, (now - v.prevArr - 150_000) as real / 1000.0) else u;
            w.bytes == x.bytes && w.stalledMs == x.stalledMs && w.stallCount == x.stallCount && w.seconds == x.seconds
  {
    hide Received, Delayed, Signed, Abs, Stalled;
  }

  lemma ReceivedCharges(v: Score, now: int, bytes: nat, ms: real, pick: nat)
    ensures var u := Delayed(Received(v, now, bytes), ms, pick);
            Charged(v, u, now, Second(bytes, 1, 0.0), 0) && u.prevArr == v.prevArr
  {
  }

  lemma StalledCharges(v: Score, u: Score, now: int, bytes: nat, ms: real)
    requires Charged(v, u, now, Second(bytes, 1, 0.0), 0)
    ensures Charged(v, Stalled(u, now, ms), now, Second(bytes, 1, ms), 1)
  {
    var sec, w := now / 1_000_000, Stalled(u, now, ms);
    assert w.seconds[sec] == Plus(Seconds(v.seconds, sec), Second(bytes, 1, ms));
  }

  /** After any calls the totals are the sums over all of them, and each second holds exactly what the calls made during
      it add: the bytes and frames of the units, the stalls reported and the stalls accounted for by the recorder. */
  lemma {:induction false} CallsAreAccounted(c: Config, calls: seq<Call>, sec: int)
    ensures var v, all := Run(c, calls), InAll(c, calls);
            && v.bytes == all.bytes && v.stalledMs == all.stallMs && v.stallCount == StallsIn(c, calls)
            && Seconds(v.seconds, sec) == InSecond(c, calls, sec) && (sec in v.seconds <==> SomethingIn(calls, sec))
  {
    if calls == [] {
      NothingAccounted(c, sec);
    } else {
      var before, call := calls[..|calls| - 1], calls[|calls| - 1];
      OneMoreCall(c, calls, sec);
      hide *;
      CallsAreAccounted(c, before, sec);
      if call.Began? {
        BeganCharges(c, before, call);
        PlusNothing(InSecond(c, before, sec));
        PlusNothing(InAll(c, before));
      } else {
        StepCharges(c, before, call);
        var v := Run(c, before);
        var s, w := Adds(c, before, call), Step(v, c, call);
        ChargedSecond(v, w, call, s, StallsOf(c, before, call), InAll(c, before), sec);
      }
    }
  }

  lemma NothingAccounted(c: Config, sec: int)
    ensures var v, all := Run(c, []), InAll(c, []);
            && v.bytes == all.bytes && v.stalledMs == all.stallMs && v.stallCount == StallsIn(c, [])
            && Seconds(v.seconds, sec) == InSecond(c, [], sec) && sec !in v.seconds && !SomethingIn([], sec)
  {
  }

  lemma OneMoreCall(c: Config, calls: seq<Call>, sec: int)
    requires calls != []
    ensures var before, call := calls[..|calls| - 1], calls[|calls| - 1];
            var s := Adds(c, before, call);
            && Run(c, calls) == Step(Run(c, before), c, call)
            && InAll(c, calls) == Plus(InAll(c, before), s)
            && InSecond(c, calls, sec)
               == (if During(call, sec) then Plus(InSecond(c, before, sec), s) else InSecond(c, before, sec))
            && StallsIn(c, calls) == StallsIn(c, before) + StallsOf(c, before, call)
            && (SomethingIn(calls, sec) <==> (!call.Began? && During(call, sec)) || SomethingIn(before, sec))
            && (call.Began? ==> StallsOf(c, before, call) == 0)
  {
    hide Step, Adds, Plus, During, Starves;
  }

  lemma ChargedSecond(v: Score, w: Score, call: Call, s: Second, stalls: nat, all: Second, sec: int)
    requires Charged(v, w, call.now, s, stalls)
    ensures Seconds(w.seconds, sec)
            == if During(call, sec) then Plus(Seconds(v.seconds, sec), s) else Seconds(v.seconds, sec)
    ensures sec in w.seconds <==> sec in v.seconds || During(call, sec)
    ensures w.bytes == v.bytes + s.bytes && w.stalledMs == v.stalledMs + s.stallMs
    ensures w.stallCount == v.stallCount + stalls
    ensures Plus(all, s).bytes == all.bytes + s.bytes && Plus(all, s).stallMs == all.stallMs + s.stallMs
  {
    assert call.now / 1_000_000 == sec <==> During(call, sec);
  }

  lemma BeganCharges(c: Config, before: seq<Call>, call: Call)
    requires call.Began?
    ensures var v, w := Run(c, before), Step(Run(c, before), c, call);
            && w.bytes == v.bytes && w.stalledMs == v.stalledMs && w.stallCount == v.stallCount
            && w.seconds == v.seconds && Adds(c, before, call) == NOTHING
  {
  }
}
