/** internal/expctl/aggregate.go:105-158: when a run was impaired, and how long a session took to recover. */
module Impairment {
  import opened Basics

  /** A timeline event: when, in seconds after the run began, and the loss it sets. */
  datatype Event = Event(at: real, loss: real)

  function Time(base: int, e: Event): int { base + Truncated(e.at) }

  datatype Window = Window(from: int, to: int)

  /** impairmentWindows' variables; openAt is -1 while no window is open. */
  datatype Scan = Scan(out: seq<Window>, openAt: int)

  function ScanOne(s: Scan, e: Event, at: int): Scan {
    if e.loss > 0.0 && s.openAt < 0 then s.(openAt := at)
    else if e.loss == 0.0 && s.openAt >= 0 then Scan(s.out + [Window(s.openAt, at)], -1)
    else s
  }

  function Scanned(base: int, timeline: seq<Event>): Scan {
    if timeline == [] then Scan([], -1)
    else
      var n := |timeline| - 1;
      ScanOne(Scanned(base, timeline[..n]), timeline[n], Time(base, timeline[n]))
  }

  method ImpairmentWindows(startedUnixMs: int, timeline: seq<Event>) returns (out: seq<Window>)
    ensures out == Scanned(Quotient(startedUnixMs, 1000), timeline).out
  {
    out := [];
    var base := Quotient(startedUnixMs, 1000);
    var openAt: int := -1;
    for i := 0 to |timeline|
      invariant Scan(out, openAt) == Scanned(base, timeline[..i])
    {
      assert timeline[..i + 1][..i] == timeline[..i];
      var ev := timeline[i];
      var at := base + Truncated(ev.at);
      if ev.loss > 0.0 && openAt < 0 {
        openAt := at;
      } else if ev.loss == 0.0 && openAt >= 0 {
        out := out + [Window(openAt, at)];
        openAt := -1;
      }
    }
    assert timeline[..|timeline|] == timeline;
  }

  // ---------- What the windows are ----------

  /** Whether loss is on after all the events. */
  predicate On(timeline: seq<Event>) {
    timeline != []
    && var e := timeline[|timeline| - 1];
       e.loss > 0.0 || (e.loss != 0.0 && On(timeline[..|timeline| - 1]))
  }

  /** The events up to time t, of a timeline in order of time. */
  function Until(base: int, timeline: seq<Event>, t: int): seq<Event> {
    if timeline == [] || Time(base, timeline[|timeline| - 1]) <= t then timeline
    else Until(base, timeline[..|timeline| - 1], t)
  }

  predicate InOrder(timeline: seq<Event>) {
    forall i, j :: 0 <= i < j < |timeline| ==> timeline[i].at <= timeline[j].at
  }

  /** No event is before time 0, which -1 marks the absence of. */
  predicate AfterZero(base: int, timeline: seq<Event>) {
    forall i :: 0 <= i < |timeline| ==> Time(base, timeline[i]) >= 0
  }

  predicate Inside(out: seq<Window>, t: int) { exists k :: 0 <= k < |out| && out[k].from <= t < out[k].to }

  /** The windows follow one another, none after `end`. */
  predicate Disjoint(out: seq<Window>, end: int) {
    && (forall k :: 0 <= k < |out| ==> 0 <= out[k].from <= out[k].to <= end)
    && forall k, l :: 0 <= k < l < |out| ==> out[k].to <= out[l].from
  }

  lemma TruncatedGrows(x: real, y: real)
    requires x <= y
    ensures Truncated(x) <= Truncated(y)
  {
  }

  /** The last event's time. */
  function End(base: int, timeline: seq<Event>): int {
    if timeline == [] then 0 else Time(base, timeline[|timeline| - 1])
  }

  lemma EndGrows(base: int, timeline: seq<Event>)
    requires timeline != [] && InOrder(timeline) && AfterZero(base, timeline)
    ensures End(base, timeline[..|timeline| - 1]) <= End(base, timeline)
  {
    hide Truncated;
    var n := |timeline| - 1;
    if n > 0 { TruncatedGrows(timeline[n - 1].at, timeline[n].at); }
  }

  lemma InsideMore(out: seq<Window>, w: Window, t: int)
    ensures Inside(out + [w], t) <==> Inside(out, t) || w.from <= t < w.to
  {
    var more := out + [w];
    if Inside(out, t) {
      var k :| 0 <= k < |out| && out[k].from <= t < out[k].to;
      assert more[k] == out[k];
    }
    if w.from <= t < w.to { assert more[|out|] == w; }
  }

  lemma DisjointMore(out: seq<Window>, w: Window, end: int)
    requires Disjoint(out, w.from) && 0 <= w.from <= w.to <= end
    ensures Disjoint(out + [w], end)
  {
  }

  /** What the scan knows after the events so far, as such and about time t. */
  predicate Ordered(s: Scan, on: bool, end: int) {
    s.openAt <= end && (s.openAt >= 0 <==> on) && Disjoint(s.out, if s.openAt >= 0 then s.openAt else end)
  }

  predicate Tells(s: Scan, on: bool, t: int) { on <==> Inside(s.out, t) || 0 <= s.openAt <= t }

  predicate Known(base: int, timeline: seq<Event>, t: int) {
    && Ordered(Scanned(base, timeline), On(timeline), End(base, timeline))
    && Tells(Scanned(base, timeline), On(Until(base, timeline, t)), t)
  }

  lemma OrderedMore(s: Scan, on: bool, end: int, e: Event, at: int)
    requires Ordered(s, on, end) && 0 <= end <= at
    ensures Ordered(ScanOne(s, e, at), e.loss > 0.0 || (e.loss != 0.0 && on), at)
  {
    assert s.openAt < 0 ==> Disjoint(s.out, at);
    hide Disjoint;
    if e.loss == 0.0 && s.openAt >= 0 {
      DisjointMore(s.out, Window(s.openAt, at), at);
    }
  }

  /** After the new event, and before it. */
  lemma TellsAfter(s: Scan, on: bool, end: int, e: Event, at: int, t: int)
    requires Ordered(s, on, end) && 0 <= end <= at <= t
    ensures Tells(ScanOne(s, e, at), e.loss > 0.0 || (e.loss != 0.0 && on), t)
  {
    assert !Inside(s.out, t);
    hide Inside, Disjoint;
    InsideMore(s.out, Window(s.openAt, at), t);
  }

  lemma TellsBefore(s: Scan, on: bool, e: Event, at: int, t: int)
    requires Tells(s, on, t) && t < at
    ensures Tells(ScanOne(s, e, at), on, t)
  {
    hide Inside;
    InsideMore(s.out, Window(s.openAt, at), t);
  }

  lemma KnownMore(base: int, timeline: seq<Event>, e: Event, t: int)
    requires Known(base, timeline, t) && 0 <= End(base, timeline) <= Time(base, e)
    ensures Known(base, timeline + [e], t)
  {
    hide Time, Tells, Ordered, ScanOne;
    var s, at, more := Scanned(base, timeline), Time(base, e), timeline + [e];
    assert more[..|more| - 1] == timeline;
    OrderedMore(s, On(timeline), End(base, timeline), e, at);
    if at <= t {
      TellsAfter(s, On(timeline), End(base, timeline), e, at, t);
    } else {
      TellsBefore(s, On(Until(base, timeline, t)), e, at, t);
    }
  }

  lemma {:induction false} ScanKnows(base: int, timeline: seq<Event>, t: int)
    requires InOrder(timeline) && AfterZero(base, timeline)
    ensures Known(base, timeline, t)
  {
    assert Known(base, [], t);
    hide Known;
    if timeline != [] {
      var n := |timeline| - 1;
      ScanKnows(base, timeline[..n], t);
      EndGrows(base, timeline);
      assert timeline == timeline[..n] + [timeline[n]];
      assert End(base, timeline[..n]) >= 0;
      KnownMore(base, timeline[..n], timeline[n], t);
    }
  }

  /** For a timeline in order of time, the windows are in order and do not overlap, and together they are exactly
      the times when loss was on and was later turned off: what they leave out is an interval still open at the
      end. */
  lemma WindowsAreTheLossyTimes(base: int, timeline: seq<Event>, t: int)
    requires InOrder(timeline) && AfterZero(base, timeline)
    ensures var s := Scanned(base, timeline);
            && Disjoint(s.out, End(base, timeline)) && (s.openAt >= 0 <==> On(timeline))
            && (On(Until(base, timeline, t)) <==> Inside(s.out, t) || 0 <= s.openAt <= t)
            && (Inside(s.out, t) ==> !(0 <= s.openAt <= t))
  {
    ScanKnows(base, timeline, t);
  }

  // ---------- Recovery ----------

  function Bytes(m: map<int, nat>, sec: int): nat { if sec in m then m[sec] else 0 }

  /** The mean over the last three seconds. */
  function Rolling(m: map<int, nat>, t: int): real {
    (Bytes(m, t) + Bytes(m, t - 1) + Bytes(m, t - 2)) as real / 3.0
  }

  /** The bytes of the seconds present in [from, to), and how many those are. */
  function Present(m: map<int, nat>, from: int, to: int): (int, int)
    decreases to - from
  {
    if from >= to then (0, 0)
    else
      var p := Present(m, from, to - 1);
      if to - 1 in m then (p.0 + m[to - 1], p.1 + 1) else p
  }

  /** The mean over the five seconds before a window, if there is one to compare with. */
  predicate HasBaseline(m: map<int, nat>, w: Window) {
    Present(m, w.from - 5, w.from).1 != 0 && Present(m, w.from - 5, w.from).0 != 0
  }

  /** Throughput is back d seconds after the window's end. */
  predicate Recovered(m: map<int, nat>, w: Window, d: nat)
    requires HasBaseline(m, w)
  {
    var p := Present(m, w.from - 5, w.from);
    Rolling(m, w.to + d) >= 0.9 * (p.0 as real / p.1 as real)
  }

  /** d is the recovery time of the window: the first of the thirty seconds from its end at which throughput is back. */
  predicate IsRecovery(m: map<int, nat>, w: Window, d: nat) {
    HasBaseline(m, w) && d < 30 && Recovered(m, w, d)
    && forall e: nat :: e < d ==> !Recovered(m, w, e)
  }

  /** There is none: nothing to compare with, or thirty seconds without recovery. */
  predicate NoRecovery(m: map<int, nat>, w: Window) {
    HasBaseline(m, w) ==> forall e: nat :: e < 30 ==> !Recovered(m, w, e)
  }

  method Baseline(m: map<int, nat>, w: Window) returns (base: int, n: int)
    ensures (base, n) == Present(m, w.from - 5, w.from)
  {
    base, n := 0, 0;
    for t := w.from - 5 to w.from
      invariant (base, n) == Present(m, w.from - 5, t)
    {
      if t in m {
        base := base + m[t];
        n := n + 1;
      }
    }
  }

  /** One second of a session's result. */
  datatype Sample = Sample(unix: int, bytes: nat, stallMs: real)

  /** The seconds of a session, by time; of two samples for one second the later counts. */
  function BySecond(seconds: seq<Sample>): map<int, nat> {
    if seconds == [] then map[]
    else
      var last := seconds[|seconds| - 1];
      BySecond(seconds[..|seconds| - 1])[last.unix := last.bytes]
  }

  /** The recovery time in milliseconds, found by trying second d and the following ones. */
  function Search(m: map<int, nat>, w: Window, d: nat): seq<real>
    decreases 30 - d
  {
    if d >= 30 || !HasBaseline(m, w) then []
    else if Recovered(m, w, d) then [d as real * 1000.0]
    else Search(m, w, d + 1)
  }

  lemma {:induction false} SearchFinds(m: map<int, nat>, w: Window, d: nat)
    requires d <= 30 && (HasBaseline(m, w) ==> forall e: nat :: e < d ==> !Recovered(m, w, e))
    ensures var r := Search(m, w, d);
            if r == [] then NoRecovery(m, w)
            else |r| == 1 && exists e :: IsRecovery(m, w, e) && r[0] == e as real * 1000.0
    decreases 30 - d
  {
    hide Recovered;
    if d < 30 && HasBaseline(m, w) {
      if Recovered(m, w, d) {
        assert IsRecovery(m, w, d);
      } else {
        SearchFinds(m, w, d + 1);
      }
    }
  }

  /** For each impairment window the session's recovery time, if it has one: the least second that qualifies. */
  lemma RecoveryIsLeast(m: map<int, nat>, w: Window)
    ensures var r := Search(m, w, 0);
            if r == [] then NoRecovery(m, w)
            else |r| == 1 && exists e :: IsRecovery(m, w, e) && r[0] == e as real * 1000.0
  {
    SearchFinds(m, w, 0);
  }

  // ---------- In figures ----------

  /** The sum over the seconds present, second by second. */
  lemma PresentAt(m: map<int, nat>, from: int, to: int)
    requires from <= to
    ensures Present(m, from, from) == (0, 0)
    ensures var p, q := Present(m, from, to), Present(m, from, to + 1);
            if to in m then q == (p.0 + m[to], p.1 + 1) else q == p
  {
  }

  lemma {:induction false} PresentBounds(m: map<int, nat>, from: int, end: int)
    ensures var p := Present(m, from, end);
            && p.0 >= 0 && p.1 >= 0
            && (p.1 == 0 <==> forall t :: from <= t < end ==> t !in m)
            && (p.0 == 0 <==> forall t :: from <= t < end && t in m ==> m[t] == 0)
    decreases end - from
  {
    if from < end { PresentBounds(m, from, end - 1); }
  }

  /** A window can be compared with if and only if bytes arrived in the five seconds before it. */
  lemma BaselineIff(m: map<int, nat>, w: Window)
    ensures HasBaseline(m, w) <==> exists t :: w.from - 5 <= t < w.from && t in m && m[t] > 0
  {
    PresentBounds(m, w.from - 5, w.from);
  }

  lemma LastThree(m: map<int, nat>, t: int)
    ensures 3.0 * Rolling(m, t) == Present(m, t - 2, t + 1).0 as real
  {
    hide Present;
    PresentAt(m, t - 2, t - 2);
    PresentAt(m, t - 2, t - 1);
    PresentAt(m, t - 2, t);
  }

  /** Throughput is back at a second if and only if the bytes of the three seconds that end with it, over three, are at
      least nine tenths of those of the five seconds before the window, over the number of these present. */
  lemma RecoveredIff(m: map<int, nat>, w: Window, d: nat)
    requires HasBaseline(m, w)
    ensures var p, t := Present(m, w.from - 5, w.from), w.to + d;
            Recovered(m, w, d) <==> 10 * p.1 * Present(m, t - 2, t + 1).0 >= 27 * p.0
  {
    hide Present, Rolling;
    var p, t := Present(m, w.from - 5, w.from), w.to + d;
    PresentBounds(m, w.from - 5, w.from);
    LastThree(m, t);
    Thirds(Present(m, t - 2, t + 1).0, p.0, p.1, Rolling(m, t));
  }

  lemma Thirds(three: int, base: int, n: int, mean: real)
    requires n > 0 && 3.0 * mean == three as real
    ensures mean >= 0.9 * (base as real / n as real) <==> 10 * n * three >= 27 * base
  {
    var q, m := base as real / n as real, n as real;
    assert q * m == base as real;
    Scaled(mean, 0.9 * q, m);
    assert (0.9 * q) * m == 0.9 * base as real by { Moved(q, m); }
    assert 3.0 * (mean * m) == three as real * m by { Moved3(mean, m); }
    assert (n * three) as real == m * three as real;
    assert 10 * n * three == 10 * (n * three);
  }

  lemma Scaled(a: real, b: real, m: real)
    requires m > 0.0
    ensures a >= b <==> a * m >= b * m
  {
    if a < b { assert a * m < b * m; }
  }

  lemma Moved(q: real, m: real)
    ensures (0.9 * q) * m == 0.9 * (q * m)
  {
  }

  lemma Moved3(x: real, m: real)
    ensures 3.0 * (x * m) == (3.0 * x) * m
  {
  }

  /** A second's bytes are those of the latest sample for it. */
  lemma {:induction false} LatestSampleCounts(seconds: seq<Sample>, i: nat)
    requires i < |seconds| && forall j :: i < j < |seconds| ==> seconds[j].unix != seconds[i].unix
    ensures var m := BySecond(seconds); seconds[i].unix in m && m[seconds[i].unix] == seconds[i].bytes
  {
    var n := |seconds| - 1;
    if i < n { LatestSampleCounts(seconds[..n], i); }
  }

  lemma {:induction false} OnlySampledSeconds(seconds: seq<Sample>, t: int)
    ensures t in BySecond(seconds) <==> exists i :: 0 <= i < |seconds| && seconds[i].unix == t
  {
    if seconds != [] {
      var n := |seconds| - 1;
      OnlySampledSeconds(seconds[..n], t);
      if i :| 0 <= i < n && seconds[..n][i].unix == t { assert seconds[i].unix == t; }
      if i :| 0 <= i < |seconds| && seconds[i].unix == t { assert i < n ==> seconds[..n][i].unix == t; }
    }
  }

  /** An event takes effect in the second it falls in. */
  lemma EventSecond(base: int, e: Event)
    requires e.at >= 0.0
    ensures 0.0 <= e.at - (Time(base, e) - base) as real < 1.0
  {
  }

  function Recoveries(m: map<int, nat>, windows: seq<Window>): seq<real> {
    if windows == [] then []
    else Recoveries(m, windows[..|windows| - 1]) + Search(m, windows[|windows| - 1], 0)
  }

  method RecoveryTimes(seconds: seq<Sample>, windows: seq<Window>) returns (out: seq<real>)
    ensures out == Recoveries(BySecond(seconds), windows)
  {
    out := [];
    if |windows| == 0 {
      return;
    }
    var m: map<int, nat> := map[];
    for i := 0 to |seconds|
      invariant m == BySecond(seconds[..i])
    {
      assert seconds[..i + 1][..i] == seconds[..i];
      m := m[seconds[i].unix := seconds[i].bytes];
    }
    assert seconds[..|seconds|] == seconds;
    for i := 0 to |windows|
      invariant out == Recoveries(m, windows[..i])
    {
      hide Search, BySecond;
      assert windows[..i + 1][..i] == windows[..i];
      var found := Recovery(m, windows[i]);
      out := out + found;
    }
    assert windows[..|windows|] == windows;
  }

  method Recovery(m: map<int, nat>, w: Window) returns (found: seq<real>)
    ensures found == Search(m, w, 0)
  {
    hide Present, Rolling;
    var base, n := Baseline(m, w);
    if n == 0 || base == 0 {
      return [];
    }
    for d := 0 to 30
      invariant Search(m, w, 0) == Search(m, w, d)
    {
      if Rolling(m, w.to + d) >= 0.9 * (base as real / n as real) {
        return [d as real * 1000.0];
      }
    }
    found := [];
  }
}
