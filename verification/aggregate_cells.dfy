/** What the figures of a row are made of: the seconds of the cell's runs that lie in their measure windows, and those
    sessions that have a figure. */
module AggregateCells {
  import opened Basics
  import opened Impairment
  import opened Aggregate

  // ---------- Seconds in the measure windows ----------

  predicate Inside(s: Sample, from: int, to: int) { from <= s.unix < to }

  function Within(samples: seq<Sample>, from: int, to: int): seq<Sample> {
    if samples == [] then []
    else
      var s := samples[|samples| - 1];
      Within(samples[..|samples| - 1], from, to) + if Inside(s, from, to) then [s] else []
  }

  function MeasuredIn(sessions: seq<Session>, from: int, to: int): seq<Sample> {
    if sessions == [] then []
    else
      MeasuredIn(sessions[..|sessions| - 1], from, to) + Within(sessions[|sessions| - 1].seconds, from, to)
  }

  /** The seconds of all sessions of the runs, each within its run's measure window. */
  function Measured(runs: seq<RunRecord>): seq<Sample> {
    if runs == [] then []
    else
      var r := runs[|runs| - 1];
      Measured(runs[..|runs| - 1]) + MeasuredIn(r.sessions, Begin(r), Begin(r) + r.measure)
  }

  /** The window begins `warmup` seconds after the second in which the run started, which is that of its start rounded
      towards zero. */
  lemma MeasureBegins(r: RunRecord)
    ensures var s := Begin(r) - r.warmup;
            if r.startedMs >= 0 then 1000 * s <= r.startedMs < 1000 * (s + 1)
            else 1000 * (s - 1) < r.startedMs <= 1000 * s
  {
  }

  datatype Totals = Totals(bytes: nat, stallMs: real, stalled: nat, seconds: nat)

  function Both(a: Totals, b: Totals): Totals {
    Totals(a.bytes + b.bytes, a.stallMs + b.stallMs, a.stalled + b.stalled, a.seconds + b.seconds)
  }

  /** Bytes, stalled time, seconds with a stall, and seconds. */
  function TotalsOf(samples: seq<Sample>): Totals {
    if samples == [] then Totals(0, 0.0, 0, 0)
    else Both(TotalsOf(samples[..|samples| - 1]), OneSecond(samples[|samples| - 1]))
  }

  function OneSecond(s: Sample): Totals { Totals(s.bytes, s.stallMs, if s.stallMs > 0.0 then 1 else 0, 1) }

  function TotalsIn(a: Acc): Totals { Totals(a.bytes, a.stallMs, a.stallSecs, a.seconds) }

  lemma {:induction false} TotalsJoin(x: seq<Sample>, y: seq<Sample>)
    ensures TotalsOf(x + y) == Both(TotalsOf(x), TotalsOf(y))
    decreases |y|
  {
    if y == [] {
      assert x + y == x;
    } else {
      var n := |y| - 1;
      TotalsJoin(x, y[..n]);
      assert (x + y)[..|x + y| - 1] == x + y[..n];
    }
  }

  lemma SampleTotal(a: Acc, s: Sample, w0: int, w1: int)
    ensures TotalsIn(AddSample(a, s, w0, w1))
            == if Inside(s, w0, w1) then Both(TotalsIn(a), OneSecond(s)) else TotalsIn(a)
  {
  }

  lemma TotalsMore(samples: seq<Sample>, s: Sample)
    ensures TotalsOf(samples + [s]) == Both(TotalsOf(samples), OneSecond(s))
  {
    assert (samples + [s])[..|samples|] == samples;
  }

  lemma BothAssociates(a: Totals, b: Totals, c: Totals)
    ensures Both(Both(a, b), c) == Both(a, Both(b, c))
  {
  }

  lemma NoTotals(a: Totals)
    ensures Both(a, TotalsOf([])) == a
  {
  }

  lemma {:induction false} SamplesTotal(a: Acc, samples: seq<Sample>, w0: int, w1: int)
    ensures TotalsIn(AddSamples(a, samples, w0, w1)) == Both(TotalsIn(a), TotalsOf(Within(samples, w0, w1)))
    decreases |samples|
  {
    hide AddSample, TotalsIn, TotalsOf, Both, Inside, OneSecond;
    if samples == [] {
      NoTotals(TotalsIn(a));
    } else {
      var n := |samples| - 1;
      SamplesTotal(a, samples[..n], w0, w1);
      var init, s := Within(samples[..n], w0, w1), samples[n];
      SampleTotal(AddSamples(a, samples[..n], w0, w1), s, w0, w1);
      TotalsMore(init, s);
      BothAssociates(TotalsIn(a), TotalsOf(init), OneSecond(s));
      assert init + [] == init;
    }
  }

  lemma {:induction false} SessionsTotal(a: Acc, sessions: seq<Session>, w0: int, w1: int, windows: seq<Window>)
    ensures TotalsIn(AddSessions(a, sessions, w0, w1, windows))
            == Both(TotalsIn(a), TotalsOf(MeasuredIn(sessions, w0, w1)))
    decreases |sessions|
  {
    hide AddSamples, Within, Recoveries, BySecond;
    if sessions != [] {
      var n := |sessions| - 1;
      SessionsTotal(a, sessions[..n], w0, w1, windows);
      var b := AddSessions(a, sessions[..n], w0, w1, windows);
      SamplesTotal(AddFigures(b, sessions[n]), sessions[n].seconds, w0, w1);
      TotalsJoin(MeasuredIn(sessions[..n], w0, w1), Within(sessions[n].seconds, w0, w1));
    }
  }

  /** A cell's bytes, stalled time, stalled seconds and seconds are the sums over exactly those seconds. */
  lemma {:induction false} CellTotals(runs: seq<RunRecord>)
    ensures TotalsIn(AccOf(runs)) == TotalsOf(Measured(runs))
    decreases |runs|
  {
    hide AddSessions, MeasuredIn, Begin, Scanned;
    if runs != [] {
      var n := |runs| - 1;
      CellTotals(runs[..n]);
      var a, r := AccOf(runs[..n]), runs[n];
      SessionsTotal(a.(runs := a.runs + 1), r.sessions, Begin(r), Begin(r) + r.measure,
                    Scanned(Quotient(r.startedMs, 1000), r.timeline).out);
      TotalsJoin(Measured(runs[..n]), MeasuredIn(r.sessions, Begin(r), Begin(r) + r.measure));
    }
  }

  // ---------- Figures of sessions ----------

  function AllSessions(runs: seq<RunRecord>): seq<Session> {
    if runs == [] then [] else AllSessions(runs[..|runs| - 1]) + runs[|runs| - 1].sessions
  }

  /** The figures of the sessions that have one. */
  function Pick(sessions: seq<Session>, f: Session -> Option<real>): seq<real> {
    if sessions == [] then []
    else
      var x := f(sessions[|sessions| - 1]);
      Pick(sessions[..|sessions| - 1], f) + if x.Some? then [x.value] else []
  }

  lemma {:induction false} PickJoins(x: seq<Session>, y: seq<Session>, f: Session -> Option<real>)
    ensures Pick(x + y, f) == Pick(x, f) + Pick(y, f)
    decreases |y|
  {
    if y == [] {
      assert x + y == x;
    } else {
      PickJoins(x, y[..|y| - 1], f);
      assert (x + y)[..|x + y| - 1] == x + y[..|y| - 1];
    }
  }

  /** A session that never started has no startup delay. */
  function StartupOf(s: Session): Option<real> { if s.startup < 0.0 then None else Some(s.startup) }

  /** One without jitter counts as not measured, and so does one without a median delay. */
  function JitterOf(s: Session): Option<real> { if s.jitter <= 0.0 then None else Some(s.jitter) }

  function MedianOf(s: Session): Option<real> { if s.p50 <= 0.0 then None else Some(s.p50) }

  function TailOf(s: Session): Option<real> { if s.p50 <= 0.0 then None else Some(s.p95) }

  predicate HasFigures(a: Acc, b: Acc, sessions: seq<Session>) {
    && b.startups == a.startups + Pick(sessions, StartupOf) && b.jitters == a.jitters + Pick(sessions, JitterOf)
    && b.e2e50s == a.e2e50s + Pick(sessions, MedianOf) && b.e2e95s == a.e2e95s + Pick(sessions, TailOf)
  }

  lemma {:induction false} SamplesKeepFigures(a: Acc, samples: seq<Sample>, w0: int, w1: int)
    ensures var b := AddSamples(a, samples, w0, w1);
            && b.startups == a.startups && b.jitters == a.jitters && b.e2e50s == a.e2e50s && b.e2e95s == a.e2e95s
            && b.recov == a.recov
    decreases |samples|
  {
    if samples != [] { SamplesKeepFigures(a, samples[..|samples| - 1], w0, w1); }
  }

  lemma PickOne(a: seq<real>, sessions: seq<Session>, f: Session -> Option<real>)
    requires sessions != []
    ensures var n := |sessions| - 1;
            var x := f(sessions[n]);
            a + Pick(sessions, f) == a + Pick(sessions[..n], f) + (if x.Some? then [x.value] else [])
  {
  }

  lemma {:induction false} SessionFigures(a: Acc, sessions: seq<Session>, w0: int, w1: int, windows: seq<Window>)
    ensures var b := AddSessions(a, sessions, w0, w1, windows);
            HasFigures(a, b, sessions) && b.recov == a.recov + RecoveredIn(sessions, windows)
    decreases |sessions|
  {
    hide AddSamples, Recoveries, BySecond;
    if sessions != [] {
      var n := |sessions| - 1;
      SessionFigures(a, sessions[..n], w0, w1, windows);
      var b, s := AddSessions(a, sessions[..n], w0, w1, windows), sessions[n];
      SamplesKeepFigures(AddFigures(b, s), s.seconds, w0, w1);
      hide Pick;
      PickOne(a.startups, sessions, StartupOf);
      PickOne(a.jitters, sessions, JitterOf);
      PickOne(a.e2e50s, sessions, MedianOf);
      PickOne(a.e2e95s, sessions, TailOf);
    }
  }

  /** The recovery times of the sessions, after each of the windows. */
  function RecoveredIn(sessions: seq<Session>, windows: seq<Window>): seq<real> {
    if sessions == [] then []
    else
      var s := sessions[|sessions| - 1];
      RecoveredIn(sessions[..|sessions| - 1], windows) + Recoveries(BySecond(s.seconds), windows)
  }

  function Recovered(runs: seq<RunRecord>): seq<real> {
    if runs == [] then []
    else
      var r := runs[|runs| - 1];
      Recovered(runs[..|runs| - 1]) + RecoveredIn(r.sessions, Scanned(Quotient(r.startedMs, 1000), r.timeline).out)
  }

  lemma {:induction false} CellFigures(runs: seq<RunRecord>)
    ensures HasFigures(EMPTY, AccOf(runs), AllSessions(runs)) && AccOf(runs).recov == Recovered(runs)
    decreases |runs|
  {
    hide AddSessions, Scanned, Pick, RecoveredIn;
    if runs == [] {
      NoFigures();
    } else {
      var n := |runs| - 1;
      CellFigures(runs[..n]);
      var a, r := AccOf(runs[..n]), runs[n];
      SessionFigures(a.(runs := a.runs + 1), r.sessions, Begin(r), Begin(r) + r.measure,
                     Scanned(Quotient(r.startedMs, 1000), r.timeline).out);
      var before := AllSessions(runs[..n]);
      PickJoins(before, r.sessions, StartupOf);
      PickJoins(before, r.sessions, JitterOf);
      PickJoins(before, r.sessions, MedianOf);
      PickJoins(before, r.sessions, TailOf);
    }
  }

  lemma NoFigures()
    ensures HasFigures(EMPTY, AccOf([]), AllSessions([])) && AccOf([]).recov == Recovered([])
  {
  }

  // ---------- Rows ----------

  /** The rates of a row: kilobits a second, stalled seconds a minute, and hundredths of the time stalled. */
  predicate Rates(r: Row, t: Totals) {
    if t.seconds == 0 then r.throughputKbps == r.stallSecPerMin == r.stalledPct == 0.0
    else
      var s := t.seconds as real;
      && 1000.0 * (r.throughputKbps * s) == 8.0 * t.bytes as real && r.stallSecPerMin * s == 60.0 * t.stalled as real
      && 10.0 * (r.stalledPct * s) == t.stallMs
  }

  lemma RatesOf(k: Key, a: Acc)
    ensures Rates(RowOf(k, a), TotalsIn(a))
  {
    hide PercentileOf;
    if a.seconds > 0 {
      var s := a.seconds as real;
      PerSecond(a.bytes as real * 8.0 / 1000.0, s);
      PerMinute(a.stallSecs as real, s);
      Share(a.stallMs, s);
    }
  }

  lemma PerSecond(x: real, s: real)
    requires s > 0.0
    ensures (x / s) * s == x
  {
  }

  lemma PerMinute(x: real, s: real)
    requires s > 0.0
    ensures (x / (s / 60.0)) * s == 60.0 * x
  {
    var m := s / 60.0;
    PerSecond(x, m);
    Regroup(x / m, m, 60.0);
    assert s == m * 60.0;
  }

  lemma Share(x: real, s: real)
    requires s > 0.0
    ensures 10.0 * ((x / (s * 1000.0) * 100.0) * s) == x
  {
    var m := s * 1000.0;
    PerSecond(x, m);
    Regroup(x / m, s, 1000.0);
    Regroup(100.0, x / m, s);
    assert (x / m * 100.0) * s == 100.0 * ((x / m) * s) by { Swap(x / m, s); }
  }

  lemma Regroup(a: real, b: real, c: real)
    ensures a * (b * c) == (a * b) * c
  {
  }

  lemma Swap(q: real, s: real)
    ensures (q * 100.0) * s == 100.0 * (q * s)
  {
  }

  /** A cell holds the runs of its profile and protocol, as often as they are there, and no others. */
  lemma {:induction false} CellHasItsRuns(runs: seq<RunRecord>, k: Key, r: RunRecord)
    ensures multiset(Matching(runs, k))[r]
            == if r.profile == k.profile && r.protocol == k.protocol then multiset(runs)[r] else 0
    decreases |runs|
  {
    if runs != [] {
      var init, last := runs[..|runs| - 1], runs[|runs| - 1];
      CellHasItsRuns(init, k, r);
      assert runs == init + [last];
      assert Matching(init, k) + [] == Matching(init, k);
    }
  }

  /** Every figure of every row of the table: the rates are those of the seconds measured, and each percentile is taken
      over the sessions of the cell that have the figure. */
  lemma RowFigures(runs: seq<RunRecord>, rows: seq<Row>, i: nat)
    requires AreRows(rows, Order(runs), runs) && i < |rows|
    ensures var r, cell := rows[i], Matching(runs, Order(runs)[i]);
            var sessions := AllSessions(cell);
            && r.key == Order(runs)[i] && r.runs == |cell|
            && r.sessions == Sum(cell, Sessions) && r.errors == Sum(cell, Errors)
            && Rates(r, TotalsOf(Measured(cell)))
            && r.startupP50 == PercentileOf(Pick(sessions, StartupOf), 50)
            && r.startupP95 == PercentileOf(Pick(sessions, StartupOf), 95)
            && r.e2eP50 == PercentileOf(Pick(sessions, MedianOf), 50)
            && r.e2eP95 == PercentileOf(Pick(sessions, TailOf), 50)
            && r.jitterP50 == PercentileOf(Pick(sessions, JitterOf), 50)
            && r.recoveryP50 == PercentileOf(Recovered(cell), 50)
  {
    hide PercentileOf, Rates, Measured, TotalsOf, Matching, AccOf, Order, Pick, AllSessions, Recovered;
    var k := Order(runs)[i];
    var cell := Matching(runs, k);
    RatesOf(k, AccOf(cell));
    CellTotals(cell);
    CellFigures(cell);
    CellCounts(cell);
    assert [] + Pick(AllSessions(cell), StartupOf) == Pick(AllSessions(cell), StartupOf);
    assert [] + Pick(AllSessions(cell), JitterOf) == Pick(AllSessions(cell), JitterOf);
    assert [] + Pick(AllSessions(cell), MedianOf) == Pick(AllSessions(cell), MedianOf);
    assert [] + Pick(AllSessions(cell), TailOf) == Pick(AllSessions(cell), TailOf);
  }

  /** Where a cell first appears. */
  function FirstAt(runs: seq<RunRecord>, k: Key): nat {
    if runs == [] then 0
    else if KeyOf(runs[|runs| - 1]) == k && k !in Order(runs[..|runs| - 1]) then |runs| - 1
    else FirstAt(runs[..|runs| - 1], k)
  }

  /** That is the first run of the cell, and the cells are in the order of these. */
  lemma {:induction false} OrderIsByFirst(runs: seq<RunRecord>, i: nat, j: nat)
    requires i < j < |Order(runs)|
    ensures FirstAt(runs, Order(runs)[i]) < FirstAt(runs, Order(runs)[j]) < |runs|
    ensures KeyOf(runs[FirstAt(runs, Order(runs)[i])]) == Order(runs)[i]
    ensures forall k :: 0 <= k < FirstAt(runs, Order(runs)[i]) ==> KeyOf(runs[k]) != Order(runs)[i]
    decreases |runs|
  {
    var n := |runs| - 1;
    FirstIsFirst(runs, Order(runs)[i]);
    FirstIsFirst(runs, Order(runs)[j]);
    OrderDistinct(runs);
    if j < |Order(runs[..n])| {
      OrderIsByFirst(runs[..n], i, j);
    } else {
      FirstIsFirst(runs[..n], Order(runs)[i]);
    }
  }

  lemma {:induction false} FirstIsFirst(runs: seq<RunRecord>, k: Key)
    requires k in Order(runs)
    ensures FirstAt(runs, k) < |runs| && KeyOf(runs[FirstAt(runs, k)]) == k
    ensures forall m :: 0 <= m < FirstAt(runs, k) ==> KeyOf(runs[m]) != k
    decreases |runs|
  {
    var n := |runs| - 1;
    if k in Order(runs[..n]) {
      FirstIsFirst(runs[..n], k);
    } else {
      forall m | 0 <= m < n ensures KeyOf(runs[m]) != k {
        if KeyOf(runs[m]) == k {
          assert runs[..n][m] == runs[m] && runs[m] in runs[..n];
          EveryRunHasACell(runs[..n], runs[m]);
        }
      }
    }
  }
}
