/** internal/expctl/aggregate.go:32-103 and 160-168: the results matrix. */
module Aggregate {
  import opened Basics
  import opened Sorting
  import opened Impairment

  datatype Session = Session(startup: real, jitter: real, p50: real, p95: real, errors: nat, seconds: seq<Sample>)

  datatype RunRecord = RunRecord(profile: string, protocol: string, startedMs: int, warmup: int, measure: int,
                                 timeline: seq<Event>, sessions: seq<Session>)

  /** A cell of the matrix. */
  datatype Key = Key(profile: string, protocol: string)

  datatype Acc = Acc(runs: nat, sessions: nat, errors: nat, startups: seq<real>, jitters: seq<real>,
                     e2e50s: seq<real>, e2e95s: seq<real>, recov: seq<real>,
                     bytes: nat, stallMs: real, stallSecs: nat, seconds: nat)

  const EMPTY := Acc(0, 0, 0, [], [], [], [], [], 0, 0.0, 0, 0)

  function KeyOf(r: RunRecord): Key { Key(r.profile, r.protocol) }

  function Begin(r: RunRecord): int { Quotient(r.startedMs, 1000) + r.warmup }

  /** One second, if it lies in the measure window. */
  function AddSample(a: Acc, s: Sample, w0: int, w1: int): Acc {
    if w0 <= s.unix < w1 then
      a.(bytes := a.bytes + s.bytes, stallMs := a.stallMs + s.stallMs,
         stallSecs := if s.stallMs > 0.0 then a.stallSecs + 1 else a.stallSecs, seconds := a.seconds + 1)
    else a
  }

  function AddSamples(a: Acc, samples: seq<Sample>, w0: int, w1: int): Acc {
    if samples == [] then a
    else AddSample(AddSamples(a, samples[..|samples| - 1], w0, w1), samples[|samples| - 1], w0, w1)
  }

  /** A session's own figures. */
  function AddFigures(a: Acc, s: Session): Acc {
    a.(sessions := a.sessions + 1, errors := a.errors + s.errors,
       startups := if s.startup >= 0.0 then a.startups + [s.startup] else a.startups,
       jitters := if s.jitter > 0.0 then a.jitters + [s.jitter] else a.jitters,
       e2e50s := if s.p50 > 0.0 then a.e2e50s + [s.p50] else a.e2e50s,
       e2e95s := if s.p50 > 0.0 then a.e2e95s + [s.p95] else a.e2e95s)
  }

  function AddSession(a: Acc, s: Session, w0: int, w1: int, windows: seq<Window>): Acc {
    var b := AddSamples(AddFigures(a, s), s.seconds, w0, w1);
    b.(recov := b.recov + Recoveries(BySecond(s.seconds), windows))
  }

  function AddSessions(a: Acc, sessions: seq<Session>, w0: int, w1: int, windows: seq<Window>): Acc {
    if sessions == [] then a
    else
      var b := AddSessions(a, sessions[..|sessions| - 1], w0, w1, windows);
      AddSession(b, sessions[|sessions| - 1], w0, w1, windows)
  }

  function AddRun(a: Acc, r: RunRecord): Acc {
    AddSessions(a.(runs := a.runs + 1), r.sessions, Begin(r), Begin(r) + r.measure,
                Scanned(Quotient(r.startedMs, 1000), r.timeline).out)
  }

  /** All of these runs in one cell. */
  function AccOf(runs: seq<RunRecord>): Acc {
    if runs == [] then EMPTY else AddRun(AccOf(runs[..|runs| - 1]), runs[|runs| - 1])
  }

  /** The runs of one cell, in order. */
  function Matching(runs: seq<RunRecord>, k: Key): seq<RunRecord> {
    if runs == [] then []
    else
      var r := runs[|runs| - 1];
      Matching(runs[..|runs| - 1], k) + if KeyOf(r) == k then [r] else []
  }

  /** The cells, in order of first appearance. */
  function Order(runs: seq<RunRecord>): seq<Key> {
    if runs == [] then []
    else
      var o, k := Order(runs[..|runs| - 1]), KeyOf(runs[|runs| - 1]);
      if k in o then o else o + [k]
  }

  // ---------- Percentiles ----------

  /** None is NaN. */
  function PercentileOf(xs: seq<real>, p: nat): Option<real>
    requires p <= 100
  {
    if xs == [] then None else Some(Sort(xs)[Index(|xs|, p)])
  }

  function Index(n: nat, p: nat): (i: nat)
    requires n > 0 && p <= 100
    ensures i < n
  {
    Scaled(n - 1, p, 100);
    (n - 1) * p / 100
  }

  lemma Scaled(n: nat, p: nat, q: nat)
    requires p <= q
    ensures n * p <= n * q
  {
  }

  method Percentile(xs: seq<real>, p: nat) returns (v: Option<real>)
    requires p <= 100
    ensures v == PercentileOf(xs, p)
  {
    if |xs| == 0 {
      return None;
    }
    var s := Sort(xs);
    var idx := Index(|s|, p);
    v := Some(s[idx]);
  }

  /** A percentile is one of the values, has at least its share of them on either side, and grows with p from the
      least value to the greatest. */
  lemma PercentileIsOrderStatistic(xs: seq<real>, p: nat, q: nat)
    requires xs != [] && p <= q <= 100
    ensures var v, i := PercentileOf(xs, p).value, (|xs| - 1) * p / 100;
            && v in xs && AtMost(xs, v) >= i + 1 && AtLeast(xs, v) >= |xs| - i
            && v <= PercentileOf(xs, q).value
    ensures PercentileOf(xs, 0).value == Sort(xs)[0] && PercentileOf(xs, 100).value == Sort(xs)[|xs| - 1]
  {
    hide Sort;
    Scaled(|xs| - 1, p, q);
    OrderStatistic(xs, Index(|xs|, p), Index(|xs|, q));
  }

  // ---------- Rows ----------

  datatype Row = Row(key: Key, runs: nat, sessions: nat, errors: nat,
                     startupP50: Option<real>, startupP95: Option<real>,
                     e2eP50: Option<real>, e2eP95: Option<real>, jitterP50: Option<real>, recoveryP50: Option<real>,
                     throughputKbps: real, stallSecPerMin: real, stalledPct: real)

  function RowOf(k: Key, a: Acc): Row {
    var s := a.seconds as real;
    Row(k, a.runs, a.sessions, a.errors, PercentileOf(a.startups, 50), PercentileOf(a.startups, 95),
        PercentileOf(a.e2e50s, 50), PercentileOf(a.e2e95s, 50), PercentileOf(a.jitters, 50), PercentileOf(a.recov, 50),
        if a.seconds > 0 then a.bytes as real * 8.0 / 1000.0 / s else 0.0,
        if a.seconds > 0 then a.stallSecs as real / (s / 60.0) else 0.0,
        if a.seconds > 0 then a.stallMs / (s * 1000.0) * 100.0 else 0.0)
  }

  method AddSessionTo(a: Acc, s: Session, w0: int, w1: int, windows: seq<Window>) returns (b: Acc)
    ensures b == AddSession(a, s, w0, w1, windows)
  {
    b := a.(sessions := a.sessions + 1, errors := a.errors + s.errors);
    if s.startup >= 0.0 {
      b := b.(startups := b.startups + [s.startup]);
    }
    if s.jitter > 0.0 {
      b := b.(jitters := b.jitters + [s.jitter]);
    }
    if s.p50 > 0.0 {
      b := b.(e2e50s := b.e2e50s + [s.p50], e2e95s := b.e2e95s + [s.p95]);
    }
    ghost var c := b;
    assert c == AddFigures(a, s);
    for i := 0 to |s.seconds|
      invariant b == AddSamples(c, s.seconds[..i], w0, w1)
    {
      assert s.seconds[..i + 1][..i] == s.seconds[..i];
      var sec := s.seconds[i];
      if sec.unix >= w0 && sec.unix < w1 {
        b := b.(bytes := b.bytes + sec.bytes, stallMs := b.stallMs + sec.stallMs);
        if sec.stallMs > 0.0 {
          b := b.(stallSecs := b.stallSecs + 1);
        }
        b := b.(seconds := b.seconds + 1);
      }
    }
    assert s.seconds[..|s.seconds|] == s.seconds;
    var times := RecoveryTimes(s.seconds, windows);
    b := b.(recov := b.recov + times);
  }

  method AddRunTo(a: Acc, r: RunRecord) returns (b: Acc)
    ensures b == AddRun(a, r)
  {
    hide AddSession;
    b := a.(runs := a.runs + 1);
    ghost var c := b;
    var w0 := Quotient(r.startedMs, 1000) + r.warmup;
    var w1 := w0 + r.measure;
    var windows := ImpairmentWindows(r.startedMs, r.timeline);
    for i := 0 to |r.sessions|
      invariant b == AddSessions(c, r.sessions[..i], w0, w1, windows)
    {
      assert r.sessions[..i + 1][..i] == r.sessions[..i];
      b := AddSessionTo(b, r.sessions[i], w0, w1, windows);
    }
    assert r.sessions[..|r.sessions|] == r.sessions;
  }

  /** The accumulators after some runs. */
  ghost predicate Holds(accs: map<Key, Acc>, order: seq<Key>, runs: seq<RunRecord>) {
    && order == Order(runs) && (forall k :: k in accs <==> k in order)
    && forall k :: k in accs ==> accs[k] == AccOf(Matching(runs, k))
  }

  lemma NoRuns()
    ensures AccOf([]) == EMPTY
  {
  }

  lemma HoldsFirst()
    ensures Holds(map[], [], [])
  {
  }

  lemma HeldCells(accs: map<Key, Acc>, order: seq<Key>, runs: seq<RunRecord>)
    requires Holds(accs, order, runs)
    ensures order == Order(runs) && forall k :: k in order ==> k in accs && accs[k] == AccOf(Matching(runs, k))
  {
  }

  lemma MatchingMore(runs: seq<RunRecord>, r: RunRecord, k: Key)
    ensures Matching(runs + [r], k) == Matching(runs, k) + if KeyOf(r) == k then [r] else []
  {
    assert (runs + [r])[..|runs|] == runs;
  }

  lemma {:induction false} UnknownCell(runs: seq<RunRecord>, k: Key)
    ensures k in Order(runs) <==> Matching(runs, k) != []
  {
    if runs != [] {
      UnknownCell(runs[..|runs| - 1], k);
    }
  }

  lemma AccMore(runs: seq<RunRecord>, r: RunRecord, k: Key)
    requires KeyOf(r) == k
    ensures AccOf(Matching(runs + [r], k)) == AddRun(AccOf(Matching(runs, k)), r)
  {
    hide AddRun, Matching;
    MatchingMore(runs, r, k);
    var m := Matching(runs, k);
    assert (m + [r])[..|m|] == m;
  }

  lemma HoldsMore(accs: map<Key, Acc>, order: seq<Key>, runs: seq<RunRecord>, r: RunRecord)
    requires Holds(accs, order, runs)
    ensures var k := KeyOf(r);
            var a := if k in accs then accs[k] else EMPTY;
            Holds(accs[k := AddRun(a, r)], if k in accs then order else order + [k], runs + [r])
  {
    hide AddRun, Matching, AccOf;
    var k := KeyOf(r);
    assert (runs + [r])[..|runs|] == runs;
    UnknownCell(runs, k);
    NoRuns();
    AccMore(runs, r, k);
    forall j | j != k ensures Matching(runs + [r], j) == Matching(runs, j) { MatchingMore(runs, r, j); }
  }

  /** One row for each cell, in order of first appearance, and each is what that cell's runs alone amount to. */
  method Tabulate(runs: seq<RunRecord>) returns (rows: seq<Row>)
    ensures AreRows(rows, Order(runs), runs)
  {
    hide AddRun, Matching, AccOf, Holds, Order, PercentileOf;
    var accs: map<Key, Acc> := map[];
    var order: seq<Key> := [];
    HoldsFirst();
    for i := 0 to |runs|
      invariant Holds(accs, order, runs[..i])
    {
      assert runs[..i + 1] == runs[..i] + [runs[i]];
      HoldsMore(accs, order, runs[..i], runs[i]);
      var k := KeyOf(runs[i]);
      var a := if k in accs then accs[k] else EMPTY;
      if k !in accs {
        order := order + [k];
      }
      var b := AddRunTo(a, runs[i]);
      accs := accs[k := b];
    }
    assert runs[..|runs|] == runs;
    HeldCells(accs, order, runs);
    rows := [];
    for i := 0 to |order|
      invariant |rows| == i && forall j :: 0 <= j < i ==> rows[j] == RowOf(order[j], accs[order[j]])
    {
      var row := MakeRow(order[i], accs[order[i]]);
      rows := rows + [row];
    }
  }

  method MakeRow(k: Key, a: Acc) returns (r: Row)
    ensures r == RowOf(k, a)
  {
    hide PercentileOf;
    var startup50 := Percentile(a.startups, 50);
    var startup95 := Percentile(a.startups, 95);
    var e2e50 := Percentile(a.e2e50s, 50);
    var e2e95 := Percentile(a.e2e95s, 50);
    var jitter := Percentile(a.jitters, 50);
    var recovery := Percentile(a.recov, 50);
    r := Row(k, a.runs, a.sessions, a.errors, startup50, startup95, e2e50, e2e95, jitter, recovery, 0.0, 0.0, 0.0);
    if a.seconds > 0 {
      var s := a.seconds as real;
      r := r.(throughputKbps := a.bytes as real * 8.0 / 1000.0 / s, stallSecPerMin := a.stallSecs as real / (s / 60.0),
              stalledPct := a.stallMs / (s * 1000.0) * 100.0);
    }
  }

  // ---------- Conservation ----------

  function One(r: RunRecord): nat { 1 }

  function Sessions(r: RunRecord): nat { |r.sessions| }

  function ErrorsOf(sessions: seq<Session>): nat {
    if sessions == [] then 0 else ErrorsOf(sessions[..|sessions| - 1]) + sessions[|sessions| - 1].errors
  }

  function Errors(r: RunRecord): nat { ErrorsOf(r.sessions) }

  function Sum(runs: seq<RunRecord>, f: RunRecord -> nat): nat {
    if runs == [] then 0 else Sum(runs[..|runs| - 1], f) + f(runs[|runs| - 1])
  }

  function SumCells(keys: seq<Key>, runs: seq<RunRecord>, f: RunRecord -> nat): nat {
    if keys == [] then 0 else SumCells(keys[1..], runs, f) + Sum(Matching(runs, keys[0]), f)
  }

  lemma SumMore(runs: seq<RunRecord>, r: RunRecord, f: RunRecord -> nat)
    ensures Sum(runs + [r], f) == Sum(runs, f) + f(r)
  {
    assert (runs + [r])[..|runs|] == runs;
  }

  predicate Distinct(keys: seq<Key>) { forall i, j :: 0 <= i < j < |keys| ==> keys[i] != keys[j] }

  lemma {:induction false} OrderDistinct(runs: seq<RunRecord>)
    ensures Distinct(Order(runs))
  {
    if runs != [] {
      OrderDistinct(runs[..|runs| - 1]);
    }
  }

  /** One more run counts in its own cell, once. */
  lemma {:induction false} CellsMore(keys: seq<Key>, runs: seq<RunRecord>, r: RunRecord, f: RunRecord -> nat)
    requires Distinct(keys)
    ensures SumCells(keys, runs + [r], f) == SumCells(keys, runs, f) + if KeyOf(r) in keys then f(r) else 0
  {
    hide Matching, Sum;
    if keys != [] {
      CellsMore(keys[1..], runs, r, f);
      MatchingMore(runs, r, keys[0]);
      assert Matching(runs, keys[0]) + [] == Matching(runs, keys[0]);
      SumMore(Matching(runs, keys[0]), r, f);
      assert KeyOf(r) in keys <==> KeyOf(r) == keys[0] || KeyOf(r) in keys[1..];
      assert KeyOf(r) == keys[0] ==> KeyOf(r) !in keys[1..];
    }
  }

  lemma {:induction false} CellsAddUp(keys: seq<Key>, runs: seq<RunRecord>, f: RunRecord -> nat)
    requires Distinct(keys) && forall r :: r in runs ==> KeyOf(r) in keys
    ensures SumCells(keys, runs, f) == Sum(runs, f)
    decreases |runs|
  {
    hide Matching;
    if runs == [] {
      NoCells(keys, f);
    } else {
      var init, r := runs[..|runs| - 1], runs[|runs| - 1];
      assert runs == init + [r];
      CellsAddUp(keys, init, f);
      CellsMore(keys, init, r, f);
    }
  }

  lemma {:induction false} NoCells(keys: seq<Key>, f: RunRecord -> nat)
    ensures SumCells(keys, [], f) == 0
  {
    if keys != [] {
      NoCells(keys[1..], f);
    }
  }

  lemma {:induction false} EveryRunHasACell(runs: seq<RunRecord>, r: RunRecord)
    requires r in runs
    ensures KeyOf(r) in Order(runs)
  {
    if r != runs[|runs| - 1] {
      assert r in runs[..|runs| - 1];
      EveryRunHasACell(runs[..|runs| - 1], r);
    }
  }

  lemma CellsConserve(runs: seq<RunRecord>)
    ensures SumCells(Order(runs), runs, One) == |runs|
    ensures SumCells(Order(runs), runs, Sessions) == Sum(runs, Sessions)
    ensures SumCells(Order(runs), runs, Errors) == Sum(runs, Errors)
  {
    hide Matching, Order;
    OrderDistinct(runs);
    forall r | r in runs ensures KeyOf(r) in Order(runs) { EveryRunHasACell(runs, r); }
    CellsAddUp(Order(runs), runs, One);
    CellsAddUp(Order(runs), runs, Sessions);
    CellsAddUp(Order(runs), runs, Errors);
    SumOnes(runs);
  }

  lemma {:induction false} SumOnes(runs: seq<RunRecord>)
    ensures Sum(runs, One) == |runs|
  {
    if runs != [] {
      SumOnes(runs[..|runs| - 1]);
    }
  }

  lemma {:induction false} SamplesKeepCounts(a: Acc, samples: seq<Sample>, w0: int, w1: int)
    ensures var b := AddSamples(a, samples, w0, w1);
            b.runs == a.runs && b.sessions == a.sessions && b.errors == a.errors
  {
    if samples != [] {
      SamplesKeepCounts(a, samples[..|samples| - 1], w0, w1);
    }
  }

  lemma {:induction false} SessionsCount(a: Acc, sessions: seq<Session>, w0: int, w1: int, windows: seq<Window>)
    ensures var b := AddSessions(a, sessions, w0, w1, windows);
            b.runs == a.runs && b.sessions == a.sessions + |sessions| && b.errors == a.errors + ErrorsOf(sessions)
  {
    hide AddSamples, Recoveries, BySecond;
    if sessions != [] {
      var n := |sessions| - 1;
      SessionsCount(a, sessions[..n], w0, w1, windows);
      var b := AddSessions(a, sessions[..n], w0, w1, windows);
      SamplesKeepCounts(AddFigures(b, sessions[n]), sessions[n].seconds, w0, w1);
    }
  }

  /** A row's counts are the sums over its cell. */
  lemma {:induction false} CellCounts(runs: seq<RunRecord>)
    ensures var a := AccOf(runs); a.runs == |runs| && a.sessions == Sum(runs, Sessions) && a.errors == Sum(runs, Errors)
  {
    hide AddSessions, Scanned;
    if runs != [] {
      var n := |runs| - 1;
      CellCounts(runs[..n]);
      var a, r := AccOf(runs[..n]), runs[n];
      SessionsCount(a.(runs := a.runs + 1), r.sessions, Begin(r), Begin(r) + r.measure,
                    Scanned(Quotient(r.startedMs, 1000), r.timeline).out);
    }
  }

  /** What Tabulate returns. */
  predicate AreRows(rows: seq<Row>, keys: seq<Key>, runs: seq<RunRecord>) {
    |rows| == |keys| && forall i :: 0 <= i < |rows| ==> rows[i] == RowOf(keys[i], AccOf(Matching(runs, keys[i])))
  }

  function SumRows(rows: seq<Row>, f: Row -> nat): nat {
    if rows == [] then 0 else SumRows(rows[1..], f) + f(rows[0])
  }

  function RowRuns(r: Row): nat { r.runs }
  function RowSessions(r: Row): nat { r.sessions }
  function RowErrors(r: Row): nat { r.errors }

  lemma {:induction false} RowsAreCells(rows: seq<Row>, keys: seq<Key>, runs: seq<RunRecord>)
    requires AreRows(rows, keys, runs)
    ensures SumRows(rows, RowRuns) == SumCells(keys, runs, One)
    ensures SumRows(rows, RowSessions) == SumCells(keys, runs, Sessions)
    ensures SumRows(rows, RowErrors) == SumCells(keys, runs, Errors)
  {
    hide Matching, AccOf, PercentileOf;
    if keys != [] {
      assert forall i :: 0 <= i < |rows| - 1 ==> rows[1..][i] == rows[i + 1] && keys[1..][i] == keys[i + 1];
      RowsAreCells(rows[1..], keys[1..], runs);
      CellCounts(Matching(runs, keys[0]));
      SumOnes(Matching(runs, keys[0]));
    }
  }

  /** The table loses nothing: over its rows, runs, sessions and errors add up to those of all the runs. */
  lemma TableConserves(runs: seq<RunRecord>, rows: seq<Row>)
    requires AreRows(rows, Order(runs), runs)
    ensures SumRows(rows, RowRuns) == |runs|
    ensures SumRows(rows, RowSessions) == Sum(runs, Sessions)
    ensures SumRows(rows, RowErrors) == Sum(runs, Errors)
  {
    hide Order, AreRows;
    RowsAreCells(rows, Order(runs), runs);
    CellsConserve(runs);
  }
}
