/** internal/loadgen/loadgen.go:144-263: the recorder that scores one viewer session. */
module Recorder {
  import opened Basics
  import opened Sorting

  const JITTER_BUF: int := 150_000
  const STALL_THRESHOLD: int := 100_000
  const RESERVOIR: nat := 8192

  /** int64(n). */
  function Signed(n: u64): int {
    if n < 0x8000_0000_0000_0000 then n else n - 0x1_0000_0000_0000_0000
  }

  /** time.Unix of a time in microseconds. */
  function Unix(micros: int): int { micros / 1_000_000 }

  /** A second's sample; also a sum of such samples. */
  datatype Second = Second(bytes: nat, frames: nat, stallMs: real)

  const NOTHING := Second(0, 0, 0.0)

  function Plus(a: Second, b: Second): Second {
    Second(a.bytes + b.bytes, a.frames + b.frames, a.stallMs + b.stallMs)
  }

  /** What the recorder observed, in order: media units and stalls with the second they are charged to, deviations
      of the interarrival time, and end-to-end delays. */
  datatype Event = Unit(sec: int, bytes: nat) | Stall(sec: int, ms: real) | Deviation(d: real) | Delay(ms: real)

  datatype Log = Empty | Add(prev: Log, last: Event)

  function Seconds(m: map<int, Second>, sec: int): Second {
    if sec in m then m[sec] else NOTHING
  }

  /** A recorder's fields. */
  datatype Score = Score(
    startup: real, startupSet: bool, bytes: nat, stallCount: nat, stalledMs: real, prevArr: int, prevPTS: u64,
    maxPTS: u64, jitter: real, e2e: seq<real>, seconds: map<int, Second>, log: Log)

  const FRESH := Score(-1.0, false, 0, 0, 0.0, 0, 0, 0, 0.0, [], map[], Empty)

  // ---------- The calls, on values ----------

  function Stalled(v: Score, now: int, ms: real): (w: Score)
    ensures w.prevArr == v.prevArr
  {
    var s := Seconds(v.seconds, Unix(now));
    v.(stallCount := v.stallCount + 1, stalledMs := v.stalledMs + ms,
       seconds := v.seconds[Unix(now) := s.(stallMs := s.stallMs + ms)], log := Add(v.log, Stall(Unix(now), ms)))
  }

  function Received(v: Score, now: int, bytes: nat): (w: Score)
    ensures w.prevArr == v.prevArr
  {
    var s := Seconds(v.seconds, Unix(now));
    v.(bytes := v.bytes + bytes,
       seconds := v.seconds[Unix(now) := s.(bytes := s.bytes + bytes, frames := s.frames + 1)],
       log := Add(v.log, Unit(Unix(now), bytes)))
  }

  /** One end-to-end delay; a full reservoir replaces the sample at `pick`, which the source draws at random. */
  function Delayed(v: Score, ms: real, pick: nat): (w: Score)
    ensures w.prevArr == v.prevArr
  {
    if ms < 0.0 then v
    else
      var log := Add(v.log, Delay(ms));
      if |v.e2e| < RESERVOIR then v.(e2e := v.e2e + [ms], log := log)
      else v.(e2e := v.e2e[pick % |v.e2e| := ms], log := log)
  }

  function Started(v: Score, startup: real): Score {
    if v.startupSet then v else v.(startupSet := true, startup := startup)
  }

  function Abs(x: real): real { if x < 0.0 then -x else x }

  /** The jitter estimate of section 6.4.1 of RFC 3550, over units in presentation order. */
  function Jittered(v: Score, now: int, pts: u64): Score {
    if pts <= v.maxPTS then v
    else
      var d := Abs((now - v.prevArr) as real - ((pts - v.prevPTS) % 0x1_0000_0000_0000_0000) as real);
      v.(jitter := v.jitter + (d - v.jitter) / 16.0, prevPTS := pts, maxPTS := pts, log := Add(v.log, Deviation(d)))
  }

  predicate Starved(autoStall: bool, gap: int) { autoStall && gap > JITTER_BUF + STALL_THRESHOLD }

  /** How a session is configured: who marks startup and who accounts for stalls, and when it began. */
  datatype Config = Config(manualStartup: bool, autoStall: bool, start: int)

  function Media(v: Score, c: Config, now: int, pts: u64, bytes: nat, pick: nat): Score {
    var u := Delayed(Received(v, now, bytes), (now - Signed(pts)) as real / 1000.0, pick);
    if v.prevArr == 0 then
      var w := if c.manualStartup then u else Started(u, (now - c.start) as real / 1000.0);
      w.(prevArr := now, prevPTS := pts, maxPTS := pts)
    else
      var gap := now - v.prevArr;
      var w := if Starved(c.autoStall, gap) then Stalled(u, now, (gap - JITTER_BUF) as real / 1000.0) else u;
      Jittered(w, now, pts).(prevArr := now)
  }

  datatype Call =
    | Arrived(now: int, pts: u64, bytes: nat, pick: nat)
    | Underran(now: int, ms: real)
    | Began(now: int)

  function Step(v: Score, c: Config, call: Call): Score {
    match call
    case Arrived(now, pts, bytes, pick) => Media(v, c, now, pts, bytes, pick)
    case Underran(now, ms) => Stalled(v, now, ms)
    case Began(now) => Started(v, (now - c.start) as real / 1000.0)
  }

  function Run(c: Config, calls: seq<Call>): Score {
    if calls == [] then FRESH else Step(Run(c, calls[..|calls| - 1]), c, calls[|calls| - 1])
  }

  // ---------- Snapshots ----------

  /** SecondSample. */
  datatype Row = Row(unix: int, sample: Second)

  datatype Result = Result(startup: real, stallCount: nat, stalledMs: real, jitterMs: real, p50: real, p95: real,
                           bytes: nat, seconds: seq<Row>)

  predicate Increasing(rows: seq<Row>) { forall i, j :: 0 <= i < j < |rows| ==> rows[i].unix < rows[j].unix }

  predicate Has(rows: seq<Row>, sec: int) { exists i :: 0 <= i < |rows| && rows[i].unix == sec }

  /** The rows of the seconds in the map, in order of time. */
  ghost predicate Lists(rows: seq<Row>, m: map<int, Second>) {
    && Increasing(rows)
    && (forall i :: 0 <= i < |rows| ==> rows[i].unix in m && rows[i].sample == m[rows[i].unix])
    && forall sec :: sec in m ==> Has(rows, sec)
  }

  /** sort.Slice by time, one row at a time. */
  function InsertRow(r: Row, rows: seq<Row>): seq<Row> {
    if rows == [] || r.unix < rows[0].unix then [r] + rows else [rows[0]] + InsertRow(r, rows[1..])
  }

  function SortRows(rows: seq<Row>): seq<Row> {
    if rows == [] then [] else InsertRow(rows[|rows| - 1], SortRows(rows[..|rows| - 1]))
  }

  lemma {:induction false} InsertRowSorts(r: Row, rows: seq<Row>)
    requires Increasing(rows) && !Has(rows, r.unix)
    ensures var t := InsertRow(r, rows);
            && Increasing(t) && t != [] && t[0] == (if rows == [] || r.unix < rows[0].unix then r else rows[0])
            && r in t && (forall q :: q in rows ==> q in t) && forall q :: q in t ==> q == r || q in rows
  {
    if rows != [] && r.unix >= rows[0].unix {
      assert rows[0].unix != r.unix;
      forall i | 0 <= i < |rows[1..]| ensures rows[1..][i].unix != r.unix { assert rows[1..][i] == rows[i + 1]; }
      InsertRowSorts(r, rows[1..]);
      var t := InsertRow(r, rows[1..]);
      forall j | 0 <= j < |t| ensures rows[0].unix < t[j].unix { assert t[0].unix <= t[j].unix; }
      assert InsertRow(r, rows)[1..] == t;
      forall q | q in rows ensures q in InsertRow(r, rows) {
        if q != rows[0] { assert q in rows[1..]; }
      }
    }
  }

  lemma ListsMore(rows: seq<Row>, m: map<int, Second>, sec: int, s: Second)
    requires Lists(rows, m) && sec !in m
    ensures Lists(InsertRow(Row(sec, s), rows), m[sec := s])
  {
    InsertRowSorts(Row(sec, s), rows);
    var t := InsertRow(Row(sec, s), rows);
    forall k | k in m[sec := s] ensures Has(t, k) {
      if k != sec {
        var i :| 0 <= i < |rows| && rows[i].unix == k;
        assert rows[i] in t;
      }
    }
    forall i | 0 <= i < |t| ensures t[i].unix in m[sec := s] && t[i].sample == m[sec := s][t[i].unix] {
      assert t[i] in t;
    }
  }

  /** The rows of a map, which the source visits in no particular order and then sorts. */
  method Rows(m: map<int, Second>) returns (sorted: seq<Row>)
    ensures Lists(sorted, m)
  {
    var rows: seq<Row> := [];
    var left := m.Keys;
    ghost var done: map<int, Second> := map[];
    while exists sec :: sec in left
      invariant left <= m.Keys && done.Keys == m.Keys - left
      invariant forall k :: k in done ==> done[k] == m[k]
      invariant Lists(SortRows(rows), done)
      decreases |left|
    {
      var sec :| sec in left;
      var r := Row(sec, m[sec]);
      assert (rows + [r])[..|rows|] == rows;
      assert SortRows(rows + [r]) == InsertRow(r, SortRows(rows));
      ListsMore(SortRows(rows), done, sec, m[sec]);
      done := done[sec := m[sec]];
      rows := rows + [r];
      assert left - {sec} < left;
      left := left - {sec};
    }
    forall k ensures k in done <==> k in m { assert k in done.Keys <==> k in m.Keys - left; }
    sorted := SortRows(rows);
  }

  // ---------- The recorder itself ----------

  class Recorder {
    const config: Config
    var startup: real
    var startupSet: bool
    var bytes: nat
    var stallCount: nat
    var stalledMs: real
    var prevArr: int
    var prevPTS: u64
    var maxPTS: u64
    var jitter: real
    var e2e: seq<real>
    var seconds: map<int, Second>
    var log: Log

    function Value(): Score
      reads this
    {
      Score(startup, startupSet, bytes, stallCount, stalledMs, prevArr, prevPTS, maxPTS, jitter, e2e, seconds, log)
    }

    constructor (c: Config)
      ensures Value() == FRESH && config == c
    {
      config := c;
      startup, startupSet, bytes, stallCount, stalledMs := -1.0, false, 0, 0, 0.0;
      prevArr, prevPTS, maxPTS, jitter, e2e, seconds, log := 0, 0, 0, 0.0, [], map[], Empty;
    }

    method MarkStartup(now: int)
      modifies this
      ensures Value() == Step(old(Value()), config, Began(now))
    {
      if startupSet {
        return;
      }
      startupSet := true;
      startup := (now - config.start) as real / 1000.0;
    }

    method AddStall(now: int, ms: real)
      modifies this
      ensures Value() == Step(old(Value()), config, Underran(now, ms))
    {
      stallCount := stallCount + 1;
      stalledMs := stalledMs + ms;
      var s := Seconds(seconds, Unix(now));
      seconds := seconds[Unix(now) := s.(stallMs := s.stallMs + ms)];
      log := Add(log, Stall(Unix(now), ms));
    }

    /** The part of Media before the arrival is compared with the one before it. */
    method Receive(now: int, pts: u64, nbytes: nat, pick: nat)
      modifies this
      ensures Value() == Delayed(Received(old(Value()), now, nbytes), (now - Signed(pts)) as real / 1000.0, pick)
    {
      bytes := bytes + nbytes;
      var s := Seconds(seconds, Unix(now));
      seconds := seconds[Unix(now) := s.(bytes := s.bytes + nbytes, frames := s.frames + 1)];
      log := Add(log, Unit(Unix(now), nbytes));
      var delay := (now - Signed(pts)) as real / 1000.0;
      if delay >= 0.0 {
        if |e2e| < RESERVOIR {
          e2e := e2e + [delay];
        } else {
          e2e := e2e[pick % |e2e| := delay];
        }
        log := Add(log, Delay(delay));
      }
    }

    /** The jitter update of Media. */
    method Deviate(now: int, pts: u64)
      modifies this
      ensures Value() == Jittered(old(Value()), now, pts)
    {
      if pts > maxPTS {
        var d := (now - prevArr) as real - ((pts - prevPTS) % 0x1_0000_0000_0000_0000) as real;
        if d < 0.0 {
          d := -d;
        }
        jitter := jitter + (d - jitter) / 16.0;
        prevPTS := pts;
        maxPTS := pts;
        log := Add(log, Deviation(d));
      }
    }

    method AddMedia(now: int, pts: u64, nbytes: nat, pick: nat)
      modifies this
      ensures Value() == Step(old(Value()), config, Arrived(now, pts, nbytes, pick))
    {
      hide Received, Delayed, Stalled, Jittered, Signed, Unix;
      Receive(now, pts, nbytes, pick);
      if prevArr == 0 {
        if !config.manualStartup {
          MarkStartup(now);
        }
        prevArr, prevPTS, maxPTS := now, pts, pts;
        return;
      }
      if config.autoStall {
        var gap := now - prevArr;
        if gap > JITTER_BUF + STALL_THRESHOLD {
          AddStall(now, (gap - JITTER_BUF) as real / 1000.0);
        }
      }
      Deviate(now, pts);
      prevArr := now;
    }

    /** Snapshot, up to the identity fields of the session. */
    method Snapshot() returns (out: Result)
      ensures out.startup == startup && out.stallCount == stallCount && out.stalledMs == stalledMs && out.bytes == bytes
      ensures out.jitterMs == jitter / 1000.0 && Lists(out.seconds, seconds)
      ensures var n := |e2e|;
              if n == 0 then out.p50 == out.p95 == 0.0
              else out.p50 == Sort(e2e)[n / 2] && out.p95 == Sort(e2e)[n * 95 / 100]
    {
      hide Sort, Lists;
      var p50, p95 := 0.0, 0.0;
      var n := |e2e|;
      if n > 0 {
        var s := Sort(e2e);
        p50, p95 := s[n / 2], s[n * 95 / 100];
      }
      var rows := Rows(seconds);
      out := Result(startup, stallCount, stalledMs, jitter / 1000.0, p50, p95, bytes, rows);
    }
  }
}
