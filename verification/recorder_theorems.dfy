/** What holds of a recorder after any sequence of calls. */
module RecorderTheorems {
  import opened Basics
  import opened Sorting
  import opened Recorder

  // ---------- Accounting ----------

  /** What one event adds to the sample of second sec. */
  function Charged(e: Event, sec: int): Second {
    if e.Unit? && e.sec == sec then Second(e.bytes, 1, 0.0)
    else if e.Stall? && e.sec == sec then Second(0, 0, e.ms)
    else NOTHING
  }

  lemma PlusNothing(a: Second)
    ensures Plus(a, NOTHING) == a
  {
  }

  lemma PlusSwaps(a: Second, b: Second, c: Second, d: Second)
    ensures Plus(Plus(a, b), Plus(c, d)) == Plus(Plus(a, c), Plus(b, d))
  {
  }

  lemma ChargedTo(e: Event, sec: int)
    ensures Charged(e, sec) == if (e.Unit? || e.Stall?) && e.sec == sec then Amount(e) else NOTHING
  {
  }

  lemma NoAmount(e: Event)
    requires !e.Unit? && !e.Stall?
    ensures Amount(e) == NOTHING
  {
  }

  function Tally(log: Log, sec: int): Second {
    if log.Empty? then NOTHING else Plus(Tally(log.prev, sec), Charged(log.last, sec))
  }

  function Amount(e: Event): Second {
    if e.Unit? then Second(e.bytes, 1, 0.0) else if e.Stall? then Second(0, 0, e.ms) else NOTHING
  }

  function Total(log: Log): Second {
    if log.Empty? then NOTHING else Plus(Total(log.prev), Amount(log.last))
  }

  function Stalls(log: Log): nat {
    if log.Empty? then 0 else Stalls(log.prev) + if log.last.Stall? then 1 else 0
  }

  predicate Touched(log: Log, sec: int) {
    log.Add? && (Touched(log.prev, sec) || ((log.last.Unit? || log.last.Stall?) && log.last.sec == sec))
  }

  /** The totals are those of everything observed, and each second's sample is what was observed in that second. */
  ghost predicate Accounted(v: Score) {
    && v.bytes == Total(v.log).bytes && v.stalledMs == Total(v.log).stallMs && v.stallCount == Stalls(v.log)
    && (forall sec :: sec in v.seconds <==> Touched(v.log, sec))
    && forall sec :: sec in v.seconds ==> v.seconds[sec] == Tally(v.log, sec)
  }

  lemma {:induction false} Untouched(log: Log, sec: int)
    requires !Touched(log, sec)
    ensures Tally(log, sec) == NOTHING
  {
    hide Plus, Charged, Amount;
    if log.Add? {
      Untouched(log.prev, sec);
      ChargedTo(log.last, sec);
      PlusNothing(NOTHING);
    }
  }

  lemma TotalAdds(log: Log, e: Event)
    ensures Total(Add(log, e)).bytes == Total(log).bytes + Amount(e).bytes
    ensures Total(Add(log, e)).stallMs == Total(log).stallMs + Amount(e).stallMs
    ensures Total(Add(log, e)).frames == Total(log).frames + Amount(e).frames
  {
    hide Amount;
  }

  lemma TallyAdds(log: Log, e: Event, sec: int)
    requires e.Unit? || e.Stall?
    ensures Tally(Add(log, e), sec) == if sec == e.sec then Plus(Tally(log, sec), Amount(e)) else Tally(log, sec)
    ensures Touched(Add(log, e), sec) <==> Touched(log, sec) || sec == e.sec
  {
    hide Plus, Charged, Amount;
    ChargedTo(e, sec);
    PlusNothing(Tally(log, sec));
  }

  /** One more event charged to second e.sec. */
  lemma ChargeAccounts(v: Score, w: Score, e: Event)
    requires Accounted(v) && (e.Unit? || e.Stall?)
    requires w.log == Add(v.log, e) && w.seconds == v.seconds[e.sec := Plus(Seconds(v.seconds, e.sec), Amount(e))]
    requires w.bytes == v.bytes + Amount(e).bytes && w.stalledMs == v.stalledMs + Amount(e).stallMs
    requires w.stallCount == v.stallCount + if e.Stall? then 1 else 0
    ensures Accounted(w)
  {
    hide Plus, Amount, Total, Tally, Touched;
    if !Touched(v.log, e.sec) { Untouched(v.log, e.sec); }
    assert Seconds(v.seconds, e.sec) == Tally(v.log, e.sec);
    TotalAdds(v.log, e);
    forall sec
      ensures sec in w.seconds <==> Touched(w.log, sec)
      ensures sec in w.seconds ==> w.seconds[sec] == Tally(w.log, sec)
    {
      TallyAdds(v.log, e, sec);
    }
  }

  lemma ReceivedAccounts(v: Score, now: int, bytes: nat)
    requires Accounted(v)
    ensures Accounted(Received(v, now, bytes))
  {
    hide Unix, Accounted;
    var e := Unit(Unix(now), bytes);
    var s := Seconds(v.seconds, e.sec);
    assert Plus(s, Amount(e)) == s.(bytes := s.bytes + bytes, frames := s.frames + 1);
    ChargeAccounts(v, Received(v, now, bytes), e);
  }

  lemma StalledAccounts(v: Score, now: int, ms: real)
    requires Accounted(v)
    ensures Accounted(Stalled(v, now, ms))
  {
    hide Unix, Accounted;
    var e := Stall(Unix(now), ms);
    var s := Seconds(v.seconds, e.sec);
    assert Plus(s, Amount(e)) == s.(stallMs := s.stallMs + ms);
    ChargeAccounts(v, Stalled(v, now, ms), e);
  }

  /** Calls that only observe a delay or a deviation, or change what is not accounted for. */
  lemma OthersAccount(v: Score, w: Score)
    requires Accounted(v)
    requires w.bytes == v.bytes && w.stalledMs == v.stalledMs && w.stallCount == v.stallCount && w.seconds == v.seconds
    requires w.log == v.log || (w.log.Add? && w.log.prev == v.log && (w.log.last.Deviation? || w.log.last.Delay?))
    ensures Accounted(w)
  {
    hide Plus, Charged, Amount;
    if w.log != v.log {
      var e := w.log.last;
      NoAmount(e);
      forall sec ensures Tally(w.log, sec) == Tally(v.log, sec) && Touched(w.log, sec) == Touched(v.log, sec) {
        ChargedTo(e, sec);
        PlusNothing(Tally(v.log, sec));
      }
      PlusNothing(Total(v.log));
    }
  }

  lemma MediaAccounts(v: Score, c: Config, now: int, pts: u64, bytes: nat, pick: nat)
    requires Accounted(v)
    ensures Accounted(Media(v, c, now, pts, bytes, pick))
  {
    hide Received, Stalled, Accounted, Signed, Abs;
    var r := Received(v, now, bytes);
    ReceivedAccounts(v, now, bytes);
    var u := Delayed(r, (now - Signed(pts)) as real / 1000.0, pick);
    OthersAccount(r, u);
    if v.prevArr == 0 {
      OthersAccount(u, Media(v, c, now, pts, bytes, pick));
    } else {
      var gap := now - v.prevArr;
      var w := if Starved(c.autoStall, gap) then Stalled(u, now, (gap - JITTER_BUF) as real / 1000.0) else u;
      if Starved(c.autoStall, gap) { StalledAccounts(u, now, (gap - JITTER_BUF) as real / 1000.0); }
      OthersAccount(w, Media(v, c, now, pts, bytes, pick));
    }
  }

  /** After any calls, in any mode, the recorder's accounts are exact. */
  lemma {:induction false} RunAccounts(c: Config, calls: seq<Call>)
    ensures Accounted(Run(c, calls))
  {
    assert Accounted(FRESH);
    hide Media, Stalled, Accounted;
    if calls != [] {
      RunAccounts(c, calls[..|calls| - 1]);
      var v := Run(c, calls[..|calls| - 1]);
      match calls[|calls| - 1] {
        case Arrived(now, pts, bytes, pick) => MediaAccounts(v, c, now, pts, bytes, pick);
        case Underran(now, ms) => StalledAccounts(v, now, ms);
        case Began(now) => OthersAccount(v, Step(v, c, Began(now)));
      }
    }
  }

  function Sum(rows: seq<Row>): Second {
    if rows == [] then NOTHING else Plus(rows[0].sample, Sum(rows[1..]))
  }

  function TallySum(rows: seq<Row>, log: Log): Second {
    if rows == [] then NOTHING else Plus(Tally(log, rows[0].unix), TallySum(rows[1..], log))
  }

  function ChargedSum(rows: seq<Row>, e: Event): Second {
    if rows == [] then NOTHING else Plus(Charged(e, rows[0].unix), ChargedSum(rows[1..], e))
  }

  lemma {:induction false} TallySumAdds(rows: seq<Row>, log: Log, e: Event)
    ensures TallySum(rows, Add(log, e)) == Plus(TallySum(rows, log), ChargedSum(rows, e))
  {
    hide Charged, Plus;
    if rows == [] {
      PlusNothing(NOTHING);
    } else {
      TallySumAdds(rows[1..], log, e);
      PlusSwaps(Tally(log, rows[0].unix), Charged(e, rows[0].unix), TallySum(rows[1..], log), ChargedSum(rows[1..], e));
    }
  }

  lemma HasNone(sec: int)
    ensures !Has([], sec)
  {
  }

  lemma HasSplit(rows: seq<Row>, sec: int)
    requires Increasing(rows) && rows != []
    ensures Increasing(rows[1..]) && (Has(rows, sec) <==> rows[0].unix == sec || Has(rows[1..], sec))
    ensures rows[0].unix == sec ==> !Has(rows[1..], sec)
  {
    if Has(rows, sec) && rows[0].unix != sec {
      var i :| 0 <= i < |rows| && rows[i].unix == sec;
      assert rows[1..][i - 1].unix == sec;
    }
  }

  /** In rows of different seconds, an event is charged once if its second is among them. */
  lemma {:induction false} ChargedOnce(rows: seq<Row>, e: Event, sec: int)
    requires Increasing(rows) && (e.Unit? || e.Stall?) && e.sec == sec
    ensures ChargedSum(rows, e) == if Has(rows, sec) then Amount(e) else NOTHING
  {
    hide Charged, Plus, Amount, Has, Increasing;
    if rows == [] {
      HasNone(sec);
    } else {
      HasSplit(rows, sec);
      ChargedOnce(rows[1..], e, sec);
      ChargedTo(e, rows[0].unix);
      PlusNothing(NOTHING);
      PlusNothing(Amount(e));
      NothingPlus(Amount(e));
    }
  }

  lemma NothingPlus(a: Second)
    ensures Plus(NOTHING, a) == a
  {
  }

  lemma {:induction false} NotCharged(rows: seq<Row>, e: Event)
    requires !e.Unit? && !e.Stall?
    ensures ChargedSum(rows, e) == NOTHING
  {
    hide Charged, Plus, Amount;
    if rows != [] {
      NotCharged(rows[1..], e);
      ChargedTo(e, rows[0].unix);
      PlusNothing(NOTHING);
    }
  }

  lemma {:induction false} TallySumIsTotal(rows: seq<Row>, log: Log)
    requires Increasing(rows) && forall sec :: Touched(log, sec) ==> Has(rows, sec)
    ensures TallySum(rows, log) == Total(log)
  {
    hide Increasing, Has, Plus, Charged, Amount;
    if log.Empty? {
      TallySumEmpty(rows);
    } else {
      TallySumIsTotal(rows, log.prev);
      TallySumAdds(rows, log.prev, log.last);
      if log.last.Unit? || log.last.Stall? {
        ChargedOnce(rows, log.last, log.last.sec);
        assert Touched(log, log.last.sec);
      } else {
        NotCharged(rows, log.last);
        NoAmount(log.last);
      }
    }
  }

  lemma {:induction false} TallySumEmpty(rows: seq<Row>)
    ensures TallySum(rows, Empty) == NOTHING
  {
    hide Plus;
    if rows != [] {
      PlusNothing(NOTHING);
      TallySumEmpty(rows[1..]);
    }
  }

  lemma {:induction false} SumOfTallies(rows: seq<Row>, log: Log)
    requires forall i :: 0 <= i < |rows| ==> rows[i].sample == Tally(log, rows[i].unix)
    ensures Sum(rows) == TallySum(rows, log)
  {
    hide Plus, Tally;
    if rows != [] {
      SumOfTallies(rows[1..], log);
    }
  }

  /** A snapshot's rows, at strictly increasing seconds, add up to the totals it reports and to one frame per media
      call. */
  lemma SnapshotAddsUp(c: Config, calls: seq<Call>, rows: seq<Row>)
    requires Lists(rows, Run(c, calls).seconds)
    ensures var v := Run(c, calls);
            Sum(rows).bytes == v.bytes && Sum(rows).stallMs == v.stalledMs && Sum(rows).frames == Arrivals(calls)
  {
    hide Run, Total, Tally, Sum;
    RunAccounts(c, calls);
    var v := Run(c, calls);
    SumOfTallies(rows, v.log);
    TallySumIsTotal(rows, v.log);
    FramesAreArrivals(c, calls);
  }

  function Arrivals(calls: seq<Call>): nat {
    if calls == [] then 0 else Arrivals(calls[..|calls| - 1]) + if calls[|calls| - 1].Arrived? then 1 else 0
  }

  lemma {:induction false} FramesAreArrivals(c: Config, calls: seq<Call>)
    ensures Total(Run(c, calls).log).frames == Arrivals(calls)
  {
    hide Media, Stalled;
    if calls != [] {
      FramesAreArrivals(c, calls[..|calls| - 1]);
      var v := Run(c, calls[..|calls| - 1]);
      match calls[|calls| - 1] {
        case Arrived(now, pts, bytes, pick) => MediaFrames(v, c, now, pts, bytes, pick);
        case Underran(now, ms) => StalledFrames(v, now, ms);
        case Began(now) =>
      }
    }
  }

  lemma StalledFrames(v: Score, now: int, ms: real)
    ensures Total(Stalled(v, now, ms).log).frames == Total(v.log).frames
  {
  }

  lemma MediaFrames(v: Score, c: Config, now: int, pts: u64, bytes: nat, pick: nat)
    ensures Total(Media(v, c, now, pts, bytes, pick).log).frames == Total(v.log).frames + 1
  {
    hide Signed, Abs, Unix;
    var r := Received(v, now, bytes);
    assert Total(r.log).frames == Total(v.log).frames + 1;
    var u := Delayed(r, (now - Signed(pts)) as real / 1000.0, pick);
    assert Total(u.log).frames == Total(r.log).frames;
    if v.prevArr != 0 {
      var gap := now - v.prevArr;
      var w := if Starved(c.autoStall, gap) then Stalled(u, now, (gap - JITTER_BUF) as real / 1000.0) else u;
      assert Total(w.log).frames == Total(u.log).frames;
      assert Total(Jittered(w, now, pts).log).frames == Total(w.log).frames;
    }
  }

  // ---------- Automatic stalls ----------

  /** The latest arrival. */
  function Latest(calls: seq<Call>): int {
    if calls == [] then 0
    else if calls[|calls| - 1].Arrived? then calls[|calls| - 1].now
    else Latest(calls[..|calls| - 1])
  }

  /** A session that leaves stalls to the recorder, with arrivals from `first` on that never go back. */
  predicate Forward(calls: seq<Call>, first: int) {
    calls == []
    || (var c, before := calls[|calls| - 1], calls[..|calls| - 1];
        && Forward(before, first) && !c.Underran?
        && (c.Arrived? ==> first <= c.now && (Arrivals(before) > 0 ==> Latest(before) <= c.now)))
  }

  /** Stalled time plus a jitter buffer for each stall never exceeds the time since the first arrival. */
  lemma {:induction false} StallsFitTheSession(c: Config, calls: seq<Call>, first: int)
    requires Forward(calls, first)
    ensures var v := Run(c, calls);
            if Arrivals(calls) == 0 then v.stalledMs == 0.0 && v.stallCount == 0 && v.prevArr == 0
            else
              && v.prevArr == Latest(calls) && first <= v.prevArr
              && 1000.0 * v.stalledMs + 150_000.0 * v.stallCount as real <= (v.prevArr - first) as real
  {
    hide Media;
    if calls != [] {
      var n := |calls| - 1;
      StallsFitTheSession(c, calls[..n], first);
      if calls[n].Arrived? {
        MediaStalls(Run(c, calls[..n]), c, calls[n].now, calls[n].pts, calls[n].bytes, calls[n].pick);
        var v := Run(c, calls[..n]);
        var count := v.stallCount;
        assert 150_000.0 * (count + 1) as real == 150_000.0 * count as real + 150_000.0;
      }
    }
  }

  /** What one arrival adds to the stalls. */
  lemma MediaStalls(v: Score, c: Config, now: int, pts: u64, bytes: nat, pick: nat)
    ensures var w := Media(v, c, now, pts, bytes, pick);
            && w.prevArr == now
            && if v.prevArr == 0 || !c.autoStall || now - v.prevArr <= 250_000
               then w.stalledMs == v.stalledMs && w.stallCount == v.stallCount
               else w.stallCount == v.stallCount + 1
                    && 1000.0 * w.stalledMs == 1000.0 * v.stalledMs + (now - v.prevArr - 150_000) as real
  {
    hide Signed, Abs, Unix, Seconds;
  }

  // ---------- Jitter and delays ----------

  predicate Observed(log: Log, ms: real) {
    log.Add? && (log.last == Delay(ms) || Observed(log.prev, ms))
  }

  /** Every deviation is at most m. */
  predicate Deviates(log: Log, m: real) {
    log.Empty? || ((log.last.Deviation? ==> log.last.d <= m) && Deviates(log.prev, m))
  }

  /** The jitter estimate lies between 0 and the largest deviation; the reservoir is bounded and holds only delays
      that were observed, none negative; the jitter's clock is the latest presentation time. */
  predicate Bounded(v: Score, m: real) {
    && v.prevPTS == v.maxPTS && |v.e2e| <= RESERVOIR
    && (forall i :: 0 <= i < |v.e2e| ==> v.e2e[i] >= 0.0 && Observed(v.log, v.e2e[i]))
    && v.jitter >= 0.0 && (Deviates(v.log, m) ==> v.jitter <= m)
  }

  lemma ObserveMore(v: Score, w: Score, e: Event, at: nat, m: real)
    requires Bounded(v, m) && w.log == Add(v.log, e)
    requires w.prevPTS == w.maxPTS && |w.e2e| <= RESERVOIR
    requires w.e2e == v.e2e || (e.Delay? && e.ms >= 0.0 && (w.e2e == v.e2e + [e.ms]
             || (at < |v.e2e| && w.e2e == v.e2e[at := e.ms])))
    requires w.jitter == v.jitter || (e.Deviation? && e.d >= 0.0 && w.jitter == v.jitter + (e.d - v.jitter) / 16.0)
    ensures Bounded(w, m)
  {
    forall i | 0 <= i < |w.e2e| ensures w.e2e[i] >= 0.0 && Observed(w.log, w.e2e[i]) {
      assert i < |v.e2e| ==> Observed(v.log, v.e2e[i]);
    }
  }

  lemma ReceiveBounded(v: Score, now: int, bytes: nat, ms: real, pick: nat, m: real)
    requires Bounded(v, m)
    ensures Bounded(Delayed(Received(v, now, bytes), ms, pick), m)
  {
    assert v.prevPTS == v.maxPTS && |v.e2e| <= RESERVOIR;
    hide Unix, Seconds, Bounded;
    var r := Received(v, now, bytes);
    ObserveMore(v, r, r.log.last, 0, m);
    if ms >= 0.0 {
      ObserveMore(r, Delayed(r, ms, pick), Delay(ms), if r.e2e == [] then 0 else pick % |r.e2e|, m);
    }
  }

  lemma StallBounded(v: Score, now: int, ms: real, m: real)
    requires Bounded(v, m)
    ensures Bounded(Stalled(v, now, ms), m)
  {
    assert v.prevPTS == v.maxPTS && |v.e2e| <= RESERVOIR;
    hide Unix, Seconds, Bounded;
    ObserveMore(v, Stalled(v, now, ms), Stall(Unix(now), ms), 0, m);
  }

  lemma JitterBounded(v: Score, now: int, pts: u64, m: real)
    requires Bounded(v, m)
    ensures Bounded(Jittered(v, now, pts), m)
  {
    assert v.prevPTS == v.maxPTS && |v.e2e| <= RESERVOIR;
    hide Bounded;
    if pts > v.maxPTS {
      ObserveMore(v, Jittered(v, now, pts), Jittered(v, now, pts).log.last, 0, m);
    }
  }

  lemma OneClock(v: Score, m: real)
    requires Bounded(v, m)
    ensures v.prevPTS == v.maxPTS
  {
  }

  lemma ClockBounded(v: Score, w: Score, m: real)
    requires Bounded(v, m) && w.e2e == v.e2e && w.log == v.log && w.jitter == v.jitter && w.prevPTS == w.maxPTS
    ensures Bounded(w, m)
  {
  }

  lemma MediaBounded(v: Score, c: Config, now: int, pts: u64, bytes: nat, pick: nat, m: real)
    requires Bounded(v, m)
    ensures Bounded(Media(v, c, now, pts, bytes, pick), m)
  {
    hide Received, Delayed, Stalled, Jittered, Bounded, Signed;
    var ms := (now - Signed(pts)) as real / 1000.0;
    var u := Delayed(Received(v, now, bytes), ms, pick);
    ReceiveBounded(v, now, bytes, ms, pick, m);
    if v.prevArr == 0 {
      ClockBounded(u, Media(v, c, now, pts, bytes, pick), m);
    } else {
      var gap := now - v.prevArr;
      var w := if Starved(c.autoStall, gap) then Stalled(u, now, (gap - JITTER_BUF) as real / 1000.0) else u;
      if Starved(c.autoStall, gap) { StallBounded(u, now, (gap - JITTER_BUF) as real / 1000.0, m); }
      JitterBounded(w, now, pts, m);
      var x := Jittered(w, now, pts);
      OneClock(x, m);
      ClockBounded(x, x.(prevArr := now), m);
    }
  }

  lemma {:induction false} RunBounded(c: Config, calls: seq<Call>, m: real)
    requires m >= 0.0
    ensures Bounded(Run(c, calls), m)
  {
    assert Bounded(FRESH, m);
    hide Media, Bounded;
    if calls != [] {
      RunBounded(c, calls[..|calls| - 1], m);
      var v := Run(c, calls[..|calls| - 1]);
      match calls[|calls| - 1] {
        case Arrived(now, pts, bytes, pick) => MediaBounded(v, c, now, pts, bytes, pick, m);
        case Underran(now, ms) => StallBounded(v, now, ms, m);
        case Began(now) => 
          OneClock(v, m);
          ClockBounded(v, Step(v, c, Began(now)), m);
      }
    }
  }

  /** The reported median and 95th percentile are order statistics of the reservoir, in order. */
  lemma Quantiles(e2e: seq<real>)
    requires e2e != []
    ensures var n := |e2e|;
            && n / 2 <= n * 95 / 100 < n
            && Sort(e2e)[n / 2] <= Sort(e2e)[n * 95 / 100]
            && AtMost(e2e, Sort(e2e)[n / 2]) > n / 2 && AtLeast(e2e, Sort(e2e)[n / 2]) >= n - n / 2
            && AtMost(e2e, Sort(e2e)[n * 95 / 100]) > n * 95 / 100
  {
    var n := |e2e|;
    OrderStatistic(e2e, n / 2, n * 95 / 100);
    OrderStatistic(e2e, n * 95 / 100, n * 95 / 100);
  }
}
