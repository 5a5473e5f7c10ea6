/** What holds of every run of the HLS player, alone and against the origin. */
module HlsTheorems {
  import opened HlsParse
  import opened HlsPlayer

  // ---------- Totals over what the player did ----------

  /** The numbers of the segments fetched, in order. */
  function Fetched(log: Log): seq<int> {
    if log.Empty? then [] else if log.last.Media? then Fetched(log.prev) + [log.last.no] else Fetched(log.prev)
  }

  function PlayedMs(log: Log): int {
    if log.Empty? then 0 else PlayedMs(log.prev) + if log.last.Played? then log.last.ms else 0
  }

  function StalledMs(log: Log): int {
    if log.Empty? then 0 else StalledMs(log.prev) + if log.last.Stalled? then log.last.ms else 0
  }

  function Drains(log: Log): nat {
    if log.Empty? then 0 else Drains(log.prev) + if log.last.Played? then 1 else 0
  }

  /** When playback began, once it has. */
  function Began(log: Log): int {
    if log.Empty? then 0 else if log.last.Startup? then log.last.now else Began(log.prev)
  }

  // ---------- Conservation ----------

  /** Every millisecond fetched is in the buffer or was played; what was played beyond that is the stalled time. */
  predicate Conserved(p: Player) {
    && p.buffer >= 0
    && SEGMENT_MS * |Fetched(p.log)| == p.buffer + PlayedMs(p.log) - StalledMs(p.log)
    && (!p.started ==> PlayedMs(p.log) == StalledMs(p.log) == 0 && p.buffer < STARTUP_MS)
  }

  lemma DrainConserves(p: Player, now: int)
    requires Conserved(p)
    ensures Conserved(Drain(p, now)) && Fetched(Drain(p, now).log) == Fetched(p.log)
    ensures Drain(p, now).started == p.started && Drain(p, now).nextSeq == p.nextSeq && Drain(p, now).lastTick == now
    ensures Drain(p, now).bw == p.bw
  {
    hide Millis;
    var one := Add(p.log, Played(Millis(now - p.lastTick)));
    assert Fetched(one) == Fetched(p.log) && StalledMs(one) == StalledMs(p.log);
    assert PlayedMs(one) == PlayedMs(p.log) + Millis(now - p.lastTick);
  }

  lemma AcceptConserves(p: Player, refs: seq<Ref>, no: int, reply: Reply)
    requires Conserved(p) && reply.Got?
    ensures Conserved(Accept(p, refs, no, reply))
  {
    hide Drain, Choose, Sample, Estimate;
    DrainConserves(p, reply.to);
    var log := Drain(p, reply.to).log;
    var one := Add(log, Media(no, reply.to, reply.created, reply.bytes, Sample(reply)));
    assert Fetched(one) == Fetched(log) + [no];
    assert PlayedMs(one) == PlayedMs(log) && StalledMs(one) == StalledMs(log);
  }

  lemma VisitConserves(p: Player, refs: seq<Ref>, entry: Entry, reply: Reply)
    requires Conserved(p)
    ensures Conserved(Visit(p, refs, entry, reply).p)
  {
    hide Accept;
    var asked := p.(log := Add(p.log, Asked(p.cur, entry)));
    assert Conserved(asked);
    if reply.Got? {
      AcceptConserves(asked, refs, entry.no, reply);
    }
  }

  lemma {:induction false} FetchConserves(p: Player, refs: seq<Ref>, entries: seq<Entry>, replies: seq<Reply>)
    requires |entries| == |replies| && Conserved(p)
    ensures Conserved(Fetch(p, refs, entries, replies).p)
  {
    hide Visit, Conserved;
    if entries != [] {
      var n := |entries| - 1;
      FetchConserves(p, refs, entries[..n], replies[..n]);
      VisitConserves(Fetch(p, refs, entries[..n], replies[..n]).p, refs, entries[n], replies[n]);
    }
  }

  lemma PassConserves(p: Player, refs: seq<Ref>, r: Round)
    requires WellFormed(r) && Conserved(p)
    ensures Conserved(Pass(p, refs, r).p)
  {
    hide Fetch, Drain;
    if r.Listed? {
      FetchConserves(Join(p, r.pl), refs, r.pl.segments, r.replies);
      var q := Fetch(Join(p, r.pl), refs, r.pl.segments, r.replies).p;
      DrainConserves(q, r.end);
    }
  }

  /** Conservation, over every run from a new player, whatever the clock, the playlists and the replies do. */
  lemma {:induction false} RunConserves(p: Player, refs: seq<Ref>, rounds: seq<Round>)
    requires forall r :: r in rounds ==> WellFormed(r)
    requires Conserved(p)
    ensures Conserved(Run(p, refs, rounds).p)
    decreases |rounds|
  {
    hide Pass, Conserved;
    if rounds != [] {
      PassConserves(p, refs, rounds[0]);
      var o := Pass(p, refs, rounds[0]);
      if o.Going? {
        RunConserves(o.p, refs, rounds[1..]);
      }
    }
  }

  /** When stalls were reported. */
  function StallTimes(log: Log): seq<int> {
    if log.Empty? then []
    else if log.last.Stalled? then StallTimes(log.prev) + [log.last.now]
    else StallTimes(log.prev)
  }

  /** A drain reports a stall, at its own time, if and only if playing is under way and outlasts the buffer. */
  lemma DrainStalls(p: Player, now: int)
    ensures StallTimes(Drain(p, now).log)
            == StallTimes(p.log) + if p.started && Millis(now - p.lastTick) > p.buffer then [now] else []
  {
    hide Millis;
    var one := Add(p.log, Played(Millis(now - p.lastTick)));
    assert StallTimes(one) == StallTimes(p.log);
  }

  // ---------- The clock ----------

  /** The playing time is the wall time since playback began, less under a millisecond for each call to drain. */
  predicate Timed(p: Player) {
    p.started ==>
      var lost := p.lastTick - Began(p.log) - 1_000_000 * PlayedMs(p.log);
      0 <= lost <= 999_999 * Drains(p.log)
  }

  lemma MillisBound(d: int)
    requires d >= 0
    ensures 0 <= d - 1_000_000 * Millis(d) <= 999_999
  {
  }

  lemma DrainTimed(p: Player, now: int)
    requires Timed(p) && p.lastTick <= now
    ensures Timed(Drain(p, now)) && Drain(p, now).lastTick == now && Drain(p, now).started == p.started
    ensures Drain(p, now).nextSeq == p.nextSeq && (!p.started ==> Drain(p, now).log == p.log)
  {
    hide Millis;
    var ms := Millis(now - p.lastTick);
    MillisBound(now - p.lastTick);
    var one := Add(p.log, Played(ms));
    assert PlayedMs(one) == PlayedMs(p.log) + ms && Drains(one) == Drains(p.log) + 1 && Began(one) == Began(p.log);
  }

  lemma AcceptTimed(p: Player, refs: seq<Ref>, no: int, reply: Reply)
    requires Timed(p) && reply.Got? && p.lastTick <= reply.to
    requires !p.started ==> PlayedMs(p.log) == 0
    ensures var q := Accept(p, refs, no, reply);
            Timed(q) && q.lastTick == reply.to && (!q.started ==> PlayedMs(q.log) == 0)
  {
    var log := Drain(p, reply.to).log;
    assert !p.started ==> log == p.log;
    hide Choose, Sample, Estimate, Drain;
    DrainTimed(p, reply.to);
    var one := Add(log, Media(no, reply.to, reply.created, reply.bytes, Sample(reply)));
    assert PlayedMs(one) == PlayedMs(log) && Drains(one) == Drains(log) && Began(one) == Began(log);
  }

  lemma VisitTimed(p: Player, refs: seq<Ref>, entry: Entry, reply: Reply, bound: int)
    requires Timed(p) && p.lastTick <= bound && (reply.Got? ==> p.lastTick <= reply.to <= bound)
    requires !p.started ==> PlayedMs(p.log) == 0
    ensures var q := Visit(p, refs, entry, reply).p;
            Timed(q) && p.lastTick <= q.lastTick <= bound && (!q.started ==> PlayedMs(q.log) == 0)
  {
    hide Accept;
    var asked := p.(log := Add(p.log, Asked(p.cur, entry)));
    assert Timed(asked);
    if reply.Got? {
      AcceptTimed(asked, refs, entry.no, reply);
    }
  }

  /** The clock readings of the replies lie between two times and do not go back. */
  predicate Clock(replies: seq<Reply>, from: int, to: int) {
    && from <= to
    && (forall i :: 0 <= i < |replies| && replies[i].Got? ==> from <= replies[i].to <= to)
    && forall i, j :: 0 <= i < j < |replies| && replies[i].Got? && replies[j].Got? ==> replies[i].to <= replies[j].to
  }

  lemma {:induction false} FetchTimed(p: Player, refs: seq<Ref>, entries: seq<Entry>, replies: seq<Reply>, bound: int)
    requires |entries| == |replies| && Clock(replies, p.lastTick, bound)
    requires Timed(p) && (!p.started ==> PlayedMs(p.log) == 0)
    ensures var q := Fetch(p, refs, entries, replies).p;
            Timed(q) && p.lastTick <= q.lastTick <= bound && (!q.started ==> PlayedMs(q.log) == 0)
  {
    hide Visit, Timed;
    if entries != [] {
      var n := |entries| - 1;
      var until := if replies[n].Got? then replies[n].to else bound;
      FetchTimed(p, refs, entries[..n], replies[..n], until);
      var o := Fetch(p, refs, entries[..n], replies[..n]);
      if o.Going? {
        VisitTimed(o.p, refs, entries[n], replies[n], bound);
      }
    }
  }

  predicate Clocks(rounds: seq<Round>, from: int) {
    rounds == [] || rounds[0].Unlisted?
    || (Clock(rounds[0].replies, from, rounds[0].end) && Clocks(rounds[1..], rounds[0].end))
  }

  lemma PassTimed(p: Player, refs: seq<Ref>, r: Round)
    requires WellFormed(r) && r.Listed? && Clock(r.replies, p.lastTick, r.end)
    requires Timed(p) && (!p.started ==> PlayedMs(p.log) == 0)
    ensures var o := Pass(p, refs, r);
            Timed(o.p) && (!o.p.started ==> PlayedMs(o.p.log) == 0) && (o.Going? ==> o.p.lastTick == r.end)
  {
    hide Fetch, Drain, Clock;
    FetchTimed(Join(p, r.pl), refs, r.pl.segments, r.replies, r.end);
    var o := Fetch(Join(p, r.pl), refs, r.pl.segments, r.replies);
    if o.Going? {
      DrainTimed(o.p, r.end);
    }
  }

  /** On every run whose clock does not go back, stalls account for the wall time since playback began, to within
      a millisecond per call to drain: elapsed = fetched - buffered + stalled. */
  lemma StallsAreTheShortfall(now: int, refs: seq<Ref>, rounds: seq<Round>)
    requires forall r :: r in rounds ==> WellFormed(r)
    requires Clocks(rounds, now)
    ensures var q := Run(NewPlayer(now), refs, rounds).p;
            q.started ==>
              var accounted := SEGMENT_MS * |Fetched(q.log)| - q.buffer + StalledMs(q.log);
              var lost := q.lastTick - Began(q.log) - 1_000_000 * accounted;
              0 <= lost <= 999_999 * Drains(q.log)
  {
    hide Run;
    RunConserves(NewPlayer(now), refs, rounds);
    RunTimed(NewPlayer(now), refs, rounds);
  }

  lemma {:induction false} RunTimed(p: Player, refs: seq<Ref>, rounds: seq<Round>)
    requires forall r :: r in rounds ==> WellFormed(r)
    requires Timed(p) && (!p.started ==> PlayedMs(p.log) == 0) && Clocks(rounds, p.lastTick)
    ensures Timed(Run(p, refs, rounds).p)
    decreases |rounds|
  {
    assert rounds != [] && rounds[0].Unlisted? ==> Pass(p, refs, rounds[0]) == Stopped(p);
    hide Pass, Timed, Clock;
    if rounds != [] && rounds[0].Listed? {
      PassTimed(p, refs, rounds[0]);
      var o := Pass(p, refs, rounds[0]);
      if o.Going? {
        RunTimed(o.p, refs, rounds[1..]);
      }
    }
  }

  // ---------- What is fetched ----------

  function Range(a: int, b: int): seq<int>
    requires a <= b
  {
    seq(b - a, i requires 0 <= i < b - a => a + i)
  }

  lemma DrainKeeps(p: Player, now: int)
    ensures var q := Drain(p, now); Fetched(q.log) == Fetched(p.log) && q.nextSeq == p.nextSeq && q.bw == p.bw
  {
    hide Millis;
    var one := Add(p.log, Played(Millis(now - p.lastTick)));
    assert Fetched(one) == Fetched(p.log);
  }

  lemma VisitFetches(p: Player, refs: seq<Ref>, entry: Entry, reply: Reply)
    ensures var o := Visit(p, refs, entry, reply);
            && p.nextSeq <= o.p.nextSeq && Fetched(o.p.log) == Fetched(p.log) + Range(p.nextSeq, o.p.nextSeq)
            && (o.Going? ==> o.p.nextSeq == if entry.no == p.nextSeq then entry.no + 1 else p.nextSeq)
  {
    hide Drain, Choose, Sample, Estimate;
    var asked := p.(log := Add(p.log, Asked(p.cur, entry)));
    assert Fetched(asked.log) == Fetched(p.log);
    if entry.no == p.nextSeq && reply.Got? {
      DrainKeeps(asked, reply.to);
      var log := Drain(asked, reply.to).log;
      var one := Add(log, Media(entry.no, reply.to, reply.created, reply.bytes, Sample(reply)));
      assert Fetched(one) == Fetched(log) + [entry.no];
      assert Range(p.nextSeq, p.nextSeq + 1) == [p.nextSeq];
    } else {
      assert Range(p.nextSeq, p.nextSeq) == [];
    }
  }

  /** Where one pass leaves a player waiting for `next`, when the playlist lists first..first+k. */
  function Reach(next: int, first: int, k: nat): int {
    if first <= next <= first + k then first + k else next
  }

  predicate Consecutive(entries: seq<Entry>, first: int) {
    forall i :: 0 <= i < |entries| ==> entries[i].no == first + i
  }

  lemma {:induction false} FetchFetches(p: Player, refs: seq<Ref>, entries: seq<Entry>, replies: seq<Reply>, first: int)
    requires |entries| == |replies|
    ensures var o := Fetch(p, refs, entries, replies);
            && p.nextSeq <= o.p.nextSeq && Fetched(o.p.log) == Fetched(p.log) + Range(p.nextSeq, o.p.nextSeq)
            && (Consecutive(entries, first) && o.Going? ==> o.p.nextSeq == Reach(p.nextSeq, first, |entries|))
  {
    hide Visit, Fetched;
    if entries == [] {
      assert Range(p.nextSeq, p.nextSeq) == [];
    } else {
      var n := |entries| - 1;
      FetchFetches(p, refs, entries[..n], replies[..n], first);
      var o := Fetch(p, refs, entries[..n], replies[..n]);
      if o.Going? {
        VisitFetches(o.p, refs, entries[n], replies[n]);
        var q := Visit(o.p, refs, entries[n], replies[n]).p;
        assert Range(p.nextSeq, q.nextSeq) == Range(p.nextSeq, o.p.nextSeq) + Range(o.p.nextSeq, q.nextSeq);
      }
    }
  }

  /** One pass: it fetches, without a gap, from where the player (once joined) was waiting; without an error it
      ends at the live edge if and only if the playlist still holds what the player was waiting for, or ends there. */
  lemma PassFetches(p: Player, refs: seq<Ref>, r: Round)
    requires WellFormed(r) && r.Listed?
    ensures var o := Pass(p, refs, r);
            var from := Join(p, r.pl).nextSeq;
            && from <= o.p.nextSeq && Fetched(o.p.log) == Fetched(p.log) + Range(from, o.p.nextSeq)
            && (Consecutive(r.pl.segments, r.pl.firstSeq) && o.Going? ==>
                  && o.p.nextSeq == Reach(from, r.pl.firstSeq, |r.pl.segments|)
                  && (o.p.nextSeq == r.pl.firstSeq + |r.pl.segments|
                      <==> r.pl.firstSeq <= from <= r.pl.firstSeq + |r.pl.segments|))
  {
    hide Fetch, Drain, Fetched;
    FetchFetches(Join(p, r.pl), refs, r.pl.segments, r.replies, r.pl.firstSeq);
    var o := Fetch(Join(p, r.pl), refs, r.pl.segments, r.replies);
    DrainKeeps(o.p, r.end);
  }

  /** Over a whole run the numbers fetched are contiguous: a player that waits for segment n fetches n, n+1, ... . */
  lemma {:induction false} RunFetches(p: Player, refs: seq<Ref>, rounds: seq<Round>)
    requires forall r :: r in rounds ==> WellFormed(r)
    requires p.nextSeq >= 0
    ensures var q := Run(p, refs, rounds).p;
            p.nextSeq <= q.nextSeq && Fetched(q.log) == Fetched(p.log) + Range(p.nextSeq, q.nextSeq)
    decreases |rounds|
  {
    assert rounds != [] && rounds[0].Unlisted? ==> Pass(p, refs, rounds[0]) == Stopped(p);
    hide Pass, Fetched;
    if rounds == [] {
      assert Range(p.nextSeq, p.nextSeq) == [];
    } else if rounds[0].Unlisted? {
      assert Range(p.nextSeq, p.nextSeq) == [];
    } else {
      PassFetches(p, refs, rounds[0]);
      var o := Pass(p, refs, rounds[0]);
      if o.Going? {
        RunFetches(o.p, refs, rounds[1..]);
        var q := Run(o.p, refs, rounds[1..]).p;
        assert Range(p.nextSeq, q.nextSeq) == Range(p.nextSeq, o.p.nextSeq) + Range(o.p.nextSeq, q.nextSeq);
      }
    }
  }

  // ---------- The bandwidth estimate ----------

  predicate Sampled(log: Log) {
    !log.Empty? && ((log.last.Media? && log.last.sample.Some?) || Sampled(log.prev))
  }

  predicate SamplesIn(log: Log, lo: real, hi: real) {
    log.Empty? || ((log.last.Media? && log.last.sample.Some? ==> lo <= log.last.sample.value <= hi)
                   && SamplesIn(log.prev, lo, hi))
  }

  /** The estimate is 0 before the first sample, and afterwards between the least and the greatest sample. */
  predicate Estimated(p: Player, lo: real, hi: real) {
    SamplesIn(p.log, lo, hi) ==> if Sampled(p.log) then lo <= p.bw <= hi else p.bw == 0.0
  }

  lemma DrainEstimates(p: Player, now: int, lo: real, hi: real)
    requires Estimated(p, lo, hi)
    ensures Estimated(Drain(p, now), lo, hi)
  {
    hide Millis;
    var one := Add(p.log, Played(Millis(now - p.lastTick)));
    assert Sampled(one) == Sampled(p.log) && SamplesIn(one, lo, hi) == SamplesIn(p.log, lo, hi);
  }

  lemma VisitEstimates(p: Player, refs: seq<Ref>, entry: Entry, reply: Reply, lo: real, hi: real)
    requires Estimated(p, lo, hi)
    ensures Estimated(Visit(p, refs, entry, reply).p, lo, hi)
  {
    hide Drain, Choose, Sample;
    var asked := p.(log := Add(p.log, Asked(p.cur, entry)));
    assert Estimated(asked, lo, hi);
    if entry.no == p.nextSeq && reply.Got? {
      DrainEstimates(asked, reply.to, lo, hi);
      var q := Drain(asked, reply.to);
      var one := Add(q.log, Media(entry.no, reply.to, reply.created, reply.bytes, Sample(reply)));
      assert Estimated(q.(bw := Estimate(q.bw, Sample(reply)), log := one), lo, hi);
    }
  }

  lemma {:induction false} FetchEstimates(p: Player, refs: seq<Ref>, entries: seq<Entry>, replies: seq<Reply>,
                                           lo: real, hi: real)
    requires |entries| == |replies| && Estimated(p, lo, hi)
    ensures Estimated(Fetch(p, refs, entries, replies).p, lo, hi)
  {
    hide Visit, Estimated;
    if entries != [] {
      var n := |entries| - 1;
      FetchEstimates(p, refs, entries[..n], replies[..n], lo, hi);
      VisitEstimates(Fetch(p, refs, entries[..n], replies[..n]).p, refs, entries[n], replies[n], lo, hi);
    }
  }

  lemma {:induction false} RunEstimates(p: Player, refs: seq<Ref>, rounds: seq<Round>, lo: real, hi: real)
    requires forall r :: r in rounds ==> WellFormed(r)
    requires Estimated(p, lo, hi)
    ensures Estimated(Run(p, refs, rounds).p, lo, hi)
    decreases |rounds|
  {
    hide Fetch, Drain;
    if rounds != [] && rounds[0].Listed? {
      var r := rounds[0];
      assert WellFormed(r);
      assert Estimated(Join(p, r.pl), lo, hi);
      FetchEstimates(Join(p, r.pl), refs, r.pl.segments, r.replies, lo, hi);
      var o := Fetch(Join(p, r.pl), refs, r.pl.segments, r.replies);
      if o.Going? {
        DrainEstimates(o.p, r.end, lo, hi);
        RunEstimates(Drain(o.p, r.end), refs, rounds[1..], lo, hi);
      }
    }
  }
}
