/** Which rendition the player asks for, what its bandwidth estimate is, and when it starts to play. */
module HlsAbr {
  import opened Basics
  import opened HlsParse
  import opened HlsPlayer
  import opened HlsTheorems

  // ---------- Averages ----------

  function Pow(x: real, n: nat): real { if n == 0 then 1.0 else x * Pow(x, n - 1) }

  /** The weights of n samples: the newest counts three tenths, each older one seven tenths of the next, and the
      oldest what is left. */
  function Weights(n: nat): (w: seq<real>)
    ensures |w| == n
  {
    seq(n, i requires 0 <= i < n => if i == 0 then Pow(0.7, n - 1) else 0.3 * Pow(0.7, n - 1 - i))
  }

  function Total(w: seq<real>): real { if w == [] then 0.0 else Total(w[..|w| - 1]) + w[|w| - 1] }

  function Dot(w: seq<real>, xs: seq<real>): real
    requires |w| == |xs|
  {
    if xs == [] then 0.0 else Dot(w[..|w| - 1], xs[..|xs| - 1]) + w[|w| - 1] * xs[|xs| - 1]
  }

  /** The weighted mean of the samples, 0 if there are none. */
  function Mean(xs: seq<real>): real { Dot(Weights(|xs|), xs) }

  predicate Scaled(w: seq<real>, v: seq<real>) { |w| == |v| && forall i :: 0 <= i < |w| ==> w[i] == 0.7 * v[i] }

  lemma WeightsMore(n: nat)
    requires n > 0
    ensures Scaled(Weights(n + 1)[..n], Weights(n)) && Weights(n + 1)[n] == 0.3
  {
    var w, v := Weights(n + 1), Weights(n);
    assert Pow(0.7, 0) == 1.0;
    forall i | 0 <= i < n ensures w[i] == 0.7 * v[i] {
      assert Pow(0.7, n - i) == 0.7 * Pow(0.7, n - i - 1);
    }
  }

  lemma {:induction false} DotScaled(w: seq<real>, v: seq<real>, xs: seq<real>)
    requires Scaled(w, v) && |xs| == |w|
    ensures Dot(w, xs) == 0.7 * Dot(v, xs)
    decreases |xs|
  {
    if xs != [] {
      var n := |xs| - 1;
      DotScaled(w[..n], v[..n], xs[..n]);
      Products(w[n], v[n], xs[n]);
    }
  }

  lemma Products(a: real, b: real, x: real)
    requires a == 0.7 * b
    ensures a * x == 0.7 * (b * x)
  {
  }

  lemma MeanOfOne(x: real)
    ensures Mean([x]) == x
  {
    assert Weights(1) == [1.0];
    assert Dot([1.0][..0], [x][..0]) == 0.0;
  }

  lemma MeanMore(xs: seq<real>, x: real)
    requires xs != []
    ensures Mean(xs + [x]) == 0.7 * Mean(xs) + 0.3 * x
  {
    var n := |xs|;
    WeightsMore(n);
    DotScaled(Weights(n + 1)[..n], Weights(n), xs);
    assert (xs + [x])[..n] == xs;
  }

  lemma {:induction false} TotalScaled(w: seq<real>, v: seq<real>)
    requires Scaled(w, v)
    ensures Total(w) == 0.7 * Total(v)
    decreases |w|
  {
    if w != [] { TotalScaled(w[..|w| - 1], v[..|v| - 1]); }
  }

  /** The weights of any number of samples add up to one. */
  lemma {:induction false} WeightsAddUp(n: nat)
    requires n > 0
    ensures Total(Weights(n)) == 1.0
  {
    if n == 1 {
      assert Weights(1) == [1.0];
      assert Total([1.0][..0]) == 0.0;
    } else {
      WeightsAddUp(n - 1);
      WeightsMore(n - 1);
      TotalScaled(Weights(n)[..n - 1], Weights(n - 1));
    }
  }

  lemma {:induction false} MeanPositive(xs: seq<real>)
    requires xs != [] && xs[0] > 0.0 && forall i :: 0 <= i < |xs| ==> xs[i] >= 0.0
    ensures Mean(xs) > 0.0
    decreases |xs|
  {
    var n := |xs| - 1;
    assert xs == xs[..n] + [xs[n]];
    if n == 0 {
      MeanOfOne(xs[0]);
    } else {
      MeanPositive(xs[..n]);
      MeanMore(xs[..n], xs[n]);
    }
  }

  // ---------- What the log tells ----------

  /** The throughputs measured, in order. */
  function Samples(log: Log): seq<real> {
    if log.Empty? then []
    else if log.last.Media? && log.last.sample.Some? then Samples(log.prev) + [log.last.sample.value]
    else Samples(log.prev)
  }

  /** Without the zeros at its front. */
  function Trimmed(xs: seq<real>): seq<real> { if xs != [] && xs[0] == 0.0 then Trimmed(xs[1..]) else xs }

  /** When segments arrived. */
  function Arrivals(log: Log): seq<int> {
    if log.Empty? then [] else if log.last.Media? then Arrivals(log.prev) + [log.last.now] else Arrivals(log.prev)
  }

  function Startups(log: Log): seq<int> {
    if log.Empty? then [] else if log.last.Startup? then Startups(log.prev) + [log.last.now] else Startups(log.prev)
  }

  /** The highest rendition below eight tenths of the throughput, or the first. */
  predicate IsBest(refs: seq<Ref>, kbps: real, r: nat) {
    && (forall i :: r < i < |refs| ==> 10.0 * refs[i].kbps as real >= 8.0 * kbps)
    && (r == 0 || (r < |refs| && 10.0 * refs[r].kbps as real < 8.0 * kbps))
  }

  /** The rendition to ask for next: the first one until a segment has arrived, then the best. */
  predicate Right(refs: seq<Ref>, log: Log, r: nat) {
    if Arrivals(log) == [] then r == 0 else IsBest(refs, Mean(Trimmed(Samples(log))), r)
  }

  predicate AsksRight(refs: seq<Ref>, log: Log) {
    log.Empty? || (AsksRight(refs, log.prev) && (log.last.Asked? ==> Right(refs, log.prev, log.last.rendition)))
  }

  /** What holds of a player at any time. */
  predicate Adapts(refs: seq<Ref>, p: Player) {
    && p.bw == Mean(Trimmed(Samples(p.log))) && (forall i :: 0 <= i < |Samples(p.log)| ==> Samples(p.log)[i] >= 0.0)
    && Right(refs, p.log, p.cur) && AsksRight(refs, p.log)
  }

  predicate Starts(p: Player) {
    && |Arrivals(p.log)| == |Fetched(p.log)| && (p.started <==> |Arrivals(p.log)| >= 2)
    && Startups(p.log) == (if p.started then [Arrivals(p.log)[1]] else [])
    && (!p.started ==> p.buffer == 2000 * |Arrivals(p.log)|)
  }

  lemma {:induction false} TrimmedMore(xs: seq<real>, x: real)
    ensures Trimmed(xs + [x]) == if Trimmed(xs) == [] && x == 0.0 then [] else Trimmed(xs) + [x]
    ensures Trimmed(xs) != [] ==> Trimmed(xs)[0] != 0.0
    ensures (forall i :: 0 <= i < |xs| ==> xs[i] >= 0.0) ==>
              forall i :: 0 <= i < |Trimmed(xs)| ==> Trimmed(xs)[i] >= 0.0
  {
    if xs == [] {
      assert [] + [x] == [x] && [x][1..] == [];
    } else if xs[0] == 0.0 {
      TrimmedMore(xs[1..], x);
      assert (xs + [x])[1..] == xs[1..] + [x];
    }
  }

  /** The estimate after one more sample. */
  lemma EstimateMore(xs: seq<real>, x: real)
    requires x >= 0.0 && forall i :: 0 <= i < |xs| ==> xs[i] >= 0.0
    ensures Estimate(Mean(Trimmed(xs)), Some(x)) == Mean(Trimmed(xs + [x]))
  {
    hide Mean, Trimmed;
    TrimmedMore(xs, x);
    assert Mean([]) == 0.0 by { NoMean(); }
    var t := Trimmed(xs);
    if t == [] {
      MeanOfOne(x);
      assert [] + [x] == [x];
    } else {
      MeanPositive(t);
      MeanMore(t, x);
    }
  }

  lemma NoMean()
    ensures Mean([]) == 0.0
  {
  }

  // ---------- Steps ----------

  lemma DrainSays(p: Player, now: int, refs: seq<Ref>)
    ensures var q := Drain(p, now);
            && q.cur == p.cur && q.bw == p.bw && q.started == p.started && q.nextSeq == p.nextSeq
            && (!p.started ==> q.buffer == p.buffer)
    ensures Alike(refs, Drain(p, now).log, p.log)
  {
    hide Millis, Right;
    var one := Add(p.log, Played(Millis(now - p.lastTick)));
    assert Alike(refs, one, p.log);
  }

  /** The logs tell the same. */
  predicate Alike(refs: seq<Ref>, a: Log, b: Log) {
    && Samples(a) == Samples(b) && Arrivals(a) == Arrivals(b) && Startups(a) == Startups(b)
    && Fetched(a) == Fetched(b) && AsksRight(refs, a) == AsksRight(refs, b)
  }

  /** A successful download is recorded with the bytes, creation time and arrival of its reply, and measured: the
      bytes in the time from the request to the end, unless that took no time. */
  lemma VisitMeasures(p: Player, refs: seq<Ref>, entry: Entry, reply: Reply)
    requires entry.no == p.nextSeq && reply.Got?
    ensures var q := Visit(p, refs, entry, reply).p;
            && Received(q.log) == Received(p.log) + [(entry.no, reply.to, reply.created, reply.bytes)]
            && if reply.to <= reply.from then Samples(q.log) == Samples(p.log)
               else exists x: real :: Samples(q.log) == Samples(p.log) + [x]
                                      && x * (reply.to - reply.from) as real == reply.bytes as real * 8_000_000.0
  {
    hide Choose, Drain, Estimate, Sample;
    var asked := p.(log := Add(p.log, Asked(p.cur, entry)));
    DrainSays(asked, reply.to, refs);
    DrainReceives(asked, reply.to);
    SampleIsRate(reply);
    var one := Add(Drain(asked, reply.to).log, Media(entry.no, reply.to, reply.created, reply.bytes, Sample(reply)));
    assert Samples(one) == Samples(p.log) + if Sample(reply).Some? then [Sample(reply).value] else [];
    assert Received(one) == Received(p.log) + [(entry.no, reply.to, reply.created, reply.bytes)];
  }

  /** What the recorder was told of each segment. */
  function Received(log: Log): seq<(int, int, int, nat)> {
    if log.Empty? then []
    else if log.last.Media? then Received(log.prev) + [(log.last.no, log.last.now, log.last.created, log.last.bytes)]
    else Received(log.prev)
  }

  lemma DrainReceives(p: Player, now: int)
    ensures Received(Drain(p, now).log) == Received(p.log)
  {
    hide Millis;
    var one := Add(p.log, Played(Millis(now - p.lastTick)));
    assert Received(one) == Received(p.log);
  }

  lemma SampleIsRate(r: Reply)
    requires r.Got?
    ensures Sample(r).Some? <==> r.to > r.from
    ensures r.to > r.from ==>
              Sample(r).value >= 0.0 && Sample(r).value * (r.to - r.from) as real == r.bytes as real * 8_000_000.0
  {
    if r.to > r.from {
      var d := (r.to - r.from) as real;
      Rate(r.bytes as real, d, d / 1_000_000_000.0);
    }
  }

  lemma Rate(bytes: real, d: real, s: real)
    requires d > 0.0 && s == d / 1_000_000_000.0 && bytes >= 0.0
    ensures bytes * 8.0 / 1000.0 / s >= 0.0
    ensures (bytes * 8.0 / 1000.0 / s) * d == bytes * 8_000_000.0
  {
    var v := bytes * 8.0 / 1000.0 / s;
    assert v * s == bytes * 8.0 / 1000.0;
    assert v * d == (v * s) * 1_000_000_000.0 by { Thousands(v, s, d); }
    if v < 0.0 { Negative(v, s); }
  }

  lemma Thousands(v: real, s: real, d: real)
    requires d == s * 1_000_000_000.0
    ensures v * d == (v * s) * 1_000_000_000.0
  {
  }

  lemma Negative(v: real, s: real)
    requires v < 0.0 && s > 0.0
    ensures v * s < 0.0
  {
  }

  lemma ChooseIsBest(refs: seq<Ref>, bw: real)
    ensures IsBest(refs, bw, Choose(refs, bw))
  {
    hide Choose;
    ChooseIsLastSafe(refs, bw);
    if refs == [] { NothingToChoose(bw); }
  }

  lemma NothingToChoose(bw: real)
    ensures Choose([], bw) == 0
  {
  }

  /** The log once the reply is recorded. */
  function Recorded(q: Player, no: int, reply: Reply): Log
    requires reply.Got?
  {
    Add(q.log, Media(no, reply.to, reply.created, reply.bytes, Sample(reply)))
  }

  lemma RecordedSays(p: Player, no: int, reply: Reply, refs: seq<Ref>)
    requires reply.Got?
    ensures var one, x := Recorded(Drain(p, reply.to), no, reply), Sample(reply);
            && Samples(one) == Samples(p.log) + (if x.Some? then [x.value] else [])
            && Arrivals(one) == Arrivals(p.log) + [reply.to] && Startups(one) == Startups(p.log)
            && Fetched(one) == Fetched(p.log) + [no] && AsksRight(refs, one) == AsksRight(refs, p.log)
  {
    hide Drain, Sample, Right;
    DrainSays(p, reply.to, refs);
  }

  lemma StartupSays(log: Log, now: int, refs: seq<Ref>)
    ensures var one := Add(log, Startup(now));
            && Samples(one) == Samples(log) && Arrivals(one) == Arrivals(log) && Fetched(one) == Fetched(log)
            && Startups(one) == Startups(log) + [now] && AsksRight(refs, one) == AsksRight(refs, log)
  {
    hide Right;
  }

  lemma AcceptAdapts(p: Player, refs: seq<Ref>, no: int, reply: Reply)
    requires Adapts(refs, p) && reply.Got?
    ensures Adapts(refs, Accept(p, refs, no, reply))
  {
    var q, x := Drain(p, reply.to), Sample(reply);
    var one := Recorded(q, no, reply);
    DrainSays(p, reply.to, refs);
    SampleIsRate(reply);
    RecordedSays(p, no, reply, refs);
    StartupSays(one, reply.to, refs);
    if x.Some? { EstimateMore(Samples(p.log), x.value); } else { NoEstimate(p.bw); }
    ChooseIsBest(refs, Estimate(p.bw, x));
    AcceptLogs(p, refs, no, reply);
    hide Drain, Choose, Sample, Estimate, Mean, Trimmed, IsBest, AsksRight;
    hide Samples, Arrivals, Fetched, Recorded, Accept;
    var r := Accept(p, refs, no, reply);
    assert Samples(r.log) == Samples(one) && Arrivals(r.log) == Arrivals(one);
  }

  lemma AcceptLogs(p: Player, refs: seq<Ref>, no: int, reply: Reply)
    requires reply.Got?
    ensures var q, r := Drain(p, reply.to), Accept(p, refs, no, reply);
            var one, begins := Recorded(q, no, reply), !q.started && q.buffer + 2000 >= 4000;
            && r.log == (if begins then Add(one, Startup(reply.to)) else one) && r.started == (q.started || begins)
            && r.bw == Estimate(q.bw, Sample(reply)) && r.cur == Choose(refs, Estimate(q.bw, Sample(reply)))
            && r.buffer == q.buffer + 2000
  {
    hide Drain, Choose, Sample, Estimate;
  }

  lemma AcceptStarts(p: Player, refs: seq<Ref>, no: int, reply: Reply)
    requires Starts(p) && reply.Got?
    ensures Starts(Accept(p, refs, no, reply))
  {
    var one := Recorded(Drain(p, reply.to), no, reply);
    DrainSays(p, reply.to, refs);
    RecordedSays(p, no, reply, refs);
    StartupSays(one, reply.to, refs);
    AcceptLogs(p, refs, no, reply);
    hide Drain, Choose, Sample, Estimate, AsksRight, Samples, Arrivals, Fetched, Startups, Recorded, Accept;
  }

  lemma NoEstimate(bw: real)
    ensures Estimate(bw, None) == bw
  {
  }

  lemma AskedAdapts(p: Player, refs: seq<Ref>, entry: Entry)
    requires Adapts(refs, p) && Starts(p)
    ensures var asked := p.(log := Add(p.log, Asked(p.cur, entry))); Adapts(refs, asked) && Starts(asked)
  {
    hide Mean, Trimmed, IsBest;
    var one := Add(p.log, Asked(p.cur, entry));
    assert Samples(one) == Samples(p.log) && Arrivals(one) == Arrivals(p.log) && Startups(one) == Startups(p.log);
    assert Fetched(one) == Fetched(p.log);
  }

  lemma DrainAdapts(p: Player, now: int, refs: seq<Ref>)
    requires Adapts(refs, p) && Starts(p)
    ensures Adapts(refs, Drain(p, now)) && Starts(Drain(p, now))
  {
    hide Drain, Mean, Trimmed, IsBest, AsksRight;
    DrainSays(p, now, refs);
  }

  lemma VisitAdapts(p: Player, refs: seq<Ref>, entry: Entry, reply: Reply)
    requires Adapts(refs, p) && Starts(p)
    ensures var q := Visit(p, refs, entry, reply).p; Adapts(refs, q) && Starts(q)
  {
    hide Accept, Adapts, Starts;
    AskedAdapts(p, refs, entry);
    if entry.no == p.nextSeq && reply.Got? {
      AcceptAdapts(p.(log := Add(p.log, Asked(p.cur, entry))), refs, entry.no, reply);
      AcceptStarts(p.(log := Add(p.log, Asked(p.cur, entry))), refs, entry.no, reply);
    }
  }

  lemma {:induction false} FetchAdapts(p: Player, refs: seq<Ref>, entries: seq<Entry>, replies: seq<Reply>)
    requires |entries| == |replies| && Adapts(refs, p) && Starts(p)
    ensures var q := Fetch(p, refs, entries, replies).p; Adapts(refs, q) && Starts(q)
  {
    hide Visit, Adapts, Starts;
    if entries != [] {
      var n := |entries| - 1;
      FetchAdapts(p, refs, entries[..n], replies[..n]);
      VisitAdapts(Fetch(p, refs, entries[..n], replies[..n]).p, refs, entries[n], replies[n]);
    }
  }

  lemma JoinAdapts(p: Player, refs: seq<Ref>, pl: Playlist)
    requires Adapts(refs, p) && Starts(p)
    ensures Adapts(refs, Join(p, pl)) && Starts(Join(p, pl))
  {
    hide Right, AsksRight, Mean, Trimmed;
  }

  lemma {:induction false} RunAdapts(p: Player, refs: seq<Ref>, rounds: seq<Round>)
    requires forall r :: r in rounds ==> WellFormed(r)
    requires Adapts(refs, p) && Starts(p)
    ensures var q := Run(p, refs, rounds).p; Adapts(refs, q) && Starts(q)
    decreases |rounds|
  {
    hide Fetch, Drain, Join, Adapts, Starts;
    if rounds != [] && rounds[0].Listed? {
      var r := rounds[0];
      assert WellFormed(r);
      JoinAdapts(p, refs, r.pl);
      FetchAdapts(Join(p, r.pl), refs, r.pl.segments, r.replies);
      var o := Fetch(Join(p, r.pl), refs, r.pl.segments, r.replies);
      if o.Going? {
        DrainAdapts(o.p, r.end, refs);
        RunAdapts(Drain(o.p, r.end), refs, rounds[1..]);
      }
    }
  }

  lemma NewAdapts(now: int, refs: seq<Ref>)
    ensures Adapts(refs, NewPlayer(now)) && Starts(NewPlayer(now))
  {
  }

  /** Over every run: the estimate is the weighted mean of the throughputs measured, without zeros at the front; every
      request names the first rendition until a segment has arrived, and from then on the highest one below eight
      tenths of the estimate at that time, or the first. */
  lemma RequestsFollowTheEstimate(now: int, refs: seq<Ref>, rounds: seq<Round>)
    requires forall r :: r in rounds ==> WellFormed(r)
    ensures var q := Run(NewPlayer(now), refs, rounds).p;
            q.bw == Mean(Trimmed(Samples(q.log))) && Right(refs, q.log, q.cur) && AsksRight(refs, q.log)
  {
    hide Run, Right, AsksRight, Mean, Trimmed;
    NewAdapts(now, refs);
    RunAdapts(NewPlayer(now), refs, rounds);
  }

  /** Over every run: playback starts once, when the second segment arrives. */
  lemma PlaysFromTheSecond(now: int, refs: seq<Ref>, rounds: seq<Round>)
    requires forall r :: r in rounds ==> WellFormed(r)
    ensures var q := Run(NewPlayer(now), refs, rounds).p;
            && |Arrivals(q.log)| == |Fetched(q.log)| && (q.started <==> |Arrivals(q.log)| >= 2)
            && Startups(q.log) == if q.started then [Arrivals(q.log)[1]] else []
  {
    hide Run, Adapts;
    NewAdapts(now, refs);
    RunAdapts(NewPlayer(now), refs, rounds);
  }
}
