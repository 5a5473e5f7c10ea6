/** What holds of every run of the publisher: its streams, and its bitrate. */
module PublisherTheorems {
  import opened Generator
  import opened Publisher
  import Abr
  import RelayChain
  import Wire
  import WireStreams

  // ---------- Streams ----------

  /** The stream carries the frames of its group from the key frame on, without a gap; all of them if finished. */
  predicate WellCut(c: Config, s: Stream) {
    && |s.frames| <= c.groupFrames && (s.finished ==> |s.frames| == c.groupFrames)
    && forall i :: 0 <= i < |s.frames| ==>
         var f := s.frames[i];
         f.group == s.group && f.index == i && (f.keyframe <==> i == 0) && 64 <= f.size <= NOISE / 2
  }

  predicate AllWellCut(c: Config, streams: seq<Stream>) {
    forall i :: 0 <= i < |streams| ==> WellCut(c, streams[i])
  }

  /** The groups of the streams strictly increase. */
  predicate Rising(streams: seq<Stream>) {
    forall i, j :: 0 <= i < j < |streams| ==> streams[i].group < streams[j].group
  }

  /** The last stream's group has begun, and if the stream is open it is where the generator stands. */
  predicate Current(c: Config, p: Pub) {
    && p.at.index < c.groupFrames
    && (p.streams != [] ==>
          var s := p.streams[|p.streams| - 1];
          s.group < p.at.group || (s.group == p.at.group && p.at.index > 0))
    && (p.open ==>
          && p.streams != []
          && var s := p.streams[|p.streams| - 1];
             !s.finished && if p.at.index > 0 then s.group == p.at.group && |s.frames| == p.at.index
                            else s.group + 1 == p.at.group && |s.frames| == c.groupFrames)
  }

  predicate Orderly(c: Config, p: Pub) {
    Ready(c, p) && AllWellCut(c, p.streams) && Rising(p.streams) && Current(c, p)
  }

  /** The state between a frame's being made and its being sent. */
  predicate Making(c: Config, p: Pub, f: Frame) {
    && Ready(c, p) && AllWellCut(c, p.streams) && Rising(p.streams) && f.index < c.groupFrames
    && (f.keyframe <==> f.index == 0) && 64 <= f.size <= NOISE / 2
    && p.at == After(c, Position(f.group, f.index))
    && (p.streams != [] ==>
          var s := p.streams[|p.streams| - 1]; s.group < f.group || (s.group == f.group && (f.index > 0 || p.open)))
    && (p.open ==>
          && p.streams != []
          && var s := p.streams[|p.streams| - 1];
             !s.finished && s.group == f.group && |s.frames| == f.index)
  }

  lemma EndedOrderly(c: Config, abr: bool, p: Pub)
    requires Ready(c, p) && AllWellCut(c, p.streams) && Rising(p.streams)
    requires p.open ==> |p.streams[|p.streams| - 1].frames| == c.groupFrames
    ensures var q := Ended(c, abr, p);
            && AllWellCut(c, q.streams) && Rising(q.streams) && |q.streams| == |p.streams| && q.at == p.at
            && forall i :: 0 <= i < |q.streams| ==> q.streams[i].group == p.streams[i].group
  {
    hide Abr.Adapted;
  }

  lemma BegunOrderly(c: Config, abr: bool, p: Pub, f: Frame, opening: Opening)
    requires Ready(c, p) && AllWellCut(c, p.streams) && Rising(p.streams)
    requires f.index == 0 && f.keyframe && 64 <= f.size <= NOISE / 2
    requires Normal(c) && p.at == After(c, Position(f.group, 0))
    requires p.open ==> |p.streams[|p.streams| - 1].frames| == c.groupFrames
    requires p.streams != [] ==> p.streams[|p.streams| - 1].group < f.group
    ensures var o := Begun(c, abr, p, f.group, opening);
            if o.Going? then Making(c, o.p, f) else Orderly(c, o.p.(open := false))
  {
    var s := Stream(f.group, [], false);
    assert WellCut(c, s);
    hide Ended, WellCut;
    EndedOrderly(c, abr, p);
    var q := Ended(c, abr, p);
    assert AllWellCut(c, q.streams + [s]);
    assert Rising(q.streams + [s]) by {
      forall i, j | 0 <= i < j < |q.streams + [s]| ensures (q.streams + [s])[i].group < (q.streams + [s])[j].group {
        if j == |q.streams| && i < j - 1 { assert q.streams[i].group < q.streams[j - 1].group; }
      }
    }
  }

  lemma SentOrderly(c: Config, p: Pub, f: Frame, write: Write)
    requires Making(c, p, f)
    ensures var o := Sent(c, p, f, write);
            if o.Going? then Orderly(c, o.p) else Orderly(c, o.p.(open := false))
  {
    if p.open && write.Written? {
      var n := |p.streams| - 1;
      var t := Extended(p.streams, f);
      assert WellCut(c, p.streams[n]);
      assert WellCut(c, t[n]);
      assert forall i :: 0 <= i < n ==> t[i] == p.streams[i];
    }
  }

  /** Every pass of the loop keeps the streams in order; after a failure, for the next session to go on from. */
  lemma TickedOrderly(c: Config, abr: bool, p: Pub, t: Tick)
    requires Orderly(c, p)
    ensures var o := Ticked(c, abr, p, t);
            if o.Going? then Orderly(c, o.p) else Orderly(c, o.p.(open := false))
  {
    hide Begun, Sent, Size;
    var f := FrameAt(c, p.rate.kbps, p.at, t.now);
    var q := p.(at := After(c, p.at));
    if f.index == 0 {
      BegunOrderly(c, abr, q, f, t.opening);
      var o := Begun(c, abr, q, f.group, t.opening);
      if o.Going? { SentOrderly(c, o.p, f, t.write); }
    } else {
      assert Making(c, q, f);
      SentOrderly(c, q, f, t.write);
    }
  }

  lemma {:induction false} SessionOrderly(c: Config, abr: bool, p: Pub, ticks: seq<Tick>)
    requires Orderly(c, p)
    ensures Orderly(c, SessionFrom(c, abr, p, ticks).(open := false))
    decreases |ticks|
  {
    hide Ticked, AllWellCut, Rising;
    if ticks != [] {
      TickedOrderly(c, abr, p, ticks[0]);
      var o := Ticked(c, abr, p, ticks[0]);
      if o.Going? {
        SessionOrderly(c, abr, o.p, ticks[1..]);
      }
    }
  }

  lemma {:induction false} RunOrderly(c: Config, abr: bool, p: Pub, sessions: seq<seq<Tick>>)
    requires Orderly(c, p.(open := false)) && Ready(c, p)
    ensures Orderly(c, RunAll(c, abr, p, sessions).(open := false))
    decreases |sessions|
  {
    hide SessionFrom, AllWellCut, Rising;
    if sessions != [] {
      assert Orderly(c, Dialled(p));
      SessionOrderly(c, abr, Dialled(p), sessions[0]);
      RunOrderly(c, abr, SessionFrom(c, abr, Dialled(p), sessions[0]), sessions[1..]);
    }
  }

  /** Over any sessions and failures, from the start: every stream carries frames 0, 1, ... of one group, beginning
      with its key frame, and the groups of the streams strictly increase. */
  lemma StreamsInOrder(c: Config, abr: bool, kbps: int, sessions: seq<seq<Tick>>)
    requires Paced(c)
    ensures var streams := RunAll(c, abr, Fresh(kbps), sessions).streams; AllWellCut(c, streams) && Rising(streams)
  {
    RunOrderly(c, abr, Fresh(kbps), sessions);
  }

  function GroupNumbers(streams: seq<Stream>): (r: seq<nat>)
    ensures |r| == |streams| && forall i :: 0 <= i < |r| ==> r[i] == streams[i].group
  {
    seq(|streams|, i requires 0 <= i < |streams| => streams[i].group)
  }

  /** So a chain of relays, which merges adjacent repeats, has nothing of the publisher's to merge. */
  lemma RelaysKeepEveryStream(c: Config, abr: bool, kbps: int, sessions: seq<seq<Tick>>)
    requires Paced(c)
    ensures var streams := RunAll(c, abr, Fresh(kbps), sessions).streams;
            RelayChain.Collapse(GroupNumbers(streams)) == GroupNumbers(streams)
  {
    hide RunAll, RelayChain.Collapse;
    StreamsInOrder(c, abr, kbps, sessions);
    var streams := RunAll(c, abr, Fresh(kbps), sessions).streams;
    RelayChain.CollapseFixed(GroupNumbers(streams));
  }

  // ---------- On the wire ----------

  /** An object on the wire made of a frame. */
  predicate Carries(o: Wire.Object, f: Frame) {
    && o.seqNo == f.index && o.keyframe == f.keyframe && |o.payload| == f.size
    && o.pts == f.pts % 0x1_0000_0000_0000_0000
  }

  /** What a stream's frames are written as is within the reader's limits: cut anywhere, the stream is read back as
      the whole frames before the cut, and the error tells whether the cut fell between two frames. */
  lemma StreamReadBack(c: Config, s: Stream, objs: seq<Wire.Object>, k: nat, end: Wire.End)
    requires WellCut(c, s) && |objs| == |s.frames|
    requires forall i :: 0 <= i < |objs| ==> Carries(objs[i], s.frames[i])
    requires k <= |WireStreams.EncodeAll(objs)|
    ensures Wire.AllSendable(objs)
    ensures var n := WireStreams.Whole(objs, k);
            var whole := |WireStreams.EncodeAll(objs[..n])|;
            && k >= whole
            && WireStreams.ReadObjects(WireStreams.EncodeAll(objs)[..k], end)
               == WireStreams.Objects(objs[..n], Wire.Cut(end, k - whole), [])
  {
    hide WireStreams.EncodeAll, WireStreams.ReadObjects, WireStreams.Whole;
    forall i | 0 <= i < |objs| ensures Wire.Sendable(objs[i]) { assert Carries(objs[i], s.frames[i]); }
    WireStreams.StreamCut(objs, k, end);
  }

  // ---------- Ticks ----------

  /** What a tick that succeeds on an open stream sends: the next frame, stamped with the tick's time and sized for the
      bitrate before the tick. */
  lemma TickSendsItsFrame(c: Config, abr: bool, p: Pub, t: Tick)
    requires Ready(c, p)
    ensures var o := Ticked(c, abr, p, t);
            o.Going? && o.p.open ==>
              && o.p.streams != []
              && var s := o.p.streams[|o.p.streams| - 1];
                 s.frames != []
                 && s.frames[|s.frames| - 1] == Frame(p.at.group, p.at.index, p.at.index == 0, t.now,
                                                      Size(c, p.rate.kbps, p.at.index))
  {
    hide Abr.Adapted, Size;
  }

  /** A tick ends the session if and only if a stream cannot be opened with its header when a group begins, or a frame
      cannot be written to the stream there is. */
  lemma TickFailsIff(c: Config, abr: bool, p: Pub, t: Tick)
    requires Ready(c, p)
    ensures Ticked(c, abr, p, t).Failed?
            <==> (p.at.index == 0 && !t.opening.Opened?) || ((p.at.index == 0 || p.open) && t.write.Broken?)
  {
    hide Abr.Adapted, Size;
  }

  /** At a group boundary the stream that is open is closed, whether or not the next one can be opened. */
  lemma BoundaryCloses(c: Config, abr: bool, p: Pub, t: Tick)
    requires Ready(c, p) && p.open && p.at.index == 0
    ensures var n, q := |p.streams|, Ticked(c, abr, p, t).p.streams;
            && n <= |q| && q[n - 1] == p.streams[n - 1].(finished := true) && q[..n - 1] == p.streams[..n - 1]
            && |q| == n + if t.opening.Refused? then 0 else 1
  {
    hide Abr.Adapted, Size;
  }

  function PtsOf(frames: seq<Frame>): (r: seq<int>)
    ensures |r| == |frames| && forall i :: 0 <= i < |r| ==> r[i] == frames[i].pts
  {
    seq(|frames|, i requires 0 <= i < |frames| => frames[i].pts)
  }

  /** The presentation times of all frames written, in order. */
  function Stamps(streams: seq<Stream>): seq<int> {
    if streams == [] then []
    else Stamps(streams[..|streams| - 1]) + PtsOf(streams[|streams| - 1].frames)
  }

  function Times(ticks: seq<Tick>): (r: seq<int>)
    ensures |r| == |ticks| && forall i :: 0 <= i < |r| ==> r[i] == ticks[i].now
  {
    seq(|ticks|, i requires 0 <= i < |ticks| => ticks[i].now)
  }

  lemma StampsOfFinished(streams: seq<Stream>)
    requires streams != []
    ensures Stamps(Finished(streams)) == Stamps(streams)
  {
    var n := |streams| - 1;
    assert Finished(streams)[..n] == streams[..n];
  }

  lemma StampsOfOpened(streams: seq<Stream>, group: nat)
    ensures Stamps(streams + [Stream(group, [], false)]) == Stamps(streams)
  {
    var more := streams + [Stream(group, [], false)];
    assert more[..|more| - 1] == streams;
    assert PtsOf([]) == [];
  }

  lemma StampsOfExtended(streams: seq<Stream>, f: Frame)
    requires streams != []
    ensures Stamps(Extended(streams, f)) == Stamps(streams) + [f.pts]
  {
    var n := |streams| - 1;
    assert Extended(streams, f)[..n] == streams[..n];
    assert PtsOf(streams[n].frames + [f]) == PtsOf(streams[n].frames) + [f.pts];
  }

  lemma TickStamps(c: Config, abr: bool, p: Pub, t: Tick)
    requires Ready(c, p)
    ensures var o := Ticked(c, abr, p, t);
            && Stamps(o.p.streams) == Stamps(p.streams) + (if o.Going? && o.p.open then [t.now] else [])
            && (o.Going? && p.open ==> o.p.open)
  {
    hide Abr.Adapted, Size, Stamps;
    var f := FrameAt(c, p.rate.kbps, p.at, t.now);
    var q := p.(at := After(c, p.at));
    if f.index == 0 {
      if q.open { StampsOfFinished(q.streams); }
      StampsOfOpened(Ended(c, abr, q).streams, f.group);
      var o := Begun(c, abr, q, f.group, t.opening);
      if o.Going? { StampsOfExtended(o.p.streams, f); }
    } else if q.open {
      StampsOfExtended(q.streams, f);
    }
  }

  /** A session writes one frame a tick, stamped with the tick's time, over one unbroken stretch of its ticks: it begins
      at the first group boundary and ends with the session or its first failure. */
  lemma {:induction false} SessionStamps(c: Config, abr: bool, p: Pub, ticks: seq<Tick>) returns (lo: nat, hi: nat)
    requires Ready(c, p)
    ensures lo <= hi <= |ticks| && (p.open ==> lo == 0)
    ensures Stamps(SessionFrom(c, abr, p, ticks).streams) == Stamps(p.streams) + Times(ticks[lo..hi])
    decreases |ticks|
  {
    hide Ticked, Stamps;
    lo, hi := 0, 0;
    if ticks == [] {
      assert Times(ticks[0..0]) == [];
    } else {
      TickStamps(c, abr, p, ticks[0]);
      var o := Ticked(c, abr, p, ticks[0]);
      if o.Failed? {
        assert Times(ticks[0..0]) == [];
        hide Times;
      } else {
        var l, h := SessionStamps(c, abr, o.p, ticks[1..]);
        if o.p.open {
          lo, hi := 0, h + 1;
          TimesFirst(ticks, h);
          hide Times;
        } else {
          lo, hi := l + 1, h + 1;
          assert ticks[l + 1..h + 1] == ticks[1..][l..h];
          hide Times;
        }
      }
    }
  }

  lemma TimesFirst(ticks: seq<Tick>, h: nat)
    requires h < |ticks|
    ensures Times(ticks[0..h + 1]) == [ticks[0].now] + Times(ticks[1..][0..h])
  {
  }

  /** The time the writes of these ticks took. */
  function Spent(ticks: seq<Tick>): int {
    if ticks == [] then 0
    else
      var w := ticks[|ticks| - 1].write;
      Spent(ticks[..|ticks| - 1]) + if w.Written? then w.took else 0
  }

  predicate Succeeds(t: Tick) { t.opening.Opened? && t.write.Written? }

  lemma {:induction false} SessionSplits(c: Config, abr: bool, p: Pub, ticks: seq<Tick>, t: Tick)
    requires Ready(c, p) && forall i :: 0 <= i < |ticks| ==> Succeeds(ticks[i])
    ensures SessionFrom(c, abr, p, ticks + [t]) == Ticked(c, abr, SessionFrom(c, abr, p, ticks), t).p
    decreases |ticks|
  {
    hide Ticked;
    var all := ticks + [t];
    if ticks == [] {
      assert all == [t] && [t][1..] == [];
    } else {
      GoesOn(c, abr, p, ticks[0]);
      assert all[0] == ticks[0] && all[1..] == ticks[1..] + [t];
      SessionSplits(c, abr, Ticked(c, abr, p, ticks[0]).p, ticks[1..], t);
    }
  }

  lemma GoesOn(c: Config, abr: bool, p: Pub, t: Tick)
    requires Ready(c, p) && Succeeds(t)
    ensures Ticked(c, abr, p, t).Going?
  {
    hide Abr.Adapted, Size;
  }

  /** From a group's first frame on, what the publisher will judge the group by is the time its own writes took. */
  lemma {:induction false} GroupSpends(c: Config, abr: bool, p: Pub, ticks: seq<Tick>)
    requires Ready(c, p) && p.at.index == 0 && (!p.open ==> p.busy == 0) && 0 < |ticks| <= c.groupFrames
    requires forall i :: 0 <= i < |ticks| ==> Succeeds(ticks[i])
    ensures var q := SessionFrom(c, abr, p, ticks);
            && q.open && q.busy == Spent(ticks)
            && q.at.index == if |ticks| == c.groupFrames then 0 else |ticks|
    decreases |ticks|
  {
    var n := |ticks| - 1;
    assert ticks == ticks[..n] + [ticks[n]];
    SessionSplits(c, abr, p, ticks[..n], ticks[n]);
    hide SessionFrom;
    if n == 0 {
      NoTicks(c, abr, p, ticks);
      OneTick(c, abr, p, ticks[0]);
    } else {
      GroupSpends(c, abr, p, ticks[..n]);
      OneTick(c, abr, SessionFrom(c, abr, p, ticks[..n]), ticks[n]);
    }
  }

  lemma NoTicks(c: Config, abr: bool, p: Pub, ticks: seq<Tick>)
    requires Ready(c, p)
    ensures SessionFrom(c, abr, p, []) == p && (|ticks| > 0 ==> ticks[..0] == []) && Spent([]) == 0
  {
  }

  lemma OneTick(c: Config, abr: bool, p: Pub, t: Tick)
    requires Ready(c, p) && Succeeds(t) && p.at.index < c.groupFrames
    requires if p.at.index == 0 then !p.open ==> p.busy == 0 else p.open
    ensures var q := Ticked(c, abr, p, t).p;
            && q.open && q.busy == (if p.at.index == 0 then 0 else p.busy) + t.write.took
            && q.at.index == if p.at.index + 1 == c.groupFrames then 0 else p.at.index + 1
  {
    hide Abr.Adapted, Size;
  }

  /** Without an open stream no time is charged, in any run: so of the two cases below every group boundary is one. */
  lemma {:induction false} ClosedIsIdle(c: Config, abr: bool, p: Pub, ticks: seq<Tick>)
    requires Ready(c, p) && (!p.open ==> p.busy == 0)
    ensures var q := SessionFrom(c, abr, p, ticks); !q.open ==> q.busy == 0
    decreases |ticks|
  {
    hide Abr.Adapted, Size;
    if ticks != [] {
      var o := Ticked(c, abr, p, ticks[0]);
      if o.Going? { ClosedIsIdle(c, abr, o.p, ticks[1..]); }
    }
  }

  /** An adaptive publisher judges a group, at the first frame of the next, by the share of the group's duration that
      the writes of its frames took, and moves its tier by the ladder's rule. */
  lemma GroupIsJudged(c: Config, p: Pub, ticks: seq<Tick>, t: Tick)
    requires Ready(c, p) && p.at.index == 0 && (!p.open ==> p.busy == 0) && |ticks| == c.groupFrames
    requires forall i :: 0 <= i < |ticks| ==> Succeeds(ticks[i])
    ensures var q := SessionFrom(c, true, p, ticks);
            && TickEvents(c, true, q) == [Abr.Verdict(Spent(ticks) as real / GroupDuration(c) as real)]
            && Ticked(c, true, q, t).p.rate == Abr.Adapted(q.rate, Spent(ticks) as real / GroupDuration(c) as real)
  {
    GroupSpends(c, true, p, ticks);
    hide SessionFrom, Abr.Adapted, Size, Spent, GroupDuration;
  }

  // ---------- Bitrate ----------

  /** The verdict a tick brings, if it ends a group of an adaptive publisher. */
  function TickEvents(c: Config, abr: bool, p: Pub): seq<Abr.Event>
    requires Ready(c, p)
  {
    if p.at.index == 0 && p.open && abr then [Abr.Verdict(p.busy as real / GroupDuration(c) as real)] else []
  }

  function SessionEvents(c: Config, abr: bool, p: Pub, ticks: seq<Tick>): seq<Abr.Event>
    requires Ready(c, p)
    decreases |ticks|
  {
    if ticks == [] then []
    else
      var o := Ticked(c, abr, p, ticks[0]);
      TickEvents(c, abr, p) + if o.Failed? then [] else SessionEvents(c, abr, o.p, ticks[1..])
  }

  function RunEvents(c: Config, abr: bool, p: Pub, sessions: seq<seq<Tick>>): seq<Abr.Event>
    requires Ready(c, p)
    decreases |sessions|
  {
    if sessions == [] then []
    else
      [Abr.Session] + SessionEvents(c, abr, Dialled(p), sessions[0])
      + RunEvents(c, abr, SessionFrom(c, abr, Dialled(p), sessions[0]), sessions[1..])
  }

  lemma TickedRate(c: Config, abr: bool, p: Pub, t: Tick, start: nat, before: seq<Abr.Event>)
    requires Ready(c, p) && start < |Abr.LADDER| && p.rate == Abr.Run(start, before)
    ensures Ticked(c, abr, p, t).p.rate == Abr.Run(start, before + TickEvents(c, abr, p))
  {
    hide Abr.Adapted, Size;
    if TickEvents(c, abr, p) != [] {
      var e := TickEvents(c, abr, p)[0];
      assert before + TickEvents(c, abr, p) == before + [e];
      assert (before + [e])[..|before|] == before;
    } else {
      assert before + [] == before;
    }
  }

  lemma {:induction false} SessionRate(c: Config, abr: bool, p: Pub, ticks: seq<Tick>,
                                        start: nat, before: seq<Abr.Event>)
    requires Ready(c, p) && start < |Abr.LADDER| && p.rate == Abr.Run(start, before)
    ensures SessionFrom(c, abr, p, ticks).rate == Abr.Run(start, before + SessionEvents(c, abr, p, ticks))
    decreases |ticks|
  {
    hide Ticked, TickEvents, Abr.Run;
    if ticks == [] {
      assert before + [] == before;
    } else {
      var es := TickEvents(c, abr, p);
      TickedRate(c, abr, p, ticks[0], start, before);
      var o := Ticked(c, abr, p, ticks[0]);
      if o.Failed? {
        assert before + (es + []) == before + es;
      } else {
        SessionRate(c, abr, o.p, ticks[1..], start, before + es);
        var rest := SessionEvents(c, abr, o.p, ticks[1..]);
        assert before + (es + rest) == before + es + rest;
      }
    }
  }

  lemma DialledRate(c: Config, p: Pub, start: nat, before: seq<Abr.Event>)
    requires Ready(c, p) && start < |Abr.LADDER| && p.rate == Abr.Run(start, before)
    ensures Ready(c, Dialled(p)) && Dialled(p).rate == Abr.Run(start, before + [Abr.Session])
  {
    hide Abr.Adapted;
    assert (before + [Abr.Session])[..|before|] == before;
  }

  /** The publisher's rate is what its groups' verdicts make of it, so the ladder's hysteresis is the publisher's. */
  lemma {:induction false} RunRate(c: Config, abr: bool, p: Pub, sessions: seq<seq<Tick>>,
                                    start: nat, before: seq<Abr.Event>)
    requires Ready(c, p) && start < |Abr.LADDER| && p.rate == Abr.Run(start, before)
    ensures RunAll(c, abr, p, sessions).rate == Abr.Run(start, before + RunEvents(c, abr, p, sessions))
    decreases |sessions|
  {
    hide SessionFrom, SessionEvents, Abr.Run, Dialled;
    if sessions == [] {
      assert before + [] == before;
    } else {
      var q, one := Dialled(p), before + [Abr.Session];
      DialledRate(c, p, start, before);
      SessionRate(c, abr, q, sessions[0], start, one);
      var es := SessionEvents(c, abr, q, sessions[0]);
      var r := SessionFrom(c, abr, q, sessions[0]);
      RunRate(c, abr, r, sessions[1..], start, one + es);
      var rest := RunEvents(c, abr, r, sessions[1..]);
      assert before + ([Abr.Session] + es + rest) == one + es + rest;
    }
  }

  /** Over any run of the publisher: the generator's bitrate is that of its tier, and the steps are bounded by the
      groups judged. */
  lemma PublisherHysteresis(c: Config, abr: bool, kbps: int, sessions: seq<seq<Tick>>)
    requires Paced(c)
    ensures var events := RunEvents(c, abr, Fresh(kbps), sessions);
            var r, start := RunAll(c, abr, Fresh(kbps), sessions).rate, Abr.StartTier(kbps);
            && Abr.OnLadder(r) && r.tier - start == Abr.Ups(start, events) - Abr.Downs(start, events)
            && 10 * Abr.Ups(start, events) + 2 * Abr.Downs(start, events) <= Abr.Verdicts(events)
  {
    hide RunAll, RunEvents, Abr.Ups, Abr.Downs, Abr.Verdicts;
    var start := Abr.StartTier(kbps);
    var events := RunEvents(c, abr, Fresh(kbps), sessions);
    RunRate(c, abr, Fresh(kbps), sessions, start, []);
    assert [] + events == events;
    Abr.Hysteresis(start, events);
  }

  const DEFAULT := Config(30, 30, 4.0)

  /** With the default frame rate, group length and key frame weight, the bitrates that need no clamping. */
  lemma DefaultUnclamped(kbps: int)
    ensures Unclamped(DEFAULT, kbps) <==> 18 <= kbps <= 125_829
  {
    var avg := Average(DEFAULT, kbps);
    assert avg == kbps as real * 25.0 / 6.0;
    assert KeyBytes(DEFAULT, kbps) == 4.0 * avg;
    assert DeltaBytes(DEFAULT, kbps) == 26.0 * avg / 29.0;
  }

  /** Every tier of the ladder is among them: whole groups made at one tier keep its budget. */
  lemma LadderKeepsBudget(tier: nat)
    requires tier < |Abr.LADDER|
    ensures var kbps := Abr.LADDER[tier];
            Budget(DEFAULT, kbps) - 30.0 < GroupBytes(DEFAULT, kbps, 30) as real <= Budget(DEFAULT, kbps)
  {
    hide GroupBytes, Budget, Unclamped;
    var kbps := Abr.LADDER[tier];
    assert 250 <= kbps <= 5000;
    DefaultUnclamped(kbps);
    GroupBudget(DEFAULT, kbps);
  }
}
