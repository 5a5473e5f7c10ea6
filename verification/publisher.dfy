/** internal/moqclient/pub.go:42-144: the publisher, which sends each group of frames on a stream of its own, over
    any number of sessions. */
module Publisher {
  import opened Generator
  import opened Abr

  /** A stream the publisher opened: its header's group, the frames written to it, and whether it was closed at the
      group's end. A session that fails leaves its last stream unfinished. */
  datatype Stream = Stream(group: nat, frames: seq<Frame>, finished: bool)

  /** What lasts across sessions, and a session's current stream and write time. */
  datatype Pub = Pub(at: Position, rate: Rate, open: bool, busy: int, streams: seq<Stream>)

  datatype Opening = Refused | Headless | Opened

  datatype Write = Broken | Written(took: int)

  /** One frame time: the clock, and what opening a stream and writing the frame would meet. */
  datatype Tick = Tick(now: int, opening: Opening, write: Write)

  datatype Outcome = Going(p: Pub) | Failed(p: Pub)

  predicate Paced(c: Config) { Normal(c) && c.fps <= 1_000_000_000 }

  /** The duration of a group in nanoseconds. */
  function GroupDuration(c: Config): (d: nat)
    requires Paced(c)
    ensures d > 0
  {
    var interval := 1_000_000_000 / c.fps;
    Positive(interval, c.groupFrames);
    interval * c.groupFrames
  }

  /** It is the time of its frames, to a nanosecond a frame. */
  lemma GroupLasts(c: Config)
    requires Paced(c)
    ensures var d, n := GroupDuration(c), c.groupFrames;
            c.fps * d <= 1_000_000_000 * n < c.fps * d + c.fps * n
  {
    var interval, n := 1_000_000_000 / c.fps, c.groupFrames;
    var rest := 1_000_000_000 - c.fps * interval;
    assert 0 <= rest < c.fps;
    Grouped(c.fps, interval, rest, n);
  }

  lemma Grouped(fps: nat, interval: nat, rest: nat, n: nat)
    requires rest < fps && n > 0
    ensures fps * (interval * n) <= (fps * interval + rest) * n < fps * (interval * n) + fps * n
  {
    assert (fps * interval + rest) * n == fps * (interval * n) + rest * n;
    assert rest * n < fps * n;
  }

  lemma Positive(a: nat, b: nat)
    requires a > 0 && b > 0
    ensures a * b > 0
  {
  }

  function Fresh(kbps: int): Pub { Pub(Position(0, 0), Started(StartTier(kbps)), false, 0, []) }

  /** A new session. */
  function Dialled(p: Pub): Pub { p.(open := false, busy := 0, rate := p.rate.(slow := 0, fast := 0)) }

  function Finished(streams: seq<Stream>): seq<Stream>
    requires streams != []
  {
    var n := |streams| - 1;
    streams[n := streams[n].(finished := true)]
  }

  function Extended(streams: seq<Stream>, f: Frame): seq<Stream>
    requires streams != []
  {
    var n := |streams| - 1;
    streams[n := streams[n].(frames := streams[n].frames + [f])]
  }

  predicate Ready(c: Config, p: Pub) { Paced(c) && OnLadder(p.rate) && (p.open ==> p.streams != []) }

  /** The end of a group: its stream is closed, and its write time judged. */
  function Ended(c: Config, abr: bool, p: Pub): (q: Pub)
    requires Ready(c, p)
    ensures Ready(c, q)
  {
    if !p.open then p
    else
      var rate := if abr then Adapted(p.rate, p.busy as real / GroupDuration(c) as real) else p.rate;
      p.(streams := Finished(p.streams), rate := rate, busy := 0)
  }

  lemma NothingToEnd(c: Config, abr: bool, p: Pub)
    requires Ready(c, p) && !p.open
    ensures Ended(c, abr, p) == p
  {
  }

  function Begun(c: Config, abr: bool, p: Pub, group: nat, opening: Opening): (o: Outcome)
    requires Ready(c, p)
    ensures Ready(c, o.p) && (o.Going? ==> o.p.open)
  {
    var q := Ended(c, abr, p);
    if opening.Refused? then Failed(q.(open := false))
    else
      var r := q.(streams := q.streams + [Stream(group, [], false)], open := true);
      if opening.Headless? then Failed(r) else Going(r)
  }

  function Sent(c: Config, p: Pub, f: Frame, write: Write): (o: Outcome)
    requires Ready(c, p)
    ensures Ready(c, o.p)
  {
    if !p.open then Going(p)
    else if write.Broken? then Failed(p)
    else Going(p.(streams := Extended(p.streams, f), busy := p.busy + write.took))
  }

  function Ticked(c: Config, abr: bool, p: Pub, t: Tick): (o: Outcome)
    requires Ready(c, p)
    ensures Ready(c, o.p)
  {
    var f := FrameAt(c, p.rate.kbps, p.at, t.now);
    var q := p.(at := After(c, p.at));
    var o := if f.index == 0 then Begun(c, abr, q, f.group, t.opening) else Going(q);
    if o.Failed? then o else Sent(c, o.p, f, t.write)
  }

  /** A session from its n-th tick on: it goes on to the last tick or until one fails. */
  function SessionFrom(c: Config, abr: bool, p: Pub, ticks: seq<Tick>): (q: Pub)
    requires Ready(c, p)
    ensures Ready(c, q)
    decreases |ticks|
  {
    if ticks == [] then p
    else
      var o := Ticked(c, abr, p, ticks[0]);
      if o.Failed? then o.p else SessionFrom(c, abr, o.p, ticks[1..])
  }

  function RunAll(c: Config, abr: bool, p: Pub, sessions: seq<seq<Tick>>): (q: Pub)
    requires Ready(c, p)
    ensures Ready(c, q)
    decreases |sessions|
  {
    if sessions == [] then p else RunAll(c, abr, SessionFrom(c, abr, Dialled(p), sessions[0]), sessions[1..])
  }

  // ---------- The publisher itself ----------

  class Publisher {
    const gen: Generator
    const abr: bool
    var tier: nat
    var slow: nat
    var fast: nat
    var open: bool
    var busy: int
    var streams: seq<Stream>

    predicate Valid()
      reads this, gen
    {
      gen.Valid() && Ready(gen.config, Value())
    }

    function Value(): Pub
      reads this, gen
    {
      Pub(gen.Where(), Rate(tier, slow, fast, gen.kbps), open, busy, streams)
    }

    constructor (g: Generator, adaptive: bool, kbps: int)
      requires g.Valid() && Paced(g.config) && g.Where() == Position(0, 0) && g.kbps == LADDER[StartTier(kbps)]
      ensures Valid() && Value() == Fresh(kbps) && gen == g && abr == adaptive
    {
      gen, abr := g, adaptive;
      tier, slow, fast, open, busy, streams := StartTier(kbps), 0, 0, false, 0, [];
    }

    /** adapt. */
    method Adapt(ratio: real)
      requires Valid()
      modifies this, gen`kbps
      ensures Valid() && Value() == old(Value()).(rate := Adapted(old(Value()).rate, ratio))
    {
      if ratio > 0.5 {
        slow := slow + 1;
        fast := 0;
      } else if ratio < 0.1 {
        fast := fast + 1;
        slow := 0;
      } else {
        slow, fast := 0, 0;
      }
      if slow >= 2 && tier > 0 {
        tier := tier - 1;
        slow := 0;
        gen.kbps := LADDER[tier];
      }
      if fast >= 10 && tier < |LADDER| - 1 {
        tier := tier + 1;
        fast := 0;
        gen.kbps := LADDER[tier];
      }
    }

    method EndGroup()
      requires Valid() && open
      modifies this, gen`kbps
      ensures Valid() && Value() == Ended(gen.config, abr, old(Value()))
    {
      hide Adapted, LADDER;
      streams := Finished(streams);
      if abr {
        Adapt(busy as real / GroupDuration(gen.config) as real);
      }
      busy := 0;
    }

    /** One pass of publishOnce's loop. */
    method OnTick(t: Tick) returns (ok: bool)
      requires Valid()
      modifies this, gen`kbps, gen`group, gen`index
      ensures Valid()
      ensures (if ok then Going(Value()) else Failed(Value())) == Ticked(gen.config, abr, old(Value()), t)
    {
      hide Ended, LADDER, Size;
      var f, _ := gen.Next(t.now);
      if f.index == 0 {
        ghost var before := Value();
        if open {
          EndGroup();
        } else {
          NothingToEnd(gen.config, abr, before);
        }
        if t.opening.Refused? {
          open := false;
          return false;
        }
        streams := streams + [Stream(f.group, [], false)];
        open := true;
        if t.opening.Headless? {
          return false;
        }
      }
      if !open {
        return true;
      }
      if t.write.Broken? {
        return false;
      }
      streams := Extended(streams, f);
      busy := busy + t.write.took;
      ok := true;
    }

    /** publishOnce, once connected. */
    method PublishOnce(ticks: seq<Tick>)
      requires Valid()
      modifies this, gen`kbps, gen`group, gen`index
      ensures Valid() && Value() == SessionFrom(gen.config, abr, Dialled(old(Value())), ticks)
    {
      hide Ticked, LADDER;
      open, busy, slow, fast := false, 0, 0, 0;
      ghost var p := Value();
      for i := 0 to |ticks|
        invariant Valid() && SessionFrom(gen.config, abr, p, ticks) == SessionFrom(gen.config, abr, Value(), ticks[i..])
      {
        assert ticks[i..][1..] == ticks[i + 1..];
        var ok := OnTick(ticks[i]);
        if !ok {
          return;
        }
      }
      assert ticks[|ticks|..] == [];
    }

    /** RunPublisher: a new session whenever one ends. */
    method RunPublisher(sessions: seq<seq<Tick>>)
      requires Valid()
      modifies this, gen`kbps, gen`group, gen`index
      ensures Valid() && Value() == RunAll(gen.config, abr, old(Value()), sessions)
    {
      hide SessionFrom, LADDER;
      ghost var p := Value();
      for i := 0 to |sessions|
        invariant Valid() && RunAll(gen.config, abr, p, sessions) == RunAll(gen.config, abr, Value(), sessions[i..])
      {
        assert sessions[i..][1..] == sessions[i + 1..];
        PublishOnce(sessions[i]);
      }
      assert sessions[|sessions|..] == [];
    }
  }
}
