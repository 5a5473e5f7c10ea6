/** internal/hlspath/client.go:40-133: the simulated player. A session is a run of passes; each pass fetches the
    playlist, downloads the segments it is waiting for in order, and lets its buffer play in real time. */
module HlsPlayer {
  import opened Basics
  import opened HlsOrigin
  import opened HlsParse

  const SEGMENT_MS: int := SEGMENT_SECONDS * 1000
  const STARTUP_MS: int := 2 * SEGMENT_MS

  /** What the player did, in order: its requests, and its calls to the recorder. Played is the playing time that
      one call to drain subtracts from the buffer. */
  datatype Event =
    | Asked(rendition: nat, entry: Entry)
    | Played(ms: int)
    | Stalled(now: int, ms: int)
    | Media(no: int, now: int, created: int, bytes: nat, sample: Option<real>)
    | Startup(now: int)

  datatype Log = Empty | Add(prev: Log, last: Event)

  /** RunSession's variables; times are in nanoseconds, the buffer in milliseconds. */
  datatype Player = Player(cur: nat, bw: real, buffer: int, started: bool, lastTick: int, nextSeq: int, log: Log)

  function NewPlayer(now: int): Player { Player(0, 0.0, 0, false, now, -1, Empty) }

  /** Duration.Milliseconds. */
  function Millis(d: int): int { Quotient(d, 1_000_000) }

  function Drain(p: Player, now: int): Player {
    if !p.started then p.(lastTick := now)
    else
      var ms := Millis(now - p.lastTick);
      var log := Add(p.log, Played(ms));
      if p.buffer - ms < 0 then p.(buffer := 0, lastTick := now, log := Add(log, Stalled(now, ms - p.buffer)))
      else p.(buffer := p.buffer - ms, lastTick := now, log := log)
  }

  /** A download: its size, when the segment was created, and when the download began and ended. */
  datatype Reply = Failed | Got(bytes: nat, created: int, from: int, to: int)

  /** The throughput of a download in kbps, unless it took no time. */
  function Sample(r: Reply): Option<real>
    requires r.Got?
  {
    var dl := (r.to - r.from) as real / 1_000_000_000.0;
    if dl > 0.0 then Some(r.bytes as real * 8.0 / 1000.0 / dl) else None
  }

  function Estimate(bw: real, sample: Option<real>): real {
    if sample.None? then bw
    else if bw == 0.0 then sample.value
    else 0.7 * bw + 0.3 * sample.value
  }

  predicate Safe(r: Ref, bw: real) { r.kbps as real < 0.8 * bw }

  /** The last rendition safely below the estimate, or the first. */
  function Choose(refs: seq<Ref>, bw: real): nat {
    if refs == [] then 0
    else if Safe(refs[|refs| - 1], bw) then |refs| - 1
    else Choose(refs[..|refs| - 1], bw)
  }

  lemma {:induction false} ChooseIsLastSafe(refs: seq<Ref>, bw: real)
    ensures var c := Choose(refs, bw);
            && (forall i :: c < i < |refs| ==> !Safe(refs[i], bw))
            && (refs != [] ==> c < |refs| && (Safe(refs[c], bw) || c == 0))
  {
    if refs != [] && !Safe(refs[|refs| - 1], bw) {
      ChooseIsLastSafe(refs[..|refs| - 1], bw);
    }
  }

  datatype Outcome = Going(p: Player) | Stopped(p: Player)

  /** A successful download of the awaited segment. */
  function Accept(p: Player, refs: seq<Ref>, no: int, reply: Reply): Player
    requires reply.Got?
  {
    var q := Drain(p, reply.to);
    var bw := Estimate(q.bw, Sample(reply));
    var log := Add(q.log, Media(no, reply.to, reply.created, reply.bytes, Sample(reply)));
    var begins := !q.started && q.buffer + SEGMENT_MS >= STARTUP_MS;
    q.(bw := bw, buffer := q.buffer + SEGMENT_MS, nextSeq := q.nextSeq + 1, cur := Choose(refs, bw),
       started := q.started || begins, lastTick := reply.to,
       log := if begins then Add(log, Startup(reply.to)) else log)
  }

  function Visit(p: Player, refs: seq<Ref>, entry: Entry, reply: Reply): Outcome {
    if entry.no != p.nextSeq then Going(p)
    else
      var asked := p.(log := Add(p.log, Asked(p.cur, entry)));
      if reply.Failed? then Stopped(asked) else Going(Accept(asked, refs, entry.no, reply))
  }

  /** The loop over the playlist; replies[i] is what a request for entry i would be answered. */
  function Fetch(p: Player, refs: seq<Ref>, entries: seq<Entry>, replies: seq<Reply>): Outcome
    requires |entries| == |replies|
  {
    if entries == [] then Going(p)
    else
      var n := |entries| - 1;
      var o := Fetch(p, refs, entries[..n], replies[..n]);
      if o.Stopped? then o else Visit(o.p, refs, entries[n], replies[n])
  }

  /** A new player joins two segments behind the live edge. */
  function Join(p: Player, pl: Playlist): Player {
    if p.nextSeq >= 0 then p
    else
      var edge := pl.firstSeq + |pl.segments| - 2;
      p.(nextSeq := if edge < pl.firstSeq then pl.firstSeq else edge)
  }

  /** What a pass meets: no playlist, or a playlist, the replies to its requests, and the time at its end. */
  datatype Round = Unlisted | Listed(pl: Playlist, replies: seq<Reply>, end: int)

  predicate WellFormed(r: Round) { r.Listed? ==> |r.replies| == |r.pl.segments| }

  function Pass(p: Player, refs: seq<Ref>, r: Round): Outcome
    requires WellFormed(r)
  {
    if r.Unlisted? then Stopped(p)
    else
      var o := Fetch(Join(p, r.pl), refs, r.pl.segments, r.replies);
      if o.Stopped? then o else Going(Drain(o.p, r.end))
  }

  function Run(p: Player, refs: seq<Ref>, rounds: seq<Round>): Outcome
    requires forall r :: r in rounds ==> WellFormed(r)
    decreases |rounds|
  {
    if rounds == [] then Going(p)
    else
      var o := Pass(p, refs, rounds[0]);
      if o.Stopped? then o else Run(o.p, refs, rounds[1..])
  }

  // ---------- The session itself ----------

  class Session {
    var cur: nat
    var bw: real
    var buffer: int
    var started: bool
    var lastTick: int
    var nextSeq: int
    var log: Log

    constructor (now: int)
      ensures Value() == NewPlayer(now)
    {
      cur, bw, buffer, started, lastTick, nextSeq, log := 0, 0.0, 0, false, now, -1, Empty;
    }

    function Value(): Player
      reads this
    {
      Player(cur, bw, buffer, started, lastTick, nextSeq, log)
    }

    method DrainTo(now: int)
      modifies this
      ensures Value() == Drain(old(Value()), now)
    {
      if started {
        var ms := Millis(now - lastTick);
        buffer := buffer - ms;
        log := Add(log, Played(ms));
        if buffer < 0 {
          log := Add(log, Stalled(now, -buffer));
          buffer := 0;
        }
      }
      lastTick := now;
    }

    method Download(refs: seq<Ref>, entry: Entry, reply: Reply) returns (ok: bool)
      requires entry.no == nextSeq
      modifies this
      ensures (if ok then Going(Value()) else Stopped(Value())) == Visit(old(Value()), refs, entry, reply)
    {
      log := Add(log, Asked(cur, entry));
      if reply.Failed? {
        return false;
      }
      DrainTo(reply.to);
      var sample := Sample(reply);
      if sample.Some? {
        bw := if bw == 0.0 then sample.value else 0.7 * bw + 0.3 * sample.value;
      }
      log := Add(log, Media(entry.no, reply.to, reply.created, reply.bytes, sample));
      buffer := buffer + SEGMENT_MS;
      if !started && buffer >= STARTUP_MS {
        started := true;
        log := Add(log, Startup(reply.to));
        lastTick := reply.to;
      }
      nextSeq := nextSeq + 1;
      cur := Best(refs, bw);
      ok := true;
    }

    method OnePass(refs: seq<Ref>, r: Round) returns (ok: bool)
      requires WellFormed(r)
      modifies this
      ensures (if ok then Going(Value()) else Stopped(Value())) == Pass(old(Value()), refs, r)
    {
      hide Visit, Drain;
      if r.Unlisted? {
        return false;
      }
      var segments := r.pl.segments;
      if nextSeq < 0 {
        nextSeq := r.pl.firstSeq + |segments| - 2;
        if nextSeq < r.pl.firstSeq {
          nextSeq := r.pl.firstSeq;
        }
      }
      ghost var joined := Value();
      assert joined == Join(old(Value()), r.pl);
      for i := 0 to |segments|
        invariant Going(Value()) == Fetch(joined, refs, segments[..i], r.replies[..i])
      {
        FetchMore(joined, refs, segments, r.replies, i);
        if segments[i].no == nextSeq {
          ok := Download(refs, segments[i], r.replies[i]);
          if !ok {
            FetchStops(joined, refs, segments, r.replies, i + 1);
            return false;
          }
        } else {
          NotAwaited(Value(), refs, segments[i], r.replies[i]);
        }
      }
      assert segments[..|segments|] == segments && r.replies[..|segments|] == r.replies;
      DrainTo(r.end);
      ok := true;
    }

    method RunSession(refs: seq<Ref>, rounds: seq<Round>) returns (ok: bool)
      requires forall r :: r in rounds ==> WellFormed(r)
      modifies this
      ensures (if ok then Going(Value()) else Stopped(Value())) == Run(old(Value()), refs, rounds)
    {
      hide Pass;
      ok := true;
      for i := 0 to |rounds|
        invariant Run(old(Value()), refs, rounds) == Run(Value(), refs, rounds[i..])
        invariant ok
      {
        assert rounds[i..][1..] == rounds[i + 1..];
        ok := OnePass(refs, rounds[i]);
        if !ok {
          return;
        }
      }
      assert rounds[|rounds|..] == [];
    }
  }

  method Best(refs: seq<Ref>, bw: real) returns (next: nat)
    ensures next == Choose(refs, bw)
  {
    next := 0;
    for i := 0 to |refs|
      invariant next == Choose(refs[..i], bw)
    {
      assert refs[..i + 1][..i] == refs[..i];
      if refs[i].kbps as real < 0.8 * bw {
        next := i;
      }
    }
    assert refs[..|refs|] == refs;
  }

  lemma NotAwaited(p: Player, refs: seq<Ref>, entry: Entry, reply: Reply)
    requires entry.no != p.nextSeq
    ensures Visit(p, refs, entry, reply) == Going(p)
  {
  }

  lemma FetchMore(p: Player, refs: seq<Ref>, entries: seq<Entry>, replies: seq<Reply>, i: nat)
    requires |entries| == |replies| && i < |entries|
    ensures var o := Fetch(p, refs, entries[..i], replies[..i]);
            Fetch(p, refs, entries[..i + 1], replies[..i + 1])
            == if o.Stopped? then o else Visit(o.p, refs, entries[i], replies[i])
  {
    hide Visit;
    assert entries[..i + 1][..i] == entries[..i] && replies[..i + 1][..i] == replies[..i];
  }

  lemma {:induction false} FetchStops(p: Player, refs: seq<Ref>, entries: seq<Entry>, replies: seq<Reply>, i: nat)
    requires |entries| == |replies| && i <= |entries|
    requires Fetch(p, refs, entries[..i], replies[..i]).Stopped?
    ensures Fetch(p, refs, entries, replies) == Fetch(p, refs, entries[..i], replies[..i])
    decreases |entries| - i
  {
    if i == |entries| {
      assert entries[..i] == entries && replies[..i] == replies;
    } else {
      FetchMore(p, refs, entries, replies, i);
      FetchStops(p, refs, entries, replies, i + 1);
    }
  }
}
