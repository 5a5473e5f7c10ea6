/** The player against the origin: what it asks for is there, and when it keeps up with the live edge. */
module HlsLive {
  import opened Basics
  import opened HlsText
  import opened HlsOrigin
  import opened HlsParse
  import opened HlsPlayer
  import opened HlsTheorems

  // ---------- Requests ----------

  /** Every request in log after `base` was for an entry of the playlist, from a rendition of the master playlist. */
  predicate AsksOnly(log: Log, base: Log, entries: seq<Entry>, renditions: nat) {
    log == base
    || (!log.Empty? && (log.last.Asked? ==> log.last.rendition < renditions && log.last.entry in entries)
        && AsksOnly(log.prev, base, entries, renditions))
  }

  lemma DrainAsks(p: Player, now: int, base: Log, entries: seq<Entry>, renditions: nat)
    requires AsksOnly(p.log, base, entries, renditions)
    ensures AsksOnly(Drain(p, now).log, base, entries, renditions) && Drain(p, now).cur == p.cur
  {
    hide Millis;
    var one := Add(p.log, Played(Millis(now - p.lastTick)));
    assert AsksOnly(one, base, entries, renditions);
  }

  lemma VisitAsks(p: Player, refs: seq<Ref>, entry: Entry, reply: Reply, base: Log, entries: seq<Entry>)
    requires p.cur < |refs| && entry in entries && AsksOnly(p.log, base, entries, |refs|)
    ensures var q := Visit(p, refs, entry, reply).p; q.cur < |refs| && AsksOnly(q.log, base, entries, |refs|)
  {
    hide Drain, Choose, Sample, Estimate;
    var asked := p.(log := Add(p.log, Asked(p.cur, entry)));
    assert AsksOnly(asked.log, base, entries, |refs|);
    if reply.Got? {
      DrainAsks(asked, reply.to, base, entries, |refs|);
      var q := Drain(asked, reply.to);
      ChooseIsLastSafe(refs, Estimate(q.bw, Sample(reply)));
      var one := Add(q.log, Media(entry.no, reply.to, reply.created, reply.bytes, Sample(reply)));
      assert AsksOnly(one, base, entries, |refs|);
    }
  }

  lemma {:induction false} FetchAsks(p: Player, refs: seq<Ref>, entries: seq<Entry>, replies: seq<Reply>,
                                      all: seq<Entry>)
    requires |entries| == |replies| && p.cur < |refs| && forall e :: e in entries ==> e in all
    ensures var q := Fetch(p, refs, entries, replies).p; q.cur < |refs| && AsksOnly(q.log, p.log, all, |refs|)
  {
    assert AsksOnly(p.log, p.log, all, |refs|);
    hide Visit, AsksOnly;
    if entries != [] {
      var n := |entries| - 1;
      FetchAsks(p, refs, entries[..n], replies[..n], all);
      var o := Fetch(p, refs, entries[..n], replies[..n]);
      if o.Going? {
        VisitAsks(o.p, refs, entries[n], replies[n], p.log, all);
      }
    }
  }

  /** In any pass, also when the player moves to another rendition half way through the playlist, every request
      is for a listed segment of a rendition of the ladder. */
  lemma PassAsks(p: Player, refs: seq<Ref>, r: Round)
    requires WellFormed(r) && p.cur < |refs|
    ensures var q := Pass(p, refs, r).p;
            q.cur < |refs| && AsksOnly(q.log, p.log, if r.Listed? then r.pl.segments else [], |refs|)
  {
    hide Fetch, Drain;
    if r.Listed? {
      FetchAsks(Join(p, r.pl), refs, r.pl.segments, r.replies, r.pl.segments);
      var o := Fetch(Join(p, r.pl), refs, r.pl.segments, r.replies);
      DrainAsks(o.p, r.end, p.log, r.pl.segments, |refs|);
    }
  }

  /** What the player reads from the origin's playlist after n productions. */
  function Live(n: nat): Playlist { Playlist(Oldest(n, WINDOW), Entries(Oldest(n, WINDOW), n - Oldest(n, WINDOW))) }

  lemma LiveIsWhatIsPrinted(n: nat)
    requires 0 < n <= MAX_INT
    ensures var first := Oldest(n, WINDOW); ReadLines(Lines(Printed(MediaLines(first, n - first)))).pl == Live(n)
  {
    hide Lines, ReadLines, Printed, MediaLines;
    PlaylistRoundTrip(Oldest(n, WINDOW), n - Oldest(n, WINDOW));
  }

  /** A segment listed after the productions `times` is served, with the bytes of its rendition, to a player that
      asks up to six productions later. Together with PassAsks: no request of such a pass is answered not found. */
  lemma AskedIsServed(rnd: seq<byte>, times: seq<int>, later: seq<int>, rendition: nat, entry: Entry)
    requires Noise(rnd) && rendition < |RefsOf(LADDER)| && entry in Live(|times|).segments
    requires |later| <= RING - WINDOW && |times| <= MAX_INT
    ensures var found := Lookup(rnd, times + later, RefsOf(LADDER)[rendition].uri, entry.name);
            found.Some? && found.value.no == entry.no && |found.value.data| == 250 * RefsOf(LADDER)[rendition].kbps
  {
    hide Lookup, SegmentName, SegmentAt;
    var i :| 0 <= i < |Live(|times|).segments| && Live(|times|).segments[i] == entry;
    ListedStaysServed(rnd, times, later, i, LADDER[rendition]);
  }

  // ---------- Keeping up ----------

  /** A pass whose playlist the origin printed after n productions. */
  datatype View = View(n: nat, replies: seq<Reply>, end: int)

  predicate Fits(v: View) { |v.replies| == |Live(v.n).segments| }

  function RoundOf(v: View): (r: Round)
    requires Fits(v)
    ensures WellFormed(r)
  {
    Listed(Live(v.n), v.replies, v.end)
  }

  function Rounds(views: seq<View>): (rs: seq<Round>)
    requires forall v :: v in views ==> Fits(v)
    ensures |rs| == |views| && forall r :: r in rs ==> WellFormed(r)
  {
    if views == [] then [] else [RoundOf(views[0])] + Rounds(views[1..])
  }

  /** Productions only add segments. */
  predicate Grows(n: nat, views: seq<View>)
    decreases |views|
  {
    views == [] || (n <= views[0].n && Grows(views[0].n, views[1..]))
  }

  /** At most six productions between one playlist and the next. */
  predicate OnTime(n: nat, views: seq<View>)
    decreases |views|
  {
    views == [] || (views[0].n <= n + 6 && OnTime(views[0].n, views[1..]))
  }

  function LastEdge(n: nat, views: seq<View>): nat {
    if views == [] then n else views[|views| - 1].n
  }

  lemma LiveIsConsecutive(n: nat)
    ensures Consecutive(Live(n).segments, Live(n).firstSeq) && Live(n).firstSeq + |Live(n).segments| == n
    ensures Live(n).firstSeq == Oldest(n, WINDOW)
  {
    hide SegmentName;
  }

  lemma {:induction false} LastGrows(n: nat, views: seq<View>)
    requires Grows(n, views)
    ensures n <= LastEdge(n, views)
    decreases |views|
  {
    if views != [] {
      LastGrows(views[0].n, views[1..]);
    }
  }

  /** A player that waits for a segment the window has passed never fetches anything again. */
  lemma {:induction false} BehindForEver(p: Player, refs: seq<Ref>, n: nat, views: seq<View>)
    requires forall v :: v in views ==> Fits(v)
    requires 0 <= p.nextSeq < Oldest(n, WINDOW) && Grows(n, views)
    ensures var q := Run(p, refs, Rounds(views)).p; q.nextSeq == p.nextSeq && Fetched(q.log) == Fetched(p.log)
    decreases |views|
  {
    hide Pass, Fetched, Live, Consecutive;
    if views != [] {
      var v := views[0];
      LiveIsConsecutive(v.n);
      NothingToFetch(p, refs, RoundOf(v));
      var o := Pass(p, refs, RoundOf(v));
      assert Rounds(views)[1..] == Rounds(views[1..]);
      if o.Going? {
        BehindForEver(o.p, refs, v.n, views[1..]);
      }
    }
  }

  lemma NothingToFetch(p: Player, refs: seq<Ref>, r: Round)
    requires WellFormed(r) && r.Listed? && Consecutive(r.pl.segments, r.pl.firstSeq)
    requires 0 <= p.nextSeq < r.pl.firstSeq
    ensures var q := Pass(p, refs, r).p; q.nextSeq == p.nextSeq && Fetched(q.log) == Fetched(p.log)
  {
    hide Fetch, Drain, Fetched;
    FetchNothing(p, refs, r.pl.segments, r.replies);
    DrainKeeps(p, r.end);
  }

  lemma {:induction false} FetchNothing(p: Player, refs: seq<Ref>, entries: seq<Entry>, replies: seq<Reply>)
    requires |entries| == |replies| && forall i :: 0 <= i < |entries| ==> entries[i].no != p.nextSeq
    ensures Fetch(p, refs, entries, replies) == Going(p)
  {
    if entries != [] {
      FetchNothing(p, refs, entries[..|entries| - 1], replies[..|entries| - 1]);
    }
  }

  /** A player at the live edge n whose later passes all succeed ends at the last live edge, having fetched every
      segment in between, if and only if no two consecutive playlists of its were more than six productions
      apart. */
  lemma {:induction false} KeepsUpIff(p: Player, refs: seq<Ref>, n: nat, views: seq<View>)
    requires forall v :: v in views ==> Fits(v)
    requires p.nextSeq == n && Grows(n, views) && Run(p, refs, Rounds(views)).Going?
    ensures var q := Run(p, refs, Rounds(views)).p;
            && (q.nextSeq == LastEdge(n, views) <==> OnTime(n, views))
            && n <= q.nextSeq && Fetched(q.log) == Fetched(p.log) + Range(n, q.nextSeq)
    decreases |views|
  {
    hide Pass, Fetched, Live, Consecutive;
    RunFetches(p, refs, Rounds(views));
    if views != [] {
      var v := views[0];
      LiveIsConsecutive(v.n);
      PassFetches(p, refs, RoundOf(v));
      var o := Pass(p, refs, RoundOf(v));
      assert Rounds(views)[1..] == Rounds(views[1..]);
      LastGrows(v.n, views[1..]);
      if v.n <= n + WINDOW {
        KeepsUpIff(o.p, refs, v.n, views[1..]);
      } else {
        BehindForEver(o.p, refs, v.n, views[1..]);
      }
    }
  }

  /** A new player joins at most two segments behind the live edge, and then keeps up under that same condition. */
  lemma JoinsAndKeepsUp(now: int, refs: seq<Ref>, views: seq<View>)
    requires forall v :: v in views ==> Fits(v)
    requires views != [] && Grows(views[0].n, views) && Run(NewPlayer(now), refs, Rounds(views)).Going?
    ensures var q := Run(NewPlayer(now), refs, Rounds(views)).p;
            var n := views[0].n;
            var from := if n < 2 then 0 else n - 2;
            && from <= q.nextSeq && Fetched(q.log) == Range(from, q.nextSeq)
            && (q.nextSeq == LastEdge(n, views[1..]) <==> OnTime(n, views[1..]))
  {
    hide Pass, Fetched, Live, Consecutive, OnTime, LastEdge, RoundOf, Oldest;
    var p, v := NewPlayer(now), views[0];
    var from: int := if v.n < 2 then 0 else v.n - 2;
    var o := Pass(p, refs, RoundOf(v));
    assert Rounds(views)[1..] == Rounds(views[1..]);
    FirstPass(now, refs, v);
    KeepsUpIff(o.p, refs, v.n, views[1..]);
    RangesJoin(from, v.n, Run(p, refs, Rounds(views)).p.nextSeq);
  }

  lemma RangesJoin(a: int, b: int, c: int)
    requires a <= b <= c
    ensures Range(a, b) + Range(b, c) == Range(a, c)
  {
  }

  /** A new player's first pass, if it succeeds, ends at the live edge. */
  lemma FirstPass(now: int, refs: seq<Ref>, v: View)
    requires Fits(v)
    ensures var o := Pass(NewPlayer(now), refs, RoundOf(v));
            var from := if v.n < 2 then 0 else v.n - 2;
            o.Going? ==> o.p.nextSeq == v.n && Fetched(o.p.log) == Range(from, v.n)
  {
    var p := NewPlayer(now);
    assert Fetched(p.log) == [];
    hide Pass, Fetched, Live, Consecutive;
    LiveIsConsecutive(v.n);
    PassFetches(p, refs, RoundOf(v));
  }
}
