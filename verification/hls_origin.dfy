/** internal/hlspath/origin.go: the live origin. Every two seconds it adds one segment to the ring of each
    rendition; a ring keeps twelve segments and a playlist lists its last six. */
module HlsOrigin {
  import opened Basics
  import opened HlsText

  const SEGMENT_SECONDS: nat := 2
  const WINDOW: nat := 6
  const RING: nat := 12
  const NOISE: nat := 8 * 0x10_0000

  datatype Rendition = Rendition(name: string, kbps: nat)

  const LADDER: seq<Rendition> := [Rendition("v0", 600), Rendition("v1", 1500), Rendition("v2", 3000)]

  datatype Segment = Segment(no: nat, created: int, data: seq<byte>)

  function Size(r: Rendition): nat { r.kbps * 1000 / 8 * SEGMENT_SECONDS }

  function Find(ladder: seq<Rendition>, name: string): (r: Option<Rendition>)
    ensures r.Some? ==> r.value in ladder && r.value.name == name
    ensures r.None? ==> forall q :: q in ladder ==> q.name != name
  {
    if ladder == [] then None
    else if ladder[0].name == name then Some(ladder[0])
    else Find(ladder[1..], name)
  }

  lemma LadderNames(i: nat, j: nat)
    requires i < |LADDER| && j < |LADDER| && LADDER[i].name == LADDER[j].name
    ensures i == j
  {
    assert LADDER[0].name[1] == '0' && LADDER[1].name[1] == '1' && LADDER[2].name[1] == '2';
  }

  lemma FindInLadder(i: nat)
    requires i < |LADDER|
    ensures Find(LADDER, LADDER[i].name) == Some(LADDER[i])
  {
    var r := Find(LADDER, LADDER[i].name);
    assert LADDER[i] in LADDER;
    var j :| 0 <= j < |LADDER| && LADDER[j] == r.value;
    LadderNames(i, j);
  }

  // ---------- The rings, as a function of when each segment was produced ----------

  predicate Noise(rnd: seq<byte>) { |rnd| == NOISE }

  /** Segment no of rendition r: a slice of the noise. */
  function SegmentAt(rnd: seq<byte>, r: Rendition, no: nat, created: int): (s: Segment)
    requires Noise(rnd) && r in LADDER
    ensures s.no == no && s.created == created && |s.data| == 250 * r.kbps
  {
    var off := (no * 40961) % (NOISE - Size(r));
    Segment(no, created, rnd[off..off + Size(r)])
  }

  /** Its bytes are those of the noise from 40961 times its number on, wrapped so that they fit. */
  lemma SegmentIsSlice(rnd: seq<byte>, r: Rendition, no: nat, created: int) returns (off: nat, turns: nat)
    requires Noise(rnd) && r in LADDER
    ensures var n := 250 * r.kbps;
            off + n <= 0x80_0000 && SegmentAt(rnd, r, no, created).data == rnd[off..off + n]
            && 40961 * no == off + turns * (0x80_0000 - n)
  {
    SegmentSize(r);
    hide LADDER, Size;
    var x, m := 40961 * no, 0x80_0000 - 250 * r.kbps;
    off, turns := x % m, x / m;
    Turns(x, m);
    assert no * 40961 == x;
  }

  lemma SegmentSize(r: Rendition)
    requires r in LADDER
    ensures Size(r) == 250 * r.kbps < 0x80_0000
  {
  }

  lemma Turns(x: nat, m: nat)
    requires m > 0
    ensures x == x % m + (x / m) * m && x / m >= 0
  {
  }

  /** The oldest segment a ring of the given capacity still holds after n productions. */
  function Oldest(n: nat, capacity: nat): nat { if n <= capacity then 0 else n - capacity }

  /** The last `capacity` segments of r, when times[i] is when segment i was produced. */
  function Tail(rnd: seq<byte>, r: Rendition, times: seq<int>, capacity: nat): (t: seq<Segment>)
    requires Noise(rnd) && r in LADDER
    ensures |t| == |times| - Oldest(|times|, capacity)
    ensures forall i :: 0 <= i < |t| ==>
              var no := Oldest(|times|, capacity) + i;
              t[i] == SegmentAt(rnd, r, no, times[no])
  {
    var first := Oldest(|times|, capacity);
    seq(|times| - first, i requires 0 <= i < |times| - first => SegmentAt(rnd, r, first + i, times[first + i]))
  }

  /** Appending to a ring and dropping what no longer fits. */
  function Pushed(ring: seq<Segment>, s: Segment): seq<Segment> {
    var longer := ring + [s];
    if |longer| > RING then longer[|longer| - RING..] else longer
  }

  lemma PushedTail(rnd: seq<byte>, r: Rendition, times: seq<int>, now: int)
    requires Noise(rnd) && r in LADDER
    ensures Pushed(Tail(rnd, r, times, RING), SegmentAt(rnd, r, |times|, now)) == Tail(rnd, r, times + [now], RING)
  {
    hide SegmentAt;
    var a := Pushed(Tail(rnd, r, times, RING), SegmentAt(rnd, r, |times|, now));
    var b := Tail(rnd, r, times + [now], RING);
    assert |a| == |b|;
    forall i | 0 <= i < |a| ensures a[i] == b[i] {
      var k := Oldest(|times| + 1, RING) + i;
      assert b[i] == SegmentAt(rnd, r, k, (times + [now])[k]);
    }
  }

  lemma WindowOfRing(rnd: seq<byte>, r: Rendition, times: seq<int>)
    requires Noise(rnd) && r in LADDER
    ensures var ring := Tail(rnd, r, times, RING);
            Tail(rnd, r, times, WINDOW) == if |ring| > WINDOW then ring[|ring| - WINDOW..] else ring
  {
    hide SegmentAt;
  }

  // ---------- Playlists ----------

  const MEDIA_SEQUENCE := "#EXT-X-MEDIA-SEQUENCE:"

  function SegmentName(no: nat): string { "seg" + Itoa(no) + ".ts" }

  /** The lines of the media playlist listing segments first..first+k. */
  function MediaLines(first: nat, k: nat): seq<string> {
    (if k > 0 then MediaHead(first) else MediaHead(first)[..3]) + Listed(first, k)
  }

  function MediaHead(first: nat): (h: seq<string>)
    ensures |h| == 4
  {
    ["#EXTM3U", "#EXT-X-VERSION:3", "#EXT-X-TARGETDURATION:" + Itoa(SEGMENT_SECONDS), MEDIA_SEQUENCE + Itoa(first)]
  }

  function Listed(first: nat, k: nat): seq<string> {
    if k == 0 then []
    else Listed(first, k - 1) + ["#EXTINF:" + Itoa(SEGMENT_SECONDS) + ".0,", SegmentName(first + k - 1)]
  }

  /** The lines of the master playlist. */
  function MasterLines(ladder: seq<Rendition>): seq<string> {
    if ladder == [] then ["#EXTM3U"]
    else
      var r := ladder[|ladder| - 1];
      MasterLines(ladder[..|ladder| - 1]) + [InfoLine(r), UriLine(r)]
  }

  function InfoLine(r: Rendition): string { STREAM_INF + BANDWIDTH + Itoa(r.kbps * 1000) }

  function UriLine(r: Rendition): string { r.name + LIVE }

  const STREAM_INF := "#EXT-X-STREAM-INF:"
  const BANDWIDTH := "BANDWIDTH="
  const LIVE := "/live.m3u8"

  /** The text of a media playlist, in the syntax of section 4.3 of RFC 8216: a head with the first segment's number,
      and two lines a segment. */
  lemma PlaylistText(first: nat, k: nat)
    requires k > 0
    ensures Printed(MediaLines(first, 1))
            == "#EXTM3U\n#EXT-X-VERSION:3\n" + "#EXT-X-TARGETDURATION:2" + "\n"
               + ("#EXT-X-MEDIA-SEQUENCE:" + Itoa(first)) + "\n" + "#EXTINF:2.0," + "\n"
               + ("seg" + Itoa(first) + ".ts") + "\n"
    ensures Printed(MediaLines(first, k + 1))
            == Printed(MediaLines(first, k)) + "#EXTINF:2.0," + "\n" + ("seg" + Itoa(first + k) + ".ts") + "\n"
  {
    TwoSeconds();
    PrintedHead(first);
    assert Listed(first, 0) == [] && MediaHead(first) + [] == MediaHead(first);
    ListedMore(first, 0);
    ListedMore(first, k);
    hide Itoa, Printed, Listed, MediaHead;
    Printed2(MediaHead(first), "#EXTINF:2.0,", SegmentName(first));
    Printed2(MediaLines(first, k), "#EXTINF:2.0,", SegmentName(first + k));
  }

  lemma TwoSeconds()
    ensures Itoa(SEGMENT_SECONDS) == "2" && "#EXTINF:" + Itoa(SEGMENT_SECONDS) + ".0," == "#EXTINF:2.0,"
    ensures "#EXT-X-TARGETDURATION:" + Itoa(SEGMENT_SECONDS) == "#EXT-X-TARGETDURATION:2"
  {
  }

  lemma ListedMore(first: nat, k: nat)
    ensures Listed(first, k + 1)
            == Listed(first, k) + ["#EXTINF:" + Itoa(SEGMENT_SECONDS) + ".0,", SegmentName(first + k)]
    ensures var more := ["#EXTINF:" + Itoa(SEGMENT_SECONDS) + ".0,", SegmentName(first + k)];
            MediaLines(first, k + 1)
            == (if k > 0 then MediaLines(first, k) else MediaHead(first) + Listed(first, 0)) + more
  {
    hide Itoa, SegmentName, MediaHead;
  }

  /** The text of a master playlist: two lines a rendition, with its bandwidth in bits a second. */
  lemma MasterText(ladder: seq<Rendition>, r: Rendition)
    ensures Printed(MasterLines([])) == "#EXTM3U\n"
    ensures Printed(MasterLines(ladder + [r]))
            == Printed(MasterLines(ladder)) + ("#EXT-X-STREAM-INF:BANDWIDTH=" + Itoa(1000 * r.kbps)) + "\n"
               + (r.name + "/live.m3u8") + "\n"
  {
    PrintedFirst();
    hide Itoa, Printed;
    assert (ladder + [r])[..|ladder|] == ladder;
    assert STREAM_INF + BANDWIDTH == "#EXT-X-STREAM-INF:BANDWIDTH=";
    assert r.kbps * 1000 == 1000 * r.kbps;
    Printed2(MasterLines(ladder), InfoLine(r), UriLine(r));
  }

  // ---------- Segment lookup ----------

  function TrimSuffix(s: string, t: string): string { if HasSuffix(s, t) then s[..|s| - |t|] else s }

  /** The number in a segment's name, if it is one. */
  function NumberIn(name: string): Option<int> {
    if !("seg" <= name) || !HasSuffix(name, ".ts") then None
    else
      var p := Atoi(TrimSuffix(name[3..], ".ts"));
      if p.ok then Some(p.value) else None
  }

  /** A name is a segment's if and only if a number stands between its prefix and its suffix. */
  lemma NumberInIff(name: string, no: int)
    ensures NumberIn(name) == Some(no)
            <==> exists mid: string :: name == "seg" + mid + ".ts" && Atoi(mid) == Parsed(no, true)
  {
    hide Atoi;
    if NumberIn(name) == Some(no) {
      var rest := name[3..];
      assert name == "seg" + rest;
      assert |rest| >= 3 by {
        var s := name[|name| - 3..];
        assert s == ".ts" && s[0] == name[|name| - 3] && name[0] == 's' && name[1] == 'e' && name[2] == 'g';
      }
      var mid := rest[..|rest| - 3];
      assert rest[|rest| - 3..] == name[|name| - 3..];
      assert rest == mid + ".ts" && TrimSuffix(rest, ".ts") == mid;
      assert name == "seg" + mid + ".ts";
    }
    forall mid: string | name == "seg" + mid + ".ts" && Atoi(mid) == Parsed(no, true)
      ensures NumberIn(name) == Some(no)
    {
      NumberBetween(mid, no);
    }
  }

  lemma NumberBetween(mid: string, no: int)
    requires Atoi(mid) == Parsed(no, true)
    ensures NumberIn("seg" + mid + ".ts") == Some(no)
  {
    hide Atoi;
    var name := "seg" + mid + ".ts";
    assert name == "seg" + (mid + ".ts") && name[3..] == mid + ".ts";
    assert HasSuffix(name, ".ts") && HasSuffix(mid + ".ts", ".ts");
    assert TrimSuffix(mid + ".ts", ".ts") == mid;
  }

  lemma NumberInName(no: nat)
    requires no <= MAX_INT
    ensures NumberIn(SegmentName(no)) == Some(no)
  {
    hide Itoa, Atoi;
    AtoiOfItoa(no);
    NumberBetween(Itoa(no), no);
  }

  /** What a request for a segment is answered with, after productions at the given times. */
  function Lookup(rnd: seq<byte>, times: seq<int>, rendition: string, name: string): Option<Segment>
    requires Noise(rnd)
  {
    var r := Find(LADDER, rendition);
    var no := NumberIn(name);
    if r.None? || no.None? || !(Oldest(|times|, RING) <= no.value < |times|) then None
    else Some(SegmentAt(rnd, r.value, no.value, times[no.value]))
  }

  /** A segment is served exactly while at most eleven newer ones exist, on every rendition alike. */
  lemma ServedIff(rnd: seq<byte>, times: seq<int>, rendition: string, no: nat)
    requires Noise(rnd) && no <= MAX_INT
    ensures Lookup(rnd, times, rendition, SegmentName(no)).Some?
            <==> Find(LADDER, rendition).Some? && no < |times| <= no + 12
  {
    hide Itoa, SegmentName, NumberIn, SegmentAt;
    NumberInName(no);
  }

  /** A segment listed in a playlist is still served, unchanged and with the same creation time, after `later`
      further productions on any rendition, if and only if it is less than RING old then; so every listed
      segment survives six further productions, also when the player has moved to another rendition. */
  lemma ListedStaysServed(rnd: seq<byte>, times: seq<int>, later: seq<int>, i: nat, r: Rendition)
    requires Noise(rnd) && r in LADDER && |times| <= MAX_INT
    requires i < |times| - Oldest(|times|, WINDOW)
    ensures var no := Oldest(|times|, WINDOW) + i;
            && (Lookup(rnd, times + later, r.name, SegmentName(no)).Some? <==> |times| + |later| <= no + 12)
            && (|later| <= 6
                ==> Lookup(rnd, times + later, r.name, SegmentName(no)) == Some(SegmentAt(rnd, r, no, times[no])))
  {
    hide Itoa, SegmentName, NumberIn, SegmentAt;
    var no := Oldest(|times|, WINDOW) + i;
    var k :| 0 <= k < |LADDER| && LADDER[k] == r;
    FindInLadder(k);
    NumberInName(no);
    ServedIff(rnd, times + later, r.name, no);
  }

  // ---------- The origin ----------

  function RingOf(segs: map<string, seq<Segment>>, name: string): seq<Segment> {
    if name in segs then segs[name] else []
  }

  /** The rings of the ladder's renditions, in order, are `want`, and there are no others. */
  ghost predicate Holds(segs: map<string, seq<Segment>>, want: seq<seq<Segment>>) {
    && (forall name :: name in segs ==> Find(LADDER, name).Some?)
    && |want| == |LADDER| && forall i :: 0 <= i < |LADDER| ==> RingOf(segs, LADDER[i].name) == want[i]
  }

  lemma HoldsAfter(segs: map<string, seq<Segment>>, want: seq<seq<Segment>>, i: nat, ring: seq<Segment>)
    requires Holds(segs, want) && i < |LADDER|
    ensures |want| == |LADDER| && RingOf(segs, LADDER[i].name) == want[i]
    ensures Holds(segs[LADDER[i].name := ring], want[i := ring])
  {
    hide Find;
    FindInLadder(i);
    forall j | 0 <= j < |LADDER| && j != i ensures LADDER[j].name != LADDER[i].name {
      if LADDER[j].name == LADDER[i].name { LadderNames(i, j); }
    }
  }

  lemma NoSuchRing(segs: map<string, seq<Segment>>, want: seq<seq<Segment>>, name: string)
    requires Holds(segs, want) && Find(LADDER, name).None?
    ensures RingOf(segs, name) == []
  {
  }

  lemma SuchRing(segs: map<string, seq<Segment>>, rnd: seq<byte>, times: seq<int>, name: string)
    requires Noise(rnd) && Holds(segs, Rings(rnd, times)) && Find(LADDER, name).Some?
    ensures RingOf(segs, name) == Tail(rnd, Find(LADDER, name).value, times, RING)
  {
    hide Tail, Find;
    var i :| 0 <= i < |LADDER| && LADDER[i] == Find(LADDER, name).value;
    assert RingOf(segs, LADDER[i].name) == Rings(rnd, times)[i];
  }

  /** All rings, after productions at the given times. */
  ghost function Rings(rnd: seq<byte>, times: seq<int>): seq<seq<Segment>>
    requires Noise(rnd)
  {
    seq(|LADDER|, i requires 0 <= i < |LADDER| => Tail(rnd, LADDER[i], times, RING))
  }

  class Origin {
    const rnd: seq<byte>
    var segs: map<string, seq<Segment>>
    var next: nat
    /** When each segment was produced. */
    ghost var times: seq<int>

    /** All rings hold the same consecutive segments, the last twelve. */
    ghost predicate Valid()
      reads this
    {
      Noise(rnd) && next == |times| && Holds(segs, Rings(rnd, times))
    }

    constructor (noise: seq<byte>, now: int)
      requires Noise(noise)
      ensures Valid() && rnd == noise && times == [now]
    {
      rnd := noise;
      segs := map[];
      next := 0;
      times := [];
      new;
      Produce(now);
    }

    /** The body of produce's loop, for one rendition. */
    method Append(r: Rendition, now: int)
      requires Noise(rnd) && r in LADDER
      modifies this`segs
      ensures segs == old(segs)[r.name := Pushed(RingOf(old(segs), r.name), SegmentAt(rnd, r, next, now))]
    {
      var size := r.kbps * 1000 / 8 * SEGMENT_SECONDS;
      var off := (next * 40961) % (|rnd| - size);
      var ring := RingOf(segs, r.name) + [Segment(next, now, rnd[off..off + size])];
      if |ring| > RING {
        ring := ring[|ring| - RING..];
      }
      segs := segs[r.name := ring];
    }

    method Produce(now: int)
      requires Valid()
      modifies this
      ensures Valid() && times == old(times) + [now]
    {
      hide SegmentAt, Tail, Find, Pushed, Holds;
      ghost var full := times + [now];
      ghost var want := Rings(rnd, times);
      for i := 0 to |LADDER|
        invariant next == old(next) && times == old(times)
        invariant Holds(segs, want) && |want| == |LADDER|
        invariant forall j :: 0 <= j < |LADDER| ==>
                    want[j] == Tail(rnd, LADDER[j], if j < i then full else old(times), RING)
      {
        ghost var before := segs;
        PushedTail(rnd, LADDER[i], times, now);
        Append(LADDER[i], now);
        HoldsAfter(before, want, i, segs[LADDER[i].name]);
        want := want[i := segs[LADDER[i].name]];
      }
      assert want == Rings(rnd, full);
      next := next + 1;
      times := full;
    }

    /** GET /hls/master.m3u8. */
    method Master() returns (body: string)
      ensures body == Printed(MasterLines(LADDER))
    {
      hide Itoa, Printed, InfoLine, UriLine;
      ghost var lines := ["#EXTM3U"];
      body := "#EXTM3U\n";
      PrintedFirst();
      for i := 0 to |LADDER|
        invariant lines == MasterLines(LADDER[..i]) && body == Printed(lines)
      {
        var r := LADDER[i];
        assert LADDER[..i + 1][..i] == LADDER[..i];
        Printed2(lines, InfoLine(r), UriLine(r));
        lines := lines + [InfoLine(r), UriLine(r)];
        body := body + InfoLine(r) + "\n" + UriLine(r) + "\n";
      }
      assert LADDER[..|LADDER|] == LADDER;
    }

    /** GET /hls/{rendition}/live.m3u8; None is not found. */
    method Playlist(rendition: string) returns (body: Option<string>)
      requires Valid()
      ensures body == if Find(LADDER, rendition).None? || times == [] then None else
                var first := Oldest(|times|, WINDOW);
                Some(Printed(MediaLines(first, |times| - first)))
    {
      hide Find, Tail, SegmentAt, Holds, Printed, Itoa;
      var ring := RingOf(segs, rendition);
      if Find(LADDER, rendition).None? {
        NoSuchRing(segs, Rings(rnd, times), rendition);
      } else {
        SuchRing(segs, rnd, times, rendition);
        WindowOfRing(rnd, Find(LADDER, rendition).value, times);
      }
      if ring == [] {
        return None;
      }
      if |ring| > WINDOW {
        ring := ring[|ring| - WINDOW..];
      }
      var b := Render(ring);
      body := Some(b);
    }

    /** GET /hls/{rendition}/{segment}. */
    method Serve(rendition: string, name: string) returns (found: Option<Segment>)
      requires Valid()
      ensures found == Lookup(rnd, times, rendition, name)
    {
      hide Find, Tail, SegmentAt, Holds, NumberIn;
      var no := NumberIn(name);
      if no.None? {
        return None;
      }
      var seqNo := no.value;
      var ring := RingOf(segs, rendition);
      if Find(LADDER, rendition).None? {
        NoSuchRing(segs, Rings(rnd, times), rendition);
      } else {
        SuchRing(segs, rnd, times, rendition);
      }
      for i := 0 to |ring|
        invariant forall j :: 0 <= j < i ==> ring[j].no != seqNo
      {
        if ring[i].no == seqNo {
          return Some(ring[i]);
        }
      }
      ghost var at := seqNo - Oldest(|times|, RING);
      assert 0 <= at < |ring| ==> ring[at].no != seqNo;
      found := None;
    }
  }

  lemma PrintedFirst()
    ensures Printed(["#EXTM3U"]) == "#EXTM3U\n"
  {
  }

  lemma Printed2(lines: seq<string>, a: string, b: string)
    ensures Printed(lines + [a, b]) == Printed(lines) + a + "\n" + b + "\n"
  {
    hide Printed;
    PrintedMore(lines, a);
    PrintedMore(lines + [a], b);
    assert lines + [a] + [b] == lines + [a, b];
  }

  lemma PrintedStart()
    ensures Printed(["#EXTM3U", "#EXT-X-VERSION:3"]) == "#EXTM3U\n#EXT-X-VERSION:3\n"
  {
    assert Printed([]) == "";
    hide Printed;
    Printed2([], "#EXTM3U", "#EXT-X-VERSION:3");
    assert [] + ["#EXTM3U", "#EXT-X-VERSION:3"] == ["#EXTM3U", "#EXT-X-VERSION:3"];
  }

  lemma PrintedHead(first: nat)
    ensures Printed(MediaHead(first)) == "#EXTM3U\n#EXT-X-VERSION:3\n"
              + ("#EXT-X-TARGETDURATION:" + Itoa(SEGMENT_SECONDS)) + "\n" + (MEDIA_SEQUENCE + Itoa(first)) + "\n"
  {
    hide Itoa, Printed;
    var start := ["#EXTM3U", "#EXT-X-VERSION:3"];
    PrintedStart();
    var target, number := "#EXT-X-TARGETDURATION:" + Itoa(SEGMENT_SECONDS), MEDIA_SEQUENCE + Itoa(first);
    Printed2(start, target, number);
    assert start + [target, number] == MediaHead(first);
  }

  /** The text of the media playlist that lists these segments. */
  method Render(ring: seq<Segment>) returns (b: string)
    requires ring != [] && forall i :: 0 <= i < |ring| ==> ring[i].no == ring[0].no + i
    ensures b == Printed(MediaLines(ring[0].no, |ring|))
  {
    hide Itoa, Printed, MediaHead, SegmentName;
    ghost var lines := MediaHead(ring[0].no);
    b := "#EXTM3U\n#EXT-X-VERSION:3\n";
    b := b + ("#EXT-X-TARGETDURATION:" + Itoa(SEGMENT_SECONDS)) + "\n";
    if |ring| > 0 {
      b := b + (MEDIA_SEQUENCE + Itoa(ring[0].no)) + "\n";
    }
    PrintedHead(ring[0].no);
    ghost var head := lines;
    for i := 0 to |ring|
      invariant lines == head + Listed(ring[0].no, i) && b == Printed(lines)
    {
      ghost var info := "#EXTINF:" + Itoa(SEGMENT_SECONDS) + ".0,";
      Printed2(lines, info, SegmentName(ring[i].no));
      lines := lines + [info, SegmentName(ring[i].no)];
      b := b + ("#EXTINF:" + Itoa(SEGMENT_SECONDS) + ".0,") + "\n" + SegmentName(ring[i].no) + "\n";
    }
  }
}
