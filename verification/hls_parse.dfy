/** internal/hlspath/client.go:145-207: the player's playlist parsers, and that they recover what the origin printed. */
module HlsParse {
  import opened Basics
  import opened HlsText
  import opened HlsOrigin

  datatype Entry = Entry(no: int, name: string)

  datatype Playlist = Playlist(firstSeq: int, segments: seq<Entry>)

  /** fetchPlaylist's variables. */
  datatype Reading = Reading(pl: Playlist, no: int)

  const START := Reading(Playlist(0, []), 0)

  /** One line of a media playlist, white space already trimmed. */
  function ReadLine(st: Reading, line: string): Reading {
    var v := CutPrefix(line, MEDIA_SEQUENCE);
    if v.Some? then
      var first := Atoi(v.value).value;
      Reading(st.pl.(firstSeq := first), first)
    else if line != "" && !("#" <= line) then
      Reading(st.pl.(segments := st.pl.segments + [Entry(st.no, line)]), st.no + 1)
    else
      st
  }

  function ReadLines(lines: seq<string>): Reading {
    if lines == [] then START
    else ReadLine(ReadLines(lines[..|lines| - 1]), TrimSpace(lines[|lines| - 1]))
  }

  method FetchPlaylist(body: string) returns (pl: Playlist)
    ensures pl == ReadLines(Lines(body)).pl
  {
    hide Lines, TrimSpace, Atoi;
    pl := Playlist(0, []);
    var no := 0;
    var lines := Lines(body);
    for i := 0 to |lines|
      invariant Reading(pl, no) == ReadLines(lines[..i])
    {
      assert lines[..i + 1][..i] == lines[..i];
      var line := TrimSpace(lines[i]);
      var v := CutPrefix(line, MEDIA_SEQUENCE);
      if v.Some? {
        pl := pl.(firstSeq := Atoi(v.value).value);
        no := pl.firstSeq;
      } else if line != "" && !("#" <= line) {
        pl := pl.(segments := pl.segments + [Entry(no, line)]);
        no := no + 1;
      }
    }
    assert lines[..|lines|] == lines;
  }

  /** What the origin lists, counted from the first segment. */
  function Entries(first: nat, k: nat): seq<Entry> {
    seq(k, i requires 0 <= i < k => Entry(first + i, SegmentName(first + i)))
  }

  lemma PlainItoa(n: nat)
    ensures Plain(Itoa(n))
  {
    hide Itoa;
    forall i | 0 <= i < |Itoa(n)| ensures Visible(Itoa(n)[i]) { assert IsDigit(Itoa(n)[i]); }
  }

  lemma PlainAround(a: string, n: nat, b: string)
    requires forall i :: 0 <= i < |a| ==> Visible(a[i])
    requires forall i :: 0 <= i < |b| ==> Visible(b[i])
    ensures Plain(a + Itoa(n) + b)
  {
    hide Itoa;
    PlainItoa(n);
  }

  lemma CommentRead(before: seq<string>, line: string)
    requires Plain(line) && "#" <= line && !(MEDIA_SEQUENCE <= line)
    ensures ReadLines(before + [line]) == ReadLines(before)
  {
    hide TrimSpace, Plain;
    TrimPlain(line);
    assert (before + [line])[..|before|] == before;
  }

  /** Blank lines and other comments say nothing, with any white space around them, in either playlist. */
  lemma IgnoredLines(before: seq<string>, line: string)
    requires var l := TrimSpace(line); l == "" || ("#" <= l && !(MEDIA_SEQUENCE <= l) && !(STREAM_INF <= l))
    ensures ReadLines(before + [line]) == ReadLines(before) && MasterRead(before + [line]) == MasterRead(before)
  {
    hide TrimSpace, Split, Bandwidth;
    assert (before + [line])[..|before|] == before;
  }

  lemma NameRead(before: seq<string>, line: string)
    requires Plain(line) && !("#" <= line)
    ensures ReadLines(before + [line]) ==
            var st := ReadLines(before); Reading(st.pl.(segments := st.pl.segments + [Entry(st.no, line)]), st.no + 1)
  {
    hide TrimSpace, Visible;
    TrimPlain(line);
    assert (before + [line])[..|before|] == before;
    assert MEDIA_SEQUENCE[0] == '#';
  }

  lemma {:induction false} ListedRead(head: seq<string>, first: nat, k: nat)
    requires ReadLines(head) == Reading(Playlist(first, []), first)
    ensures ReadLines(head + Listed(first, k)) == Reading(Playlist(first, Entries(first, k)), first + k)
    ensures forall i :: 0 <= i < |Listed(first, k)| ==> Plain(Listed(first, k)[i])
  {
    hide Itoa, ReadLine, ReadLines, Visible, Plain, SegmentName;
    if k == 0 {
      assert head + [] == head;
    } else {
      ListedRead(head, first, k - 1);
      var before, no := head + Listed(first, k - 1), first + k - 1;
      var info, name := "#EXTINF:" + Itoa(SEGMENT_SECONDS) + ".0,", SegmentName(no);
      PlainListed(no);
      CommentRead(before, info);
      NameRead(before + [info], name);
      assert before + [info] + [name] == head + Listed(first, k);
      assert Entries(first, k) == Entries(first, k - 1) + [Entry(no, name)];
    }
  }

  lemma PlainListed(no: nat)
    ensures var info := "#EXTINF:" + Itoa(SEGMENT_SECONDS) + ".0,";
            Plain(info) && "#" <= info && !(MEDIA_SEQUENCE <= info)
    ensures Plain(SegmentName(no)) && !("#" <= SegmentName(no))
  {
    hide Itoa, Plain;
    var info := "#EXTINF:" + Itoa(SEGMENT_SECONDS) + ".0,";
    PlainAround("#EXTINF:", SEGMENT_SECONDS, ".0,");
    PlainAround("seg", no, ".ts");
    assert info[4] == 'I' && MEDIA_SEQUENCE[4] == '-' && SegmentName(no)[0] == 's';
  }

  lemma PlainHead(first: nat)
    ensures var h := MediaHead(first);
            forall i :: 0 <= i < 4 ==> Plain(h[i]) && "#" <= h[i] && (i < 3 ==> !(MEDIA_SEQUENCE <= h[i]))
  {
    var h := MediaHead(first);
    assert Plain(h[0]) && Plain(h[1]);
    hide Itoa, Plain;
    PlainAround("#EXT-X-TARGETDURATION:", SEGMENT_SECONDS, "");
    assert h[2] + "" == h[2];
    PlainAround(MEDIA_SEQUENCE, first, "");
    assert h[3] + "" == h[3];
    assert h[0][4] == 'M' && h[1][7] == 'V' && h[2][7] == 'T' && MEDIA_SEQUENCE[4] == '-' && MEDIA_SEQUENCE[7] == 'M';
  }

  lemma HeadRead(first: nat)
    requires first <= MAX_INT
    ensures ReadLines(MediaHead(first)) == Reading(Playlist(first, []), first)
  {
    var h := MediaHead(first);
    assert ReadLines([]) == START && h[3] == MEDIA_SEQUENCE + Itoa(first);
    hide Itoa, Plain, Atoi, ReadLines, MediaHead;
    PlainHead(first);
    CommentRead([], h[0]);
    CommentRead([] + [h[0]], h[1]);
    CommentRead([] + [h[0]] + [h[1]], h[2]);
    var three := [] + [h[0]] + [h[1]] + [h[2]];
    assert h == three + [h[3]];
    AtoiOfItoa(first);
    SequenceRead(three, h[3]);
    CutPrefixOf(MEDIA_SEQUENCE, Itoa(first));
  }

  lemma SequenceRead(before: seq<string>, line: string)
    requires Plain(line) && MEDIA_SEQUENCE <= line
    ensures ReadLines(before + [line]) == ReadLine(ReadLines(before), line)
  {
    hide TrimSpace, Visible, ReadLine;
    TrimPlain(line);
    assert (before + [line])[..|before|] == before;
  }

  lemma StartRead(first: nat)
    ensures ReadLines(MediaHead(first)[..3]) == START
  {
    var h := MediaHead(first);
    assert ReadLines([]) == START;
    hide Itoa, Plain, ReadLines, MediaHead;
    PlainHead(first);
    CommentRead([], h[0]);
    CommentRead([] + [h[0]], h[1]);
    CommentRead([] + [h[0]] + [h[1]], h[2]);
    assert h[..3] == [] + [h[0]] + [h[1]] + [h[2]];
  }

  /** The player reads from the origin's playlist exactly the segments it lists, numbered from its first. */
  lemma PlaylistRoundTrip(first: nat, k: nat)
    requires first <= MAX_INT
    ensures ReadLines(Lines(Printed(MediaLines(first, k)))).pl
            == Playlist(if k == 0 then 0 else first, Entries(first, k))
  {
    hide Itoa, TrimSpace, Visible, Plain, MediaHead, Listed, ReadLine, ReadLines, Lines, Printed;
    PlainHead(first);
    if k == 0 {
      NothingToList(first);
      StartRead(first);
      assert MediaLines(first, k) == MediaHead(first)[..3];
    } else {
      HeadRead(first);
      ListedRead(MediaHead(first), first, k);
    }
    LinesOfPrinted(MediaLines(first, k));
  }

  lemma NothingToList(first: nat)
    ensures Listed(first, 0) == []
  {
  }

  // ---------- The master playlist ----------

  datatype Ref = Ref(uri: string, kbps: int)

  /** fetchMaster's variables. */
  datatype Refs = Refs(out: seq<Ref>, kbps: int)

  function IndexOf(s: string, c: char): (n: nat)
    ensures n <= |s| && (n < |s| ==> s[n] == c) && forall i :: 0 <= i < n ==> s[i] != c
  {
    if s == "" || s[0] == c then 0 else 1 + IndexOf(s[1..], c)
  }

  /** strings.Split(s, c). */
  function Split(s: string, c: char): seq<string>
    decreases |s|
  {
    var n := IndexOf(s, c);
    if n == |s| then [s] else [s[..n]] + Split(s[n + 1..], c)
  }

  function Joined(parts: seq<string>, c: char): string
    requires parts != []
  {
    if |parts| == 1 then parts[0] else parts[0] + [c] + Joined(parts[1..], c)
  }

  /** The parts hold no separator, and with one between each two they make up the whole. */
  lemma {:induction false} SplitParts(s: string, c: char)
    ensures var parts := Split(s, c);
            parts != [] && Joined(parts, c) == s && forall i :: 0 <= i < |parts| ==> c !in parts[i]
    decreases |s|
  {
    var n := IndexOf(s, c);
    if n < |s| {
      SplitParts(s[n + 1..], c);
      assert s == s[..n] + [c] + s[n + 1..];
      assert Split(s, c)[1..] == Split(s[n + 1..], c);
    }
  }

  /** The bandwidth the attributes give: the last one, or `kbps` if there is none. */
  function Bandwidth(attrs: seq<string>, kbps: int): int {
    if attrs == [] then kbps
    else
      var v := CutPrefix(attrs[|attrs| - 1], BANDWIDTH);
      if v.Some? then Quotient(Atoi(v.value).value, 1000) else Bandwidth(attrs[..|attrs| - 1], kbps)
  }

  /** The last bandwidth among the attributes counts, in whole kbit/s, and no other attribute does. */
  lemma LastBandwidth(attrs: seq<string>, attr: string, kbps: int, n: nat)
    requires n <= MAX_INT
    ensures Bandwidth([], kbps) == kbps
    ensures Bandwidth(attrs + ["BANDWIDTH=" + Itoa(n)], kbps) == n / 1000
    ensures !("BANDWIDTH=" <= attr) ==> Bandwidth(attrs + [attr], kbps) == Bandwidth(attrs, kbps)
  {
    hide Itoa, Atoi;
    var one := attrs + ["BANDWIDTH=" + Itoa(n)];
    assert one[..|one| - 1] == attrs && (attrs + [attr])[..|attrs|] == attrs;
    CutPrefixOf(BANDWIDTH, Itoa(n));
    AtoiOfItoa(n);
  }

  function MasterLine(st: Refs, line: string): Refs {
    if STREAM_INF <= line then
      st.(kbps := Bandwidth(Split(line[|STREAM_INF|..], ','), st.kbps))
    else if line != "" && !("#" <= line) then
      st.(out := st.out + [Ref(TrimSuffix(line, LIVE), st.kbps)])
    else
      st
  }

  function MasterRead(lines: seq<string>): Refs {
    if lines == [] then Refs([], 0)
    else MasterLine(MasterRead(lines[..|lines| - 1]), TrimSpace(lines[|lines| - 1]))
  }

  /** None is the error for a playlist without renditions. */
  method FetchMaster(body: string) returns (out: Option<seq<Ref>>)
    ensures var refs := MasterRead(Lines(body)).out; out == if refs == [] then None else Some(refs)
  {
    hide Lines, TrimSpace, Atoi, Split;
    var refs: seq<Ref> := [];
    var kbps: int := 0;
    var lines := Lines(body);
    for i := 0 to |lines|
      invariant Refs(refs, kbps) == MasterRead(lines[..i])
    {
      assert lines[..i + 1][..i] == lines[..i];
      var line := TrimSpace(lines[i]);
      if STREAM_INF <= line {
        ghost var was := kbps;
        var attrs := Split(line[|STREAM_INF|..], ',');
        for j := 0 to |attrs|
          invariant kbps == Bandwidth(attrs[..j], was)
        {
          assert attrs[..j + 1][..j] == attrs[..j];
          var v := CutPrefix(attrs[j], BANDWIDTH);
          if v.Some? {
            kbps := Quotient(Atoi(v.value).value, 1000);
          }
        }
        assert attrs[..|attrs|] == attrs;
      } else if line != "" && !("#" <= line) {
        refs := refs + [Ref(TrimSuffix(line, LIVE), kbps)];
      }
    }
    assert lines[..|lines|] == lines;
    out := if refs == [] then None else Some(refs);
  }

  /** Names the master playlist can carry. */
  predicate Printable(r: Rendition) {
    (forall i :: 0 <= i < |r.name| ==> Visible(r.name[i])) && !("#" <= r.name) && r.kbps * 1000 <= MAX_INT
  }

  lemma SplitWhole(s: string, c: char)
    requires c !in s
    ensures Split(s, c) == [s]
  {
  }

  lemma InfoRead(before: seq<string>, kbps: nat)
    requires kbps * 1000 <= MAX_INT
    ensures var info := STREAM_INF + BANDWIDTH + Itoa(kbps * 1000);
            && Plain(info) && MasterRead(before + [info]) == MasterRead(before).(kbps := kbps)
  {
    hide Itoa, TrimSpace, Plain, Atoi, Split, TrimSuffix;
    var n, attr := kbps * 1000, BANDWIDTH + Itoa(kbps * 1000);
    var info := STREAM_INF + BANDWIDTH + Itoa(n);
    assert info == STREAM_INF + attr;
    assert Plain(info) by {
      PlainAround(STREAM_INF + BANDWIDTH, n, "");
      assert info + "" == info;
    }
    TrimPlain(info);
    assert (before + [info])[..|before|] == before;
    assert ',' !in attr;
    SplitWhole(attr, ',');
    assert info[|STREAM_INF|..] == attr;
    CutPrefixOf(BANDWIDTH, Itoa(n));
    AtoiOfItoa(n);
    assert Quotient(n, 1000) == kbps;
  }

  lemma UriRead(before: seq<string>, r: Rendition)
    requires Printable(r)
    ensures Plain(r.name + LIVE)
    ensures var st := MasterRead(before);
            MasterRead(before + [r.name + LIVE]) == st.(out := st.out + [Ref(r.name, st.kbps)])
  {
    hide TrimSpace, Split, Bandwidth;
    var line := r.name + LIVE;
    assert Plain(line);
    TrimPlain(line);
    assert (before + [line])[..|before|] == before;
    assert !("#" <= line) by { assert line[0] == if r.name == "" then '/' else r.name[0]; }
    assert line[0] != '#' && STREAM_INF[0] == '#';
    assert TrimSuffix(line, LIVE) == r.name;
  }

  /** What the player should know of a ladder. */
  function RefsOf(ladder: seq<Rendition>): seq<Ref> {
    seq(|ladder|, i requires 0 <= i < |ladder| => Ref(ladder[i].name, ladder[i].kbps))
  }

  lemma RenditionRead(before: seq<string>, r: Rendition)
    requires Printable(r)
    ensures Plain(InfoLine(r)) && Plain(UriLine(r))
    ensures MasterRead(before + [InfoLine(r), UriLine(r)]).out == MasterRead(before).out + [Ref(r.name, r.kbps)]
  {
    hide Itoa, MasterRead, Visible, Plain;
    InfoRead(before, r.kbps);
    UriRead(before + [InfoLine(r)], r);
    assert before + [InfoLine(r)] + [UriLine(r)] == before + [InfoLine(r), UriLine(r)];
  }

  lemma NothingListed()
    ensures MasterRead(["#EXTM3U"]) == Refs([], 0) && Plain("#EXTM3U")
  {
  }

  lemma {:induction false} MasterLinesRead(ladder: seq<Rendition>)
    requires forall r :: r in ladder ==> Printable(r)
    ensures MasterRead(MasterLines(ladder)).out == RefsOf(ladder)
    ensures forall i :: 0 <= i < |MasterLines(ladder)| ==> Plain(MasterLines(ladder)[i])
  {
    hide MasterRead, Visible, Plain, Printable, InfoLine, UriLine;
    if ladder == [] {
      NothingListed();
    } else {
      var r := ladder[|ladder| - 1];
      var before := MasterLines(ladder[..|ladder| - 1]);
      MasterLinesRead(ladder[..|ladder| - 1]);
      RenditionRead(before, r);
      var init := ladder[..|ladder| - 1];
      assert ladder == init + [r];
      assert RefsOf(ladder) == RefsOf(init) + [Ref(r.name, r.kbps)];
    }
  }

  /** The player finds in the master playlist exactly the renditions printed there, in order. */
  lemma MasterRoundTrip(ladder: seq<Rendition>)
    requires forall r :: r in ladder ==> Printable(r)
    ensures MasterRead(Lines(Printed(MasterLines(ladder)))).out == RefsOf(ladder)
  {
    hide Itoa, Plain, MasterRead, MasterLines, Lines, Printed, RefsOf;
    MasterLinesRead(ladder);
    LinesOfPrinted(MasterLines(ladder));
  }
}
