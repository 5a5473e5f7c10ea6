/** Whole group streams and control frames: headers, sequences of objects, the points at which a stream
    can be cut, and what one relay hop makes of a stream. */
module WireStreams {
  import opened Basics
  import opened Wire

  // ---------- Group headers ----------

  datatype Header = Header(name: seq<byte>, seqNo: u64)

  predicate NameFits(h: Header) { |h.name| <= MAX_NAME }

  /** WriteGroupHeader. The name length is not checked here. */
  function EncodeHeader(h: Header): seq<byte> {
    Varint(|h.name|) + (h.name + Varint(h.seqNo))
  }

  /** The name of length n and the group sequence number. */
  function ReadName(s: seq<byte>, end: End, n: nat): (r: Read<Header>)
    ensures r.Ok? ==> |r.value.name| == n && |r.rest| <= |s|
  {
    match ReadFull(s, end, n)
    case Fail(e, rest) => Fail(Unexpected(e), rest)
    case Ok(name, rest) =>
      match ReadVarint(rest, end, 0)
      case Fail(e, rest) => Fail(Unexpected(e), rest)
      case Ok(seqNo, rest') =>
        VarintFits(rest, end, 0);
        RoomIsU64();
        Ok(Header(name, seqNo), rest')
  }

  /** ReadGroupHeader. */
  function ReadHeader(s: seq<byte>, end: End): (r: Read<Header>)
    ensures r.Ok? ==> NameFits(r.value) && |r.rest| < |s|
  {
    match ReadVarint(s, end, 0)
    case Fail(e, rest) => Fail(e, rest)
    case Ok(n, rest) =>
      if n > MAX_NAME then Fail(NameTooLong, rest) else ReadName(rest, end, n)
  }

  lemma NameRoundTrip(h: Header, t: seq<byte>, end: End)
    ensures ReadName((h.name + Varint(h.seqNo)) + t, end, |h.name|) == Ok(h, t)
  {
    RoomIsU64();
    Assoc(h.name, Varint(h.seqNo), t);
    var s := h.name + (Varint(h.seqNo) + t);
    assert s[..|h.name|] == h.name && s[|h.name|..] == Varint(h.seqNo) + t;
    VarintRoundTrip(h.seqNo, t, end, 0);
  }

  lemma NameCut(h: Header, end: End, k: nat)
    requires k < |h.name| + |Varint(h.seqNo)|
    ensures ReadName((h.name + Varint(h.seqNo))[..k], end, |h.name|) == Fail(Cut(end, k + 1), [])
  {
    RoomIsU64();
    Prefix(h.name, Varint(h.seqNo), k);
    if k >= |h.name| {
      var q := Varint(h.seqNo)[..k - |h.name|];
      assert (h.name + q)[..|h.name|] == h.name && (h.name + q)[|h.name|..] == q;
      VarintRoundTrip(h.seqNo, [], end, 0);
      VarintCut(Varint(h.seqNo), [], end, end, 0, k - |h.name|);
    }
  }

  /** A header is read back exactly when its name is within the reader's limit. */
  lemma HeaderRoundTrip(h: Header, t: seq<byte>, end: End)
    requires |h.name| < U64
    ensures ReadHeader(EncodeHeader(h) + t, end) == Ok(h, t) <==> |h.name| <= 1024
    ensures |h.name| > 1024 ==> ReadHeader(EncodeHeader(h) + t, end) == Fail(NameTooLong, h.name + Varint(h.seqNo) + t)
  {
    RoomIsU64();
    var b := h.name + Varint(h.seqNo);
    Assoc(Varint(|h.name|), b, t);
    VarintRoundTrip(|h.name|, b + t, end, 0);
    NameRoundTrip(h, t, end);
  }

  /** Every proper prefix of a header is an error; a FIN reads as io.EOF only before its first byte. */
  lemma HeaderCut(h: Header, end: End, k: nat)
    requires NameFits(h) && k < |EncodeHeader(h)|
    ensures ReadHeader(EncodeHeader(h)[..k], end)
            == Fail(if end == Reset then Aborted else if k == 0 then Eof else UnexpectedEof, [])
  {
    hide ReadName, Varint;
    RoomIsU64();
    var v, b := Varint(|h.name|), h.name + Varint(h.seqNo);
    Prefix(v, b, k);
    if k < |v| {
      LengthCut(|h.name|, end, k);
      hide NameFits, ReadVarint;
    } else {
      VarintRoundTrip(|h.name|, b[..k - |v|], end, 0);
      NameCut(h, end, k - |v|);
      hide ReadVarint;
    }
  }

  lemma LengthCut(n: nat, end: End, k: nat)
    requires n < U64 && k < |Varint(n)|
    ensures ReadVarint(Varint(n)[..k], end, 0) == Fail(Cut(end, k), [])
  {
    hide Varint, ReadVarint;
    VarintRoundTrip(n, [], end, 0);
    VarintCut(Varint(n), [], end, end, 0, k);
  }

  // ---------- Sequences of objects ----------

  function EncodeAll(objs: seq<Object>): seq<byte> {
    if objs == [] then [] else EncodeObject(objs[0]) + EncodeAll(objs[1..])
  }

  /** ReadObject repeated until it reports an error. */
  datatype Objects = Objects(objs: seq<Object>, error: Error, rest: seq<byte>)

  function ReadObjects(s: seq<byte>, end: End): (r: Objects)
    ensures AllSendable(r.objs)
    decreases |s|
  {
    match ReadObject(s, end)
    case Fail(e, rest) => Objects([], e, rest)
    case Ok(o, rest) => var r := ReadObjects(rest, end); Objects([o] + r.objs, r.error, r.rest)
  }

  /** How many objects of the encoding end within its first k bytes. */
  function Whole(objs: seq<Object>, k: nat): (n: nat)
    ensures n <= |objs|
  {
    if objs == [] || k < |EncodeObject(objs[0])| then 0
    else 1 + Whole(objs[1..], k - |EncodeObject(objs[0])|)
  }

  /** Whole is the number of complete objects: their bytes are the longest object-aligned prefix
      of the first k bytes. */
  lemma {:induction false} WholeIsMaximal(objs: seq<Object>, k: nat)
    requires k <= |EncodeAll(objs)|
    ensures var n := Whole(objs, k);
            && |EncodeAll(objs[..n])| <= k
            && EncodeAll(objs[..n]) == EncodeAll(objs)[..|EncodeAll(objs[..n])|]
            && (n < |objs| ==> k < |EncodeAll(objs[..n + 1])|)
            && (n == |objs| ==> k == |EncodeAll(objs)|)
  {
    hide EncodeObject;
    var n := Whole(objs, k);
    if objs != [] {
      var first, tail := EncodeObject(objs[0]), objs[1..];
      if n < |objs| { EncodeOneMore(objs, n + 1); }
      if k >= |first| {
        WholeIsMaximal(tail, k - |first|);
        EncodeOneMore(objs, n);
        var m := |EncodeAll(tail[..n - 1])|;
        Prefix(first, EncodeAll(tail), |first| + m);
      }
    }
  }

  /** Unique decoding and exact end-of-stream classification, for every cut point of every encodable list:
      exactly the complete objects are returned, and the error says whether the cut was on a boundary. */
  lemma {:induction false} StreamCut(objs: seq<Object>, k: nat, end: End)
    requires AllSendable(objs) && k <= |EncodeAll(objs)|
    ensures var n := Whole(objs, k);
            var whole := |EncodeAll(objs[..n])|;
            k >= whole && ReadObjects(EncodeAll(objs)[..k], end) == Objects(objs[..n], Cut(end, k - whole), [])
            && Cut(end, k - whole) == if end == Reset then Aborted else if k == whole then Eof else UnexpectedEof
  {
    hide ReadObject, EncodeObject;
    var n := Whole(objs, k);
    if objs == [] {
      NothingToRead(end);
    } else {
      var first, tail := EncodeObject(objs[0]), objs[1..];
      Prefix(first, EncodeAll(tail), k);
      if k < |first| {
        ObjectRoundTrip(objs[0], [], end);
        assert first + [] == first;
        ObjectCut(first, [], end, end, k);
      } else {
        var b := EncodeAll(tail)[..k - |first|];
        StreamCut(tail, k - |first|, end);
        ObjectRoundTrip(objs[0], b, end);
        ReadOneMore(objs[0], b, end);
        EncodeOneMore(objs, n);
      }
    }
  }

  lemma NothingToRead(end: End)
    ensures ReadObjects([], end) == Objects([], Cut(end, 0), [])
  {
  }

  lemma ReadOneMore(o: Object, b: seq<byte>, end: End)
    requires ReadObject(EncodeObject(o) + b, end) == Ok(o, b)
    ensures var r := ReadObjects(b, end);
            ReadObjects(EncodeObject(o) + b, end) == Objects([o] + r.objs, r.error, r.rest)
  {
  }

  lemma EncodeOneMore(objs: seq<Object>, n: nat)
    requires 1 <= n <= |objs|
    ensures objs[..n] == [objs[0]] + objs[1..][..n - 1]
    ensures EncodeAll(objs[..n]) == EncodeObject(objs[0]) + EncodeAll(objs[1..][..n - 1])
  {
    assert objs[..n][1..] == objs[1..][..n - 1];
  }

  /** The whole encoding decodes to the list, then io.EOF at a FIN. */
  lemma StreamRoundTrip(objs: seq<Object>, end: End)
    requires AllSendable(objs)
    ensures ReadObjects(EncodeAll(objs), end) == Objects(objs, Cut(end, 0), [])
  {
    hide ReadObjects, Whole;
    var b := EncodeAll(objs);
    WholeIsMaximal(objs, |b|);
    var n := Whole(objs, |b|);
    assert n == |objs| by {
      if n < |objs| { EncodeAllGrows(objs, n + 1); }
    }
    StreamCut(objs, |b|, end);
    assert b[..|b|] == b && objs[..n] == objs;
  }

  lemma {:induction false} EncodeAllGrows(objs: seq<Object>, n: nat)
    requires n <= |objs|
    ensures |EncodeAll(objs[..n])| <= |EncodeAll(objs)|
  {
    if n > 0 {
      EncodeAllGrows(objs[1..], n - 1);
      assert objs[..n][1..] == objs[1..][..n - 1];
    }
  }

  // ---------- Group streams and relay hops ----------

  function EncodeStream(h: Header, objs: seq<Object>): seq<byte> { EncodeHeader(h) + EncodeAll(objs) }

  /** Different groups have different encodings. */
  lemma StreamUnique(h: Header, objs: seq<Object>, h': Header, objs': seq<Object>)
    requires NameFits(h) && AllSendable(objs) && NameFits(h') && AllSendable(objs')
    requires EncodeStream(h, objs) == EncodeStream(h', objs')
    ensures h == h' && objs == objs'
  {
    HeaderRoundTrip(h, EncodeAll(objs), Fin);
    HeaderRoundTrip(h', EncodeAll(objs'), Fin);
    StreamRoundTrip(objs, Fin);
    StreamRoundTrip(objs', Fin);
  }

  /** One relay hop: ingestGroupStream decodes a stream and re-encodes each object, writeGroup writes the
      header and the objects and then a FIN, however the ingested stream ended. Without a readable header
      no group is published at all. */
  function Hop(s: seq<byte>, end: End): Option<seq<byte>> {
    var r := ReadHeader(s, end);
    if r.Ok? then Some(EncodeStream(r.value, ReadObjects(r.rest, end).objs)) else None
  }

  /** Truncation through a relay: from a group stream cut after any k bytes, by a FIN or a reset, the relay
      forwards the header and exactly the objects that were complete, a prefix of what it received. */
  lemma HopOfCut(h: Header, objs: seq<Object>, k: nat, end: End)
    requires NameFits(h) && AllSendable(objs) && k <= |EncodeStream(h, objs)|
    ensures var s := EncodeStream(h, objs)[..k];
            var head := |EncodeHeader(h)|;
            if k < head then Hop(s, end) == None
            else var n := Whole(objs, k - head);
                 Hop(s, end) == Some(EncodeStream(h, objs[..n])) && EncodeStream(h, objs[..n]) <= s
  {
    hide ReadHeader, ReadObjects, EncodeHeader, EncodeAll, Whole;
    var eh, ea := EncodeHeader(h), EncodeAll(objs);
    Prefix(eh, ea, k);
    if k < |eh| {
      HeaderCut(h, end, k);
    } else {
      var j := k - |eh|;
      HeaderRoundTrip(h, ea[..j], end);
      StreamCut(objs, j, end);
      WholeIsMaximal(objs, j);
      PrefixOf(eh, EncodeAll(objs[..Whole(objs, j)]), ea[..j]);
    }
  }

  lemma PrefixOf(h: seq<byte>, a: seq<byte>, b: seq<byte>)
    requires a <= b
    ensures h + a <= h + b
  {
  }

  /** What a hop forwards carries exactly what the hop decoded, ends cleanly, and passes through every
      further hop unchanged; this holds of any accepted bytes, canonical or not. */
  lemma HopNormalises(s: seq<byte>, end: End)
    requires Hop(s, end).Some?
    ensures var t, r := Hop(s, end).value, ReadHeader(s, end);
            && Hop(t, Fin) == Some(t)
            && ReadHeader(t, Fin) == Ok(r.value, EncodeAll(ReadObjects(r.rest, end).objs))
            && ReadObjects(ReadHeader(t, Fin).rest, Fin) == Objects(ReadObjects(r.rest, end).objs, Eof, [])
  {
    var r := ReadHeader(s, end);
    var objs := ReadObjects(r.rest, end).objs;
    HeaderRoundTrip(r.value, EncodeAll(objs), Fin);
    StreamRoundTrip(objs, Fin);
  }

  /** Any number of hops, each ending its stream with a FIN. */
  function Hops(n: nat, s: seq<byte>, end: End): Option<seq<byte>>
    requires n >= 1
  {
    var first := Hop(s, end);
    if n == 1 || first.None? then first else Hops(n - 1, first.value, Fin)
  }

  lemma {:induction false} HopsAreOneHop(n: nat, s: seq<byte>, end: End)
    requires n >= 1
    ensures Hops(n, s, end) == Hop(s, end)
  {
    if n > 1 && Hop(s, end).Some? {
      HopNormalises(s, end);
      HopsAreOneHop(n - 1, Hop(s, end).value, Fin);
    }
  }

  /** Re-encoding is a normaliser and not the identity: a two-byte varint for the object sequence number 0
      and a flags byte with a high bit are accepted, and come out shorter and with the bit cleared. */
  lemma ReencodingIsNotIdentity()
    ensures var s := [128, 0, 5, 3, 0];
            && ReadObject(s, Fin) == Ok(Object(0, 5, true, []), [])
            && EncodeObject(Object(0, 5, true, [])) == [0, 5, 1, 0]
  {
    TwoByteZero([5, 3, 0]);
    var c: seq<byte> := [3, 0];
    ReadVarintLast(5, c, Fin, 0);
    assert [5] + c == [5, 3, 0] && [128, 0] + [5, 3, 0] == [128, 0, 5, 3, 0];
    EmptyPayload();
    assert c[1..] == [0];
    hide ReadVarint, ReadPayload;
  }

  lemma TwoByteZero(rest: seq<byte>)
    ensures ReadVarint([128, 0] + rest, Fin, 0) == Ok(0, rest)
  {
    ReadVarintLast(0, rest, Fin, 1);
    ReadVarintMore(128, [0] + rest, Fin, 0);
    assert [128] + ([0] + rest) == [128, 0] + rest;
  }

  lemma EmptyPayload()
    ensures ReadPayload([0], Fin) == Ok([], [])
  {
    ReadVarintLast(0, [], Fin, 0);
    assert [0] + [] == [0];
  }

  // ---------- Control frames ----------

  /** binary.BigEndian.PutUint32(uint32(n)): the length is truncated to 32 bits. */
  function BigEndian(n: nat): (r: seq<byte>)
    ensures |r| == 4
  {
    [n / 0x100_0000 % 256, n / 0x1_0000 % 256, n / 0x100 % 256, n % 256]
  }

  function FromBigEndian(b: seq<byte>): nat
    requires |b| == 4
  {
    b[0] as int * 0x100_0000 + b[1] as int * 0x1_0000 + b[2] as int * 0x100 + b[3] as int
  }

  lemma Base256(n: nat)
    ensures n == 256 * (n / 256) + n % 256
    ensures n / 256 / 256 == n / 0x1_0000 && n / 0x1_0000 / 256 == n / 0x100_0000
  {
  }

  lemma BigEndianTruncates(n: nat)
    ensures FromBigEndian(BigEndian(n)) == n % 0x1_0000_0000
  {
    Base256(n);
    Base256(n / 0x100);
    Base256(n / 0x1_0000);
    Base256(n / 0x100_0000);
    var q := n / 0x100_0000 / 0x100;
    assert n == 0x1_0000_0000 * q + FromBigEndian(BigEndian(n));
    hide BigEndian, FromBigEndian;
    Remainder(n, q, FromBigEndian(BigEndian(n)));
  }

  lemma Remainder(n: nat, q: nat, r: nat)
    requires n == 0x1_0000_0000 * q + r && r < 0x1_0000_0000
    ensures n % 0x1_0000_0000 == r
  {
  }

  /** WriteControl of a message whose JSON form is `json`. */
  function EncodeControl(json: seq<byte>): seq<byte> { BigEndian(|json|) + json }

  /** ReadControl up to the JSON decoding. Unlike the data plane it passes io.EOF on unchanged. */
  function ReadControl(s: seq<byte>, end: End): Read<seq<byte>> {
    match ReadFull(s, end, 4)
    case Fail(e, rest) => Fail(e, rest)
    case Ok(hdr, rest) =>
      var n := FromBigEndian(hdr);
      if n == 0 || n > MAX_CONTROL then Fail(BadFrameSize, rest) else ReadFull(rest, end, n)
  }

  /** A control message survives exactly when it is neither empty nor longer than the reader's limit;
      the truncated length of an enormous message never makes up for it. */
  lemma ControlRoundTrip(json: seq<byte>, t: seq<byte>, end: End)
    ensures ReadControl(EncodeControl(json) + t, end) == Ok(json, t) <==> 0 < |json| <= 65_536
  {
    hide BigEndian, FromBigEndian;
    var s := EncodeControl(json) + t;
    assert s[..4] == BigEndian(|json|) && s[4..] == json + t;
    BigEndianTruncates(|json|);
    assert (json + t)[..|json|] == json && (json + t)[|json|..] == t;
  }

  /** Any other size is refused in front of the body. */
  lemma ControlRefused(hdr: seq<byte>, t: seq<byte>, end: End)
    requires |hdr| == 4 && (FromBigEndian(hdr) == 0 || FromBigEndian(hdr) > 65_536)
    ensures ReadControl(hdr + t, end) == Fail(BadFrameSize, t)
  {
    assert (hdr + t)[..4] == hdr && (hdr + t)[4..] == t;
  }

  /** A cut control frame: io.EOF does not mean a clean boundary here, because a stream that ends right
      after the length prefix reports it too. */
  lemma ControlCut(json: seq<byte>, end: End, k: nat)
    requires 0 < |json| <= MAX_CONTROL && k < 4 + |json|
    ensures ReadControl(EncodeControl(json)[..k], end) ==
            Fail(if end == Reset then Aborted else if k == 0 || k == 4 then Eof else UnexpectedEof, [])
  {
    hide BigEndian, FromBigEndian;
    Prefix(BigEndian(|json|), json, k);
    if k >= 4 {
      BigEndianTruncates(|json|);
      ReadPrefixed(BigEndian(|json|), json[..k - 4], end);
      hide ReadControl;
    }
  }

  lemma ReadPrefixed(hdr: seq<byte>, t: seq<byte>, end: End)
    requires |hdr| == 4 && 0 < FromBigEndian(hdr) <= MAX_CONTROL
    ensures ReadControl(hdr + t, end) == ReadFull(t, end, FromBigEndian(hdr))
  {
    assert (hdr + t)[..4] == hdr && (hdr + t)[4..] == t;
  }
}
