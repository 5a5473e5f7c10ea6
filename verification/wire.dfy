/** The data-plane and control-plane byte formats of internal/proto/wire.go.

    A stream is a finite sequence of bytes together with the way it ends: a FIN, which Go readers
    see as io.EOF, or a reset, which they see as some other error. Readers are written twice: as
    functions from the bytes still unread to a result and the bytes left over, about which the
    theorems are stated, and as methods of a Reader object that advances in place. */
module Wire {
  import opened Basics

  const U64: int := 0x1_0000_0000_0000_0000
  const MAX_NAME: int := 1024
  const MAX_OBJECT: int := 0x80_0000
  const MAX_CONTROL: int := 0x1_0000

  datatype End = Fin | Reset

  datatype Error = Eof | UnexpectedEof | Aborted | Overflow | NameTooLong | ObjectTooLarge | BadFrameSize

  /** The outcome of one read: a value or an error, and the bytes not yet consumed. */
  datatype Read<+T> = Ok(value: T, rest: seq<byte>) | Fail(error: Error, rest: seq<byte>)

  /** What a reader reports when the bytes run out `done` bytes into an item. */
  function Cut(end: End, done: nat): Error {
    if end.Reset? then Aborted else if done == 0 then Eof else UnexpectedEof
  }

  function Unexpected(e: Error): Error {
    if e == Eof then UnexpectedEof else e
  }

  // ---------- Unsigned varints of Go's encoding/binary ----------

  /** AppendUvarint: seven bits a byte, least significant first, high bit set on all but the last. */
  function Varint(x: nat): (r: seq<byte>)
    ensures |r| >= 1
  {
    if x < 128 then [x] else [128 + x % 128] + Varint(x / 128)
  }

  /** ReadUvarint after `i` bytes of the varint: the part of the value the remaining bytes carry. */
  function ReadVarint(s: seq<byte>, end: End, i: nat): (r: Read<nat>)
    requires i <= 10
    ensures r.Ok? ==> |r.rest| < |s|
    decreases 10 - i
  {
    if i == 10 then Fail(Overflow, s)
    else if s == [] then Fail(Cut(end, i), s)
    else if s[0] < 128 then
      if i == 9 && s[0] > 1 then Fail(Overflow, s[1..]) else Ok(s[0], s[1..])
    else
      match ReadVarint(s[1..], end, i + 1)
      case Ok(v, rest) => Ok(s[0] - 128 + 128 * v, rest)
      case Fail(e, rest) => Fail(e, rest)
  }

  /** Values that fit after `i` bytes have been read: 2^(64 - 7 i). */
  function Room(i: nat): (r: nat)
    requires i <= 9
    decreases 9 - i
  {
    if i == 9 then 2 else 128 * Room(i + 1)
  }

  lemma RoomIsU64()
    ensures Room(0) == U64
  {
    assert Room(9) == 2;
    assert Room(8) == 0x100;
    assert Room(7) == 0x8000;
    assert Room(6) == 0x40_0000;
    assert Room(5) == 0x2000_0000;
    assert Room(4) == 0x10_0000_0000;
    assert Room(3) == 0x800_0000_0000;
    assert Room(2) == 0x4_0000_0000_0000;
    assert Room(1) == 0x200_0000_0000_0000;
  }

  /** Whatever ReadUvarint accepts is a uint64: the overflow test on the tenth byte is exact. */
  lemma {:induction false} VarintFits(s: seq<byte>, end: End, i: nat)
    requires i <= 9
    ensures var r := ReadVarint(s, end, i); r.Ok? ==> r.value < Room(i)
    decreases 9 - i
  {
    if i < 9 && s != [] {
      VarintFits(s[1..], end, i + 1);
      RoomAbove(i);
    }
  }

  lemma {:induction false} RoomAbove(i: nat)
    requires i < 9
    ensures Room(i) >= 256
    decreases 9 - i
  {
    if i < 8 { RoomAbove(i + 1); }
  }

  /** One more byte with its high bit set. */
  lemma ReadVarintMore(b: byte, s: seq<byte>, end: End, i: nat)
    requires i <= 9 && b >= 128
    ensures var r := ReadVarint(s, end, i + 1);
            ReadVarint([b] + s, end, i) ==
            if r.Ok? then Ok(b - 128 + 128 * r.value, r.rest) else Fail(r.error, r.rest)
  {
    assert ([b] + s)[1..] == s;
  }

  lemma ReadVarintLast(b: byte, s: seq<byte>, end: End, i: nat)
    requires i <= 9 && b < 128
    ensures ReadVarint([b] + s, end, i) == if i == 9 && b > 1 then Fail(Overflow, s) else Ok(b, s)
  {
    assert ([b] + s)[1..] == s;
  }

  /** The varint goes on for `last` bytes, and one more than 1 follows. */
  predicate TooLong(s: seq<byte>, last: nat) {
    |s| > last && s[last] > 1 && forall k :: 0 <= k < last ==> s[k] >= 128
  }

  lemma TooLongTail(s: seq<byte>, last: nat)
    requires s != [] && last > 0
    ensures TooLong(s, last) <==> s[0] >= 128 && TooLong(s[1..], last - 1)
  {
    if s[0] >= 128 && TooLong(s[1..], last - 1) {
      forall k | 0 <= k < last ensures s[k] >= 128 { if k > 0 { assert s[1..][k - 1] >= 128; } }
    }
  }

  /** A varint is refused as too large if and only if it goes on for ten bytes and the tenth is more than 1. */
  lemma {:induction false} OverflowIff(s: seq<byte>, end: End, i: nat)
    requires i <= 9
    ensures var r := ReadVarint(s, end, i);
            && (r.Fail? && r.error == Overflow <==> TooLong(s, 9 - i))
            && (r.Fail? && r.error == Overflow ==> |s| >= 10 - i && r.rest == s[10 - i..])
    decreases 9 - i
  {
    if i < 9 && s != [] {
      TooLongTail(s, 9 - i);
      hide TooLong;
      if s[0] >= 128 { OverflowIff(s[1..], end, i + 1); }
    }
  }

  lemma FirstOf(c: seq<byte>, t: seq<byte>)
    requires c != []
    ensures c == [c[0]] + c[1..] && c + t == [c[0]] + (c[1..] + t)
  {
  }

  lemma {:induction false} VarintRoundTrip(x: nat, t: seq<byte>, end: End, i: nat)
    requires i <= 9 && x < Room(i)
    ensures ReadVarint(Varint(x) + t, end, i) == Ok(x, t)
    decreases 9 - i
  {
    if x < 128 {
      ReadVarintLast(x, t, end, i);
    } else {
      VarintRoundTrip(x / 128, t, end, i + 1);
      FirstOf(Varint(x), t);
      assert Varint(x)[1..] == Varint(x / 128);
      ReadVarintMore(128 + x % 128, Varint(x / 128) + t, end, i);
    }
  }

  /** A reader that accepts bytes c looks at nothing after them, and at nothing of how the stream ends. */
  lemma {:induction false} VarintLocal(c: seq<byte>, t: seq<byte>, t': seq<byte>, end: End, end': End, i: nat)
    requires i <= 10 && ReadVarint(c + t, end, i).Ok? && ReadVarint(c + t, end, i).rest == t
    ensures ReadVarint(c + t', end', i) == Ok(ReadVarint(c + t, end, i).value, t')
    decreases 10 - i
  {
    assert c != [] by { assert |c + t| > |t|; }
    FirstOf(c, t);
    FirstOf(c, t');
    var p := c[1..];
    if c[0] >= 128 {
      ReadVarintMore(c[0], p + t, end, i);
      ReadVarintMore(c[0], p + t', end', i);
      VarintLocal(p, t, t', end, end', i + 1);
    } else {
      ReadVarintLast(c[0], p + t, end, i);
      assert |p + t| == |t|;
      assert p + t' == t';
      ReadVarintLast(c[0], t', end', i);
    }
  }

  /** Cut short anywhere, the same bytes give the error of that cut. */
  lemma {:induction false} VarintCut(c: seq<byte>, t: seq<byte>, end: End, end': End, i: nat, k: nat)
    requires i <= 10 && ReadVarint(c + t, end, i).Ok? && ReadVarint(c + t, end, i).rest == t
    requires k < |c|
    ensures ReadVarint(c[..k], end', i) == Fail(Cut(end', i + k), [])
    decreases 10 - i
  {
    FirstOf(c, t);
    var p := c[1..];
    if k > 0 {
      if c[0] < 128 {
        ReadVarintLast(c[0], p + t, end, i);
        assert false;
      } else {
        ReadVarintMore(c[0], p + t, end, i);
        VarintCut(p, t, end, end', i + 1, k - 1);
        assert c[..k] == [c[0]] + p[..k - 1];
        ReadVarintMore(c[0], p[..k - 1], end', i);
      }
    }
  }

  /** io.ReadFull of n bytes. */
  function ReadFull(s: seq<byte>, end: End, n: nat): (r: Read<seq<byte>>)
    ensures r.Ok? <==> n <= |s|
    ensures r.Ok? ==> r.value + r.rest == s && |r.value| == n
  {
    if n <= |s| then Ok(s[..n], s[n..]) else Fail(Cut(end, |s|), [])
  }

  // ---------- Objects ----------

  datatype Object = Object(seqNo: u64, pts: u64, keyframe: bool, payload: seq<byte>)

  predicate Sendable(o: Object) { |o.payload| <= MAX_OBJECT }

  predicate AllSendable(objs: seq<Object>) { forall i :: 0 <= i < |objs| ==> Sendable(objs[i]) }

  function EncodeObject(o: Object): (r: seq<byte>)
    ensures |r| >= 1
  {
    Varint(o.seqNo) + (Varint(o.pts) + ([if o.keyframe then 1 else 0] + (Varint(|o.payload|) + o.payload)))
  }

  /** The length prefix and the payload. */
  function ReadPayload(s: seq<byte>, end: End): (r: Read<seq<byte>>)
    ensures r.Ok? ==> |r.rest| < |s|
  {
    match ReadVarint(s, end, 0)
    case Fail(e, rest) => Fail(Unexpected(e), rest)
    case Ok(n, rest) =>
      if n > MAX_OBJECT then Fail(ObjectTooLarge, rest)
      else match ReadFull(rest, end, n)
        case Fail(e, rest) => Fail(Unexpected(e), rest)
        case Ok(p, rest) => Ok(p, rest)
  }

  /** The flags byte, of which only bit 0 is kept, then the payload. */
  function ReadFlags(s: seq<byte>, end: End): (r: Read<(bool, seq<byte>)>)
    ensures r.Ok? ==> |r.rest| < |s|
  {
    if s == [] then Fail(Unexpected(Cut(end, 0)), s)
    else match ReadPayload(s[1..], end)
      case Fail(e, rest) => Fail(e, rest)
      case Ok(p, rest) => Ok((s[0] % 2 == 1, p), rest)
  }

  function ReadBody(s: seq<byte>, end: End): (r: Read<(nat, bool, seq<byte>)>)
    ensures r.Ok? ==> |r.rest| < |s|
  {
    match ReadVarint(s, end, 0)
    case Fail(e, rest) => Fail(Unexpected(e), rest)
    case Ok(pts, rest) =>
      match ReadFlags(rest, end)
      case Fail(e, rest) => Fail(e, rest)
      case Ok(v, rest) => Ok((pts, v.0, v.1), rest)
  }

  /** ReadObject. */
  function ReadObject(s: seq<byte>, end: End): (r: Read<Object>)
    ensures r.Ok? ==> |r.rest| < |s| && Sendable(r.value)
  {
    match ReadVarint(s, end, 0)
    case Fail(e, rest) => Fail(e, rest)
    case Ok(seqNo, rest) =>
      match ReadBody(rest, end)
      case Fail(e, rest) => Fail(e, rest)
      case Ok(v, rest') =>
        VarintFits(s, end, 0);
        VarintFits(rest, end, 0);
        RoomIsU64();
        Ok(Object(seqNo, v.0, v.1, v.2), rest')
  }

  // ---------- One object: round trip, locality, cuts ----------

  lemma Assoc(a: seq<byte>, b: seq<byte>, c: seq<byte>)
    ensures (a + b) + c == a + (b + c)
  {
  }

  /** Readers leave a suffix of what they were given. */
  lemma {:induction false} VarintTail(s: seq<byte>, end: End, i: nat)
    requires i <= 10
    ensures var r := ReadVarint(s, end, i); r.Ok? ==> r.rest == s[|s| - |r.rest|..]
    decreases 10 - i
  {
    if i < 10 && s != [] && s[0] >= 128 { VarintTail(s[1..], end, i + 1); }
  }

  /** The varint at the front of c + t ends inside c: cut c there. */
  lemma VarintSplit(c: seq<byte>, t: seq<byte>, end: End) returns (h: seq<byte>, p: seq<byte>)
    requires ReadVarint(c + t, end, 0).Ok? && |ReadVarint(c + t, end, 0).rest| >= |t|
    ensures c == h + p && |h| >= 1 && c + t == h + (p + t)
    ensures ReadVarint(h + (p + t), end, 0) == ReadVarint(c + t, end, 0)
    ensures ReadVarint(c + t, end, 0).rest == p + t
  {
    VarintTail(c + t, end, 0);
    var d := |c + t| - |ReadVarint(c + t, end, 0).rest|;
    h, p := c[..d], c[d..];
    Assoc(h, p, t);
    assert (c + t)[d..] == p + t;
  }

  /** What a prefix of h + p looks like. */
  lemma Prefix(h: seq<byte>, p: seq<byte>, k: nat)
    requires k <= |h| + |p|
    ensures k <= |h| ==> (h + p)[..k] == h[..k]
    ensures k >= |h| ==> (h + p)[..k] == h + p[..k - |h|]
  {
  }

  /** Cutting c = h + p cuts either the varint h or what follows it. */
  lemma FrontCut(h: seq<byte>, p: seq<byte>, t: seq<byte>, end: End, end': End, k: nat)
    requires ReadVarint(h + (p + t), end, 0).Ok? && ReadVarint(h + (p + t), end, 0).rest == p + t
    requires k <= |h| + |p|
    ensures k < |h| ==> ReadVarint((h + p)[..k], end', 0) == Fail(Cut(end', k), [])
    ensures k >= |h| ==> (h + p)[..k] == h + p[..k - |h|]
    ensures k >= |h| ==>
              ReadVarint(h + p[..k - |h|], end', 0) == Ok(ReadVarint(h + (p + t), end, 0).value, p[..k - |h|])
  {
    Prefix(h, p, k);
    if k < |h| {
      VarintCut(h, p + t, end, end', 0, k);
    } else {
      VarintLocal(h, p + t, p[..k - |h|], end, end', 0);
    }
  }

  lemma PayloadLocal(c: seq<byte>, t: seq<byte>, t': seq<byte>, end: End, end': End)
    requires ReadPayload(c + t, end).Ok? && ReadPayload(c + t, end).rest == t
    ensures ReadPayload(c + t', end') == Ok(ReadPayload(c + t, end).value, t')
  {
    var h, p := VarintSplit(c, t, end);
    var n := ReadVarint(c + t, end, 0).value;
    assert |p| == n && (p + t)[..n] == p && (p + t')[..n] == p && (p + t')[n..] == t';
    Assoc(h, p, t');
    VarintLocal(h, p + t, p + t', end, end', 0);
  }

  lemma PayloadCut(c: seq<byte>, t: seq<byte>, end: End, end': End, k: nat)
    requires ReadPayload(c + t, end).Ok? && ReadPayload(c + t, end).rest == t && k < |c|
    ensures ReadPayload(c[..k], end') == Fail(Cut(end', k + 1), [])
  {
    var h, p := VarintSplit(c, t, end);
    assert |p| == ReadVarint(c + t, end, 0).value;
    FrontCut(h, p, t, end, end', k);
  }

  lemma FlagsLocal(c: seq<byte>, t: seq<byte>, t': seq<byte>, end: End, end': End)
    requires ReadFlags(c + t, end).Ok? && ReadFlags(c + t, end).rest == t
    ensures ReadFlags(c + t', end') == Ok(ReadFlags(c + t, end).value, t')
  {
    assert c != [];
    var p := c[1..];
    assert (c + t)[1..] == p + t && (c + t')[1..] == p + t';
    PayloadLocal(p, t, t', end, end');
  }

  lemma FlagsCut(c: seq<byte>, t: seq<byte>, end: End, end': End, k: nat)
    requires ReadFlags(c + t, end).Ok? && ReadFlags(c + t, end).rest == t && k < |c|
    ensures ReadFlags(c[..k], end') == Fail(Cut(end', k + 1), [])
  {
    hide ReadPayload;
    if k > 0 {
      var p := c[1..];
      assert (c + t)[1..] == p + t && c[..k][1..] == p[..k - 1];
      PayloadCut(p, t, end, end', k - 1);
    }
  }

  lemma BodyLocal(c: seq<byte>, t: seq<byte>, t': seq<byte>, end: End, end': End)
    requires ReadBody(c + t, end).Ok? && ReadBody(c + t, end).rest == t
    ensures ReadBody(c + t', end') == Ok(ReadBody(c + t, end).value, t')
  {
    var h, p := VarintSplit(c, t, end);
    Assoc(h, p, t');
    VarintLocal(h, p + t, p + t', end, end', 0);
    FlagsLocal(p, t, t', end, end');
  }

  lemma BodyCut(c: seq<byte>, t: seq<byte>, end: End, end': End, k: nat)
    requires ReadBody(c + t, end).Ok? && ReadBody(c + t, end).rest == t && k < |c|
    ensures ReadBody(c[..k], end') == Fail(Cut(end', k + 1), [])
  {
    hide ReadVarint, ReadFlags, ReadBody;
    var h, p := BodySplit(c, t, end);
    FrontCut(h, p, t, end, end', k);
    if k < |h| {
      BodyFailsEarly(c[..k], end', k);
    } else {
      FlagsCut(p, t, end, end', k - |h|);
      BodyFails(h, p[..k - |h|], end', k - |h|);
    }
  }

  lemma BodySplit(c: seq<byte>, t: seq<byte>, end: End) returns (h: seq<byte>, p: seq<byte>)
    requires ReadBody(c + t, end).Ok? && ReadBody(c + t, end).rest == t
    ensures c == h + p && |h| >= 1
    ensures ReadVarint(h + (p + t), end, 0).Ok? && ReadVarint(h + (p + t), end, 0).rest == p + t
    ensures ReadFlags(p + t, end).Ok? && ReadFlags(p + t, end).rest == t
  {
    hide ReadVarint, ReadFlags;
    h, p := VarintSplit(c, t, end);
  }

  lemma BodyFailsEarly(s: seq<byte>, end: End, k: nat)
    requires ReadVarint(s, end, 0) == Fail(Cut(end, k), [])
    ensures ReadBody(s, end) == Fail(Cut(end, k + 1), [])
  {
  }

  lemma BodyFails(h: seq<byte>, q: seq<byte>, end: End, j: nat)
    requires h != [] && ReadVarint(h + q, end, 0).Ok? && ReadVarint(h + q, end, 0).rest == q
    requires ReadFlags(q, end) == Fail(Cut(end, j + 1), [])
    ensures ReadBody(h + q, end) == Fail(Cut(end, |h| + j + 1), [])
  {
  }

  /** The bytes c of one accepted object, canonical or not: what follows them does not matter. */
  lemma ObjectLocal(c: seq<byte>, t: seq<byte>, t': seq<byte>, end: End, end': End)
    requires ReadObject(c + t, end).Ok? && ReadObject(c + t, end).rest == t
    ensures ReadObject(c + t', end') == Ok(ReadObject(c + t, end).value, t')
  {
    var h, p := VarintSplit(c, t, end);
    Assoc(h, p, t');
    VarintLocal(h, p + t, p + t', end, end', 0);
    BodyLocal(p, t, t', end, end');
  }

  /** The first varint of an accepted object, and what follows it. */
  lemma ObjectSplit(c: seq<byte>, t: seq<byte>, end: End) returns (h: seq<byte>, p: seq<byte>)
    requires ReadObject(c + t, end).Ok? && ReadObject(c + t, end).rest == t
    ensures c == h + p && |h| >= 1
    ensures ReadVarint(h + (p + t), end, 0).Ok? && ReadVarint(h + (p + t), end, 0).rest == p + t
    ensures ReadBody(p + t, end).Ok? && ReadBody(p + t, end).rest == t
  {
    hide ReadVarint, ReadBody;
    h, p := VarintSplit(c, t, end);
  }

  lemma ObjectFailsEarly(s: seq<byte>, end: End, k: nat)
    requires ReadVarint(s, end, 0) == Fail(Cut(end, k), [])
    ensures ReadObject(s, end) == Fail(Cut(end, k), [])
  {
    hide ReadVarint, ReadBody;
  }

  /** Every proper prefix of them is an error, which says exactly whether anything had arrived. */
  lemma ObjectCut(c: seq<byte>, t: seq<byte>, end: End, end': End, k: nat)
    requires ReadObject(c + t, end).Ok? && ReadObject(c + t, end).rest == t && k < |c|
    ensures ReadObject(c[..k], end') == Fail(Cut(end', k), [])
    ensures Cut(end', k) == if end' == Reset then Aborted else if k == 0 then Eof else UnexpectedEof
  {
    hide ReadVarint, ReadBody, ReadObject;
    var h, p := ObjectSplit(c, t, end);
    FrontCut(h, p, t, end, end', k);
    if k < |h| {
      ObjectFailsEarly(c[..k], end', k);
    } else {
      BodyCut(p, t, end, end', k - |h|);
      ObjectFails(h, p[..k - |h|], end', k - |h|);
    }
  }

  lemma ObjectFails(h: seq<byte>, q: seq<byte>, end: End, j: nat)
    requires h != [] && ReadVarint(h + q, end, 0).Ok? && ReadVarint(h + q, end, 0).rest == q
    requires ReadBody(q, end) == Fail(Cut(end, j + 1), [])
    ensures ReadObject(h + q, end) == Fail(Cut(end, |h| + j), [])
  {
  }

  lemma PayloadRoundTrip(p: seq<byte>, t: seq<byte>, end: End)
    requires |p| < U64
    ensures ReadPayload((Varint(|p|) + p) + t, end) ==
            if |p| <= MAX_OBJECT then Ok(p, t) else Fail(ObjectTooLarge, p + t)
  {
    RoomIsU64();
    Assoc(Varint(|p|), p, t);
    VarintRoundTrip(|p|, p + t, end, 0);
    assert (p + t)[..|p|] == p && (p + t)[|p|..] == t;
  }

  /** Of the flags byte only the lowest bit is read. */
  lemma LowestBit(f: byte, p: seq<byte>, t: seq<byte>, end: End)
    requires |p| < U64
    ensures ReadFlags(([f] + (Varint(|p|) + p)) + t, end) ==
            if |p| <= MAX_OBJECT then Ok((f % 2 == 1, p), t) else Fail(ObjectTooLarge, p + t)
  {
    hide Varint, ReadPayload, ReadFlags;
    Assoc([f], Varint(|p|) + p, t);
    FlagsThen(f, (Varint(|p|) + p) + t, end);
    PayloadRoundTrip(p, t, end);
  }

  lemma FlagsThen(f: byte, s: seq<byte>, end: End)
    ensures ReadFlags([f] + s, end) ==
            var r := ReadPayload(s, end); if r.Ok? then Ok((f % 2 == 1, r.value), r.rest) else Fail(r.error, r.rest)
  {
    hide ReadPayload;
    assert ([f] + s)[1..] == s;
  }

  lemma FlagsRoundTrip(keyframe: bool, p: seq<byte>, t: seq<byte>, end: End)
    requires |p| < U64
    ensures ReadFlags(([if keyframe then 1 else 0] + (Varint(|p|) + p)) + t, end) ==
            if |p| <= MAX_OBJECT then Ok((keyframe, p), t) else Fail(ObjectTooLarge, p + t)
  {
    hide ReadFlags, Varint;
    LowestBit(if keyframe then 1 else 0, p, t, end);
  }

  /** An object whose flags byte is any byte is read as that object, a key frame if and only if the byte is odd. */
  lemma AnyFlags(o: Object, f: byte, t: seq<byte>, end: End)
    requires |o.payload| <= 8 * 1024 * 1024
    ensures ReadObject((Varint(o.seqNo) + (Varint(o.pts) + ([f] + (Varint(|o.payload|) + o.payload)))) + t, end)
            == Ok(o.(keyframe := f % 2 == 1), t)
  {
    RoomIsU64();
    var b := [f] + (Varint(|o.payload|) + o.payload);
    Assoc(Varint(o.seqNo), Varint(o.pts) + b, t);
    VarintRoundTrip(o.seqNo, (Varint(o.pts) + b) + t, end, 0);
    LowestBit(f, o.payload, t, end);
    BodyRoundTrip(o.pts, b, t, end);
  }

  lemma BodyRoundTrip(pts: u64, f: seq<byte>, t: seq<byte>, end: End)
    requires var r := ReadFlags(f + t, end); r.Ok? || r.error != Eof
    ensures var r := ReadFlags(f + t, end);
            ReadBody((Varint(pts) + f) + t, end) ==
            if r.Ok? then Ok((pts, r.value.0, r.value.1), r.rest) else Fail(r.error, r.rest)
  {
    RoomIsU64();
    Assoc(Varint(pts), f, t);
    VarintRoundTrip(pts, f + t, end, 0);
  }

  /** ReadObject undoes EncodeObject exactly for the payloads within the reader's limit. The writer does
      not check the limit; past it the reader stops in front of the payload. */
  lemma ObjectRoundTrip(o: Object, t: seq<byte>, end: End)
    requires |o.payload| < U64
    ensures ReadObject(EncodeObject(o) + t, end) == Ok(o, t) <==> |o.payload| <= 8 * 1024 * 1024
    ensures |o.payload| > 8 * 1024 * 1024 ==>
              ReadObject(EncodeObject(o) + t, end) == Fail(ObjectTooLarge, o.payload + t)
  {
    RoomIsU64();
    var f := [if o.keyframe then 1 else 0] + (Varint(|o.payload|) + o.payload);
    var b := Varint(o.pts) + f;
    Assoc(Varint(o.seqNo), b, t);
    VarintRoundTrip(o.seqNo, b + t, end, 0);
    FlagsRoundTrip(o.keyframe, o.payload, t, end);
    BodyRoundTrip(o.pts, f, t, end);
  }
}
