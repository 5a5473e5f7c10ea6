/** The readers and writers of internal/proto/wire.go as they run: a reader that advances over a stream in
    place and a writer that appends to one. Every method is proved against the function of the same name. */
module WireIO {
  import opened Basics
  import opened Wire
  import opened WireStreams

  datatype Result<+T> = Value(value: T) | Err(error: Error)

  /** What a caller sees of a read; the bytes left over stay in the reader. */
  function Seen<T>(r: Read<T>): Result<T> {
    match r
    case Ok(v, _) => Value(v)
    case Fail(e, _) => Err(e)
  }

  class Writer {
    var out: seq<byte>

    constructor ()
      ensures out == []
    {
      out := [];
    }

    method Write(b: seq<byte>)
      modifies this
      ensures out == old(out) + b
    {
      out := out + b;
    }

    /** The header is assembled in a buffer and written at once. */
    method WriteGroupHeader(h: Header)
      modifies this
      ensures out == old(out) + EncodeHeader(h)
    {
      var buf: seq<byte> := [];
      buf := buf + Varint(|h.name|);
      buf := buf + h.name;
      buf := buf + Varint(h.seqNo);
      Write(buf);
    }

    /** The length prefix and the message are two writes. */
    method WriteControl(json: seq<byte>)
      modifies this
      ensures out == old(out) + EncodeControl(json)
    {
      Write(BigEndian(|json|));
      Write(json);
    }
  }

  /** The outcome of a varint whose bytes so far came to x and whose next byte weighs w. */
  function Carry(x: int, w: int, r: Read<nat>): Read<int> {
    if r.Ok? then Ok(x + w * r.value, r.rest) else r
  }

  lemma CarryOne(x: int, w: int, s: seq<byte>, end: End, i: nat)
    requires i < 10 && s != [] && s[0] >= 128
    ensures Carry(x, w, ReadVarint(s, end, i)) == Carry(x + w * (s[0] - 128), 128 * w, ReadVarint(s[1..], end, i + 1))
  {
    var next := ReadVarint(s[1..], end, i + 1);
    if next.Ok? { Shift(x, w, s[0] - 128, next.value); }
  }

  lemma CarryNone(r: Read<nat>)
    ensures Carry(0, 1, r) == r
  {
  }

  lemma CarryLast(x: int, w: int, s: seq<byte>, end: End, i: nat)
    requires i <= 10 && (i == 10 || s == [] || s[0] < 128)
    ensures Carry(x, w, ReadVarint(s, end, i)) ==
            if i == 10 then Fail(Overflow, s)
            else if s == [] then Fail(Cut(end, i), s)
            else if i == 9 && s[0] > 1 then Fail(Overflow, s[1..])
            else Ok(x + w * s[0], s[1..])
  {
  }

  lemma Shift(x: int, w: int, b: int, v: int)
    ensures x + w * (b + 128 * v) == (x + w * b) + (128 * w) * v
  {
  }

  class Reader {
    var rest: seq<byte>
    const end: End

    constructor (bytes: seq<byte>, end: End)
      ensures rest == bytes && this.end == end
    {
      rest := bytes;
      this.end := end;
    }

    method ReadByte() returns (r: Result<byte>)
      modifies this
      ensures old(rest) == [] ==> rest == [] && r == Err(Cut(end, 0))
      ensures old(rest) != [] ==> rest == old(rest)[1..] && r == Value(old(rest)[0])
    {
      if rest == [] {
        return Err(Cut(end, 0));
      }
      r := Value(rest[0]);
      rest := rest[1..];
    }

    /** binary.ReadUvarint: at most ten bytes, the value accumulated seven bits at a time. */
    method ReadUvarint() returns (r: Result<nat>)
      modifies this
      ensures var want := ReadVarint(old(rest), end, 0); r == Seen(want) && rest == want.rest
    {
      hide Carry, ReadVarint;
      ghost var want := ReadVarint(rest, end, 0);
      CarryNone(want);
      var x: int, w: int, i := 0, 1, 0;
      while i < 10
        invariant 0 <= i <= 10
        invariant want == Carry(x, w, ReadVarint(rest, end, i))
      {
        if rest == [] || rest[0] < 128 { CarryLast(x, w, rest, end, i); } else { CarryOne(x, w, rest, end, i); }
        var b := ReadByte();
        if b.Err? {
          return Err(if i > 0 && b.error == Eof then UnexpectedEof else b.error);
        }
        if b.value < 128 {
          if i == 9 && b.value > 1 {
            return Err(Overflow);
          }
          return Value(x + w * b.value);
        }
        x := x + w * (b.value - 128);
        w := 128 * w;
        i := i + 1;
      }
      CarryLast(x, w, rest, end, i);
      return Err(Overflow);
    }

    method ReadFully(n: nat) returns (r: Result<seq<byte>>)
      modifies this
      ensures var want := ReadFull(old(rest), end, n); r == Seen(want) && rest == want.rest
    {
      if n <= |rest| {
        r := Value(rest[..n]);
        rest := rest[n..];
      } else {
        r := Err(Cut(end, |rest|));
        rest := [];
      }
    }

    method ReadGroupHeader() returns (r: Result<Header>)
      modifies this
      ensures var want := ReadHeader(old(rest), end); r == Seen(want) && rest == want.rest
    {
      ghost var all := rest;
      var n := ReadUvarint();
      if n.Err? { return Err(n.error); }
      if n.value > MAX_NAME { return Err(NameTooLong); }
      var name := ReadFully(n.value);
      if name.Err? { return Err(Unexpected(name.error)); }
      ghost var tail := rest;
      var seqNo := ReadUvarint();
      if seqNo.Err? { return Err(Unexpected(seqNo.error)); }
      VarintFits(tail, end, 0);
      RoomIsU64();
      return Value(Header(name.value, seqNo.value));
    }

    method ReadNextObject() returns (r: Result<Object>)
      modifies this
      ensures var want := ReadObject(old(rest), end); r == Seen(want) && rest == want.rest
    {
      ghost var s0 := rest;
      var seqNo := ReadUvarint();
      if seqNo.Err? { return Err(seqNo.error); }
      ghost var s1 := rest;
      var pts := ReadUvarint();
      if pts.Err? { return Err(Unexpected(pts.error)); }
      var flags := ReadByte();
      if flags.Err? { return Err(Unexpected(flags.error)); }
      var n := ReadUvarint();
      if n.Err? { return Err(Unexpected(n.error)); }
      if n.value > MAX_OBJECT { return Err(ObjectTooLarge); }
      var p := ReadFully(n.value);
      if p.Err? { return Err(Unexpected(p.error)); }
      VarintFits(s0, end, 0);
      VarintFits(s1, end, 0);
      RoomIsU64();
      return Value(Object(seqNo.value, pts.value, flags.value % 2 == 1, p.value));
    }

    method ReadControlFrame() returns (r: Result<seq<byte>>)
      modifies this
      ensures var want := ReadControl(old(rest), end); r == Seen(want) && rest == want.rest
    {
      var hdr := ReadFully(4);
      if hdr.Err? { return Err(hdr.error); }
      var n := FromBigEndian(hdr.value);
      if n == 0 || n > MAX_CONTROL { return Err(BadFrameSize); }
      r := ReadFully(n);
    }
  }
}
