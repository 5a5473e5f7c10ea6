/** Which accepted bytes a relay forwards unchanged. Decoding and re-encoding keeps the values; it keeps the bytes
    exactly where every varint is as short as it can be and the flags byte has no bit but the lowest. */
module WireCanonical {
  import opened Basics
  import opened Wire
  import opened WireStreams

  /** How far the varint at the front of s reaches: past its first byte without the high bit. */
  function VarintEnd(s: seq<byte>): (n: nat)
    ensures n <= |s| && (s != [] ==> n >= 1)
  {
    if s == [] then 0 else if s[0] < 128 then 1 else 1 + VarintEnd(s[1..])
  }

  /** The varint at the front of s has one byte, or its last byte is not 0. */
  predicate MinimalFront(s: seq<byte>) {
    var n := VarintEnd(s);
    n == 1 || (n > 1 && s[n - 1] != 0)
  }

  lemma {:induction false} EndOfVarint(s: seq<byte>, end: End, i: nat)
    requires i <= 10 && ReadVarint(s, end, i).Ok?
    ensures var r, n := ReadVarint(s, end, i), VarintEnd(s);
            && n >= 1 && r.rest == s[n..] && (n == 1 ==> r.value == s[0]) && (s[n - 1] != 0 ==> r.value > 0)
    decreases 10 - i
  {
    if s[0] >= 128 {
      EndOfVarint(s[1..], end, i + 1);
    }
  }

  lemma MinimalLater(s: seq<byte>)
    requires s != [] && s[0] >= 128 && VarintEnd(s[1..]) >= 1
    ensures MinimalFront(s) <==> s[1..][VarintEnd(s[1..]) - 1] != 0
  {
  }

  lemma VarintLater(b: byte, v: nat)
    requires b >= 128
    ensures Varint(b - 128 + 128 * v) == if v == 0 then [b - 128] else [b] + Varint(v)
  {
    var x := b - 128 + 128 * v;
    if v > 0 {
      assert x % 128 == b - 128 && x / 128 == v;
    }
  }

  /** How an accepted varint begins. */
  lemma ReadFirst(s: seq<byte>, end: End, i: nat)
    requires i <= 10 && ReadVarint(s, end, i).Ok?
    ensures s != [] && i < 10
    ensures s[0] < 128 ==> ReadVarint(s, end, i) == Ok(s[0], s[1..])
    ensures s[0] >= 128 ==>
              var r := ReadVarint(s[1..], end, i + 1);
              r.Ok? && ReadVarint(s, end, i) == Ok(s[0] - 128 + 128 * r.value, r.rest)
  {
  }

  lemma {:induction false} MinimalIff(s: seq<byte>, end: End, i: nat)
    requires i <= 10 && ReadVarint(s, end, i).Ok?
    ensures var r := ReadVarint(s, end, i); Varint(r.value) + r.rest == s <==> MinimalFront(s)
    decreases 10 - i
  {
    hide ReadVarint, Varint, MinimalFront, VarintEnd;
    EndOfVarint(s, end, i);
    ReadFirst(s, end, i);
    var r := ReadVarint(s, end, i);
    if s[0] < 128 {
      ShortIff(s);
    } else {
      var tail := s[1..];
      EndOfVarint(tail, end, i + 1);
      MinimalIff(tail, end, i + 1);
      var v := ReadVarint(tail, end, i + 1).value;
      LaterIff(s, v, r.rest);
    }
  }

  lemma ShortIff(s: seq<byte>)
    requires s != [] && s[0] < 128
    ensures Varint(s[0]) + s[1..] == s && MinimalFront(s)
  {
    assert [s[0]] + s[1..] == s;
  }

  lemma MinimalTail(s: seq<byte>)
    requires VarintEnd(s) >= 1
    ensures MinimalFront(s) <==> VarintEnd(s) == 1 || s[VarintEnd(s) - 1] != 0
  {
    hide VarintEnd;
  }

  lemma LaterIff(s: seq<byte>, v: nat, rest: seq<byte>)
    requires s != [] && s[0] >= 128 && VarintEnd(s[1..]) >= 1 && |rest| < |s[1..]|
    requires Varint(v) + rest == s[1..] <==> MinimalFront(s[1..])
    requires var n := VarintEnd(s[1..]); (n == 1 ==> v == s[1..][0]) && (s[1..][n - 1] != 0 ==> v > 0)
    ensures Varint(s[0] - 128 + 128 * v) + rest == s <==> MinimalFront(s)
  {
    hide Varint, MinimalFront, VarintEnd;
    MinimalLater(s);
    VarintLater(s[0], v);
    MinimalTail(s[1..]);
    if v == 0 {
      assert |[s[0] - 128] + rest| < |s|;
    } else {
      SameFront(s[0], Varint(v) + rest, s);
      assert [s[0]] + Varint(v) + rest == [s[0]] + (Varint(v) + rest);
    }
  }

  lemma SameFront(b: byte, x: seq<byte>, s: seq<byte>)
    requires s != []
    ensures [b] + x == s <==> b == s[0] && x == s[1..]
  {
    assert s == [s[0]] + s[1..];
    assert ([b] + x)[1..] == x;
  }

  /** What is written in place of the varint at the front of s, and x after it, is s exactly if the varint is minimal
      and x is the rest. */
  lemma FrontIff(s: seq<byte>, end: End, x: seq<byte>)
    requires ReadVarint(s, end, 0).Ok?
    ensures var r := ReadVarint(s, end, 0); Varint(r.value) + x == s <==> MinimalFront(s) && x == r.rest
  {
    hide ReadVarint, Varint, MinimalFront;
    var r := ReadVarint(s, end, 0);
    MinimalIff(s, end, 0);
    VarintFits(s, end, 0);
    if Varint(r.value) + x == s {
      VarintRoundTrip(r.value, x, end, 0);
    }
  }

  // ---------- Objects ----------

  function AfterVarint(s: seq<byte>): seq<byte> { s[VarintEnd(s)..] }

  predicate CanonicalFlags(s: seq<byte>) { s != [] && s[0] <= 1 && MinimalFront(s[1..]) }

  /** The three varints of the object at the front of s are minimal and its flags byte is 0 or 1. */
  predicate CanonicalObject(s: seq<byte>) {
    MinimalFront(s) && MinimalFront(AfterVarint(s)) && CanonicalFlags(AfterVarint(AfterVarint(s)))
  }

  lemma PayloadIff(s: seq<byte>, end: End, x: seq<byte>)
    requires ReadPayload(s, end).Ok?
    ensures var r := ReadPayload(s, end);
            Varint(|r.value|) + (r.value + x) == s <==> MinimalFront(s) && x == r.rest
  {
    hide ReadVarint, Varint, MinimalFront;
    var r := ReadPayload(s, end);
    FrontIff(s, end, r.value + x);
    SameTail(r.value, x, r.rest);
  }

  lemma SameTail(h: seq<byte>, x: seq<byte>, y: seq<byte>)
    ensures h + x == h + y <==> x == y
  {
    if h + x == h + y {
      assert (h + x)[|h|..] == x && (h + y)[|h|..] == y;
    }
  }

  lemma FlagsIff(s: seq<byte>, end: End, x: seq<byte>)
    requires ReadFlags(s, end).Ok?
    ensures var (f, p) := ReadFlags(s, end).value;
            [if f then 1 else 0] + (Varint(|p|) + (p + x)) == s <==> CanonicalFlags(s) && x == ReadFlags(s, end).rest
  {
    hide ReadPayload, Varint, MinimalFront;
    var (f, p) := ReadFlags(s, end).value;
    PayloadIff(s[1..], end, x);
    SameFront(if f then 1 else 0, Varint(|p|) + (p + x), s);
    assert (if f then 1 else 0) == s[0] <==> s[0] <= 1;
  }

  /** The bytes EncodeObject writes, then x. */
  lemma EncodedThen(o: Object, x: seq<byte>)
    ensures var flag: byte := if o.keyframe then 1 else 0;
            EncodeObject(o) + x
            == Varint(o.seqNo) + (Varint(o.pts) + ([flag] + (Varint(|o.payload|) + (o.payload + x))))
  {
    var flag: byte := if o.keyframe then 1 else 0;
    var d := Varint(|o.payload|);
    var c := [flag] + (d + o.payload);
    var b := Varint(o.pts) + c;
    Assoc(d, o.payload, x);
    Assoc([flag], d + o.payload, x);
    Assoc(Varint(o.pts), c, x);
    Assoc(Varint(o.seqNo), b, x);
    assert EncodeObject(o) == Varint(o.seqNo) + b;
  }

  /** Re-encoding an accepted object gives back its bytes if and only if they are canonical. */
  lemma ObjectUnchangedIff(s: seq<byte>, end: End, x: seq<byte>)
    requires ReadObject(s, end).Ok?
    ensures var r := ReadObject(s, end); EncodeObject(r.value) + x == s <==> CanonicalObject(s) && x == r.rest
  {
    hide ReadVarint, ReadFlags, Varint, MinimalFront, CanonicalFlags, EncodeObject, VarintEnd;
    var o := ReadObject(s, end).value;
    var s1 := ReadVarint(s, end, 0).rest;
    var s2 := ReadVarint(s1, end, 0).rest;
    var flag: byte := if o.keyframe then 1 else 0;
    var c := [flag] + (Varint(|o.payload|) + (o.payload + x));
    EncodedThen(o, x);
    EndOfVarint(s, end, 0);
    EndOfVarint(s1, end, 0);
    FlagsIff(s2, end, x);
    FrontIff(s1, end, c);
    FrontIff(s, end, Varint(o.pts) + c);
  }

  // ---------- Headers and streams ----------

  /** The name's length and the group number are minimal varints, for a name of length n. */
  predicate CanonicalHeader(s: seq<byte>, n: nat) {
    && MinimalFront(s)
    && n <= |AfterVarint(s)| && MinimalFront(AfterVarint(s)[n..])
  }

  lemma HeaderUnchangedIff(s: seq<byte>, end: End, x: seq<byte>)
    requires ReadHeader(s, end).Ok?
    ensures var r := ReadHeader(s, end);
            EncodeHeader(r.value) + x == s <==> CanonicalHeader(s, |r.value.name|) && x == r.rest
  {
    hide ReadVarint, Varint, MinimalFront, VarintEnd;
    var h := ReadHeader(s, end).value;
    var s1 := ReadVarint(s, end, 0).rest;
    var s2 := s1[|h.name|..];
    EndOfVarint(s, end, 0);
    assert s1 == h.name + s2;
    Assoc(Varint(|h.name|), h.name + Varint(h.seqNo), x);
    Assoc(h.name, Varint(h.seqNo), x);
    FrontIff(s, end, h.name + (Varint(h.seqNo) + x));
    FrontIff(s2, end, x);
    SameTail(h.name, Varint(h.seqNo) + x, s2);
  }

  /** s is whole objects, each canonical. */
  predicate CanonicalObjects(s: seq<byte>, end: End)
    decreases |s|
  {
    s == []
    || (var r := ReadObject(s, end); r.Ok? && CanonicalObject(s) && CanonicalObjects(r.rest, end))
  }

  lemma {:induction false} ObjectsUnchangedIff(s: seq<byte>, end: End)
    ensures EncodeAll(ReadObjects(s, end).objs) == s <==> CanonicalObjects(s, end)
    decreases |s|
  {
    hide ReadObject, EncodeObject, CanonicalObject;
    var r := ReadObject(s, end);
    if r.Ok? {
      ObjectsUnchangedIff(r.rest, end);
      var later := ReadObjects(r.rest, end).objs;
      ObjectUnchangedIff(s, end, EncodeAll(later));
      assert ([r.value] + later)[1..] == later;
    }
  }

  /** A relay forwards a group stream byte for byte if and only if its header and its objects are canonical and it
      ends with a whole object. */
  lemma HopUnchangedIff(s: seq<byte>, end: End)
    ensures var r := ReadHeader(s, end);
            Hop(s, end) == Some(s) <==> r.Ok? && CanonicalHeader(s, |r.value.name|) && CanonicalObjects(r.rest, end)
  {
    hide ReadHeader, EncodeHeader, CanonicalHeader, CanonicalObjects, ReadObjects, EncodeAll;
    var r := ReadHeader(s, end);
    if r.Ok? {
      var objs := ReadObjects(r.rest, end).objs;
      HeaderUnchangedIff(s, end, EncodeAll(objs));
      ObjectsUnchangedIff(r.rest, end);
    }
  }
}
