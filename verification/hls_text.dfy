/** The text the HLS origin prints and the player parses: decimal numbers, lines and prefixes, as Go's
    strconv, strings and bufio.Scanner treat them. */
module HlsText {
  import opened Basics

  /** The largest int. */
  const MAX_INT: int := 0x7FFF_FFFF_FFFF_FFFF

  predicate IsDigit(c: char) { '0' <= c <= '9' }

  function DigitOf(d: nat): (c: char)
    requires d < 10
    ensures IsDigit(c) && ValueOf(c) == d
  {
    '0' + d as char
  }

  function ValueOf(c: char): (d: nat)
    requires IsDigit(c)
    ensures d < 10
  {
    c as int - '0' as int
  }

  /** %d of a non-negative int. */
  function Itoa(n: nat): (s: string)
    ensures s != "" && forall i :: 0 <= i < |s| ==> IsDigit(s[i])
  {
    if n < 10 then [DigitOf(n)] else Itoa(n / 10) + [DigitOf(n % 10)]
  }

  /** The value of a string of digits. */
  function Digits(s: string): Option<nat> {
    if s == "" then None
    else if !IsDigit(s[|s| - 1]) then None
    else if |s| == 1 then Some(ValueOf(s[0]))
    else
      var high := Digits(s[..|s| - 1]);
      if high.None? then None else Some(10 * high.value + ValueOf(s[|s| - 1]))
  }

  /** strconv.Atoi: the value it returns and whether err is nil. A number out of range is clamped. */
  datatype Parsed = Parsed(value: int, ok: bool)

  function Atoi(s: string): Parsed {
    var signed := s != "" && (s[0] == '+' || s[0] == '-');
    var d := Digits(if signed then s[1..] else s);
    if d.None? then Parsed(0, false)
    else if signed && s[0] == '-' then
      if d.value > MAX_INT + 1 then Parsed(-MAX_INT - 1, false) else Parsed(-(d.value as int), true)
    else if d.value > MAX_INT then Parsed(MAX_INT, false) else Parsed(d.value, true)
  }

  lemma {:induction false} DigitsOfItoa(n: nat)
    ensures Digits(Itoa(n)) == Some(n)
  {
    if n >= 10 {
      DigitsOfItoa(n / 10);
      assert Itoa(n)[..|Itoa(n)| - 1] == Itoa(n / 10);
    }
  }

  lemma AtoiOfItoa(n: nat)
    requires n <= MAX_INT
    ensures Atoi(Itoa(n)) == Parsed(n, true)
  {
    DigitsOfItoa(n);
    assert IsDigit(Itoa(n)[0]);
  }

  /** Signed, and out of range: the nearest int, with an error. */
  lemma AtoiOfOthers(n: nat)
    ensures Atoi("+" + Itoa(n)) == Atoi(Itoa(n))
    ensures Atoi("-" + Itoa(n)) == if n <= MAX_INT + 1 then Parsed(-(n as int), true) else Parsed(-MAX_INT - 1, false)
    ensures n > MAX_INT ==> Atoi(Itoa(n)) == Parsed(MAX_INT, false)
  {
    DigitsOfItoa(n);
    assert IsDigit(Itoa(n)[0]);
    assert ("+" + Itoa(n))[1..] == Itoa(n) && ("-" + Itoa(n))[1..] == Itoa(n);
  }

  predicate HasSuffix(s: string, t: string) { |t| <= |s| && s[|s| - |t|..] == t }

  /** strings.CutPrefix. */
  function CutPrefix(s: string, p: string): Option<string> {
    if p <= s then Some(s[|p|..]) else None
  }

  lemma CutPrefixOf(p: string, s: string)
    ensures CutPrefix(p + s, p) == Some(s)
  {
  }

  // ---------- Lines ----------

  predicate IsSpace(c: char) {
    c in {'\t', '\n', 11 as char, 12 as char, '\r', ' ', 133 as char, 160 as char}
  }

  /** A visible ASCII character. */
  predicate Visible(c: char) { '!' <= c <= '~' }

  predicate Plain(l: string) { l != "" && forall i :: 0 <= i < |l| ==> Visible(l[i]) }

  function TrimLeft(s: string): string {
    if s != "" && IsSpace(s[0]) then TrimLeft(s[1..]) else s
  }

  function TrimRight(s: string): string {
    if s != "" && IsSpace(s[|s| - 1]) then TrimRight(s[..|s| - 1]) else s
  }

  /** strings.TrimSpace. */
  function TrimSpace(s: string): string { TrimRight(TrimLeft(s)) }

  lemma TrimPlain(l: string)
    requires Plain(l)
    ensures TrimSpace(l) == l
  {
    assert Visible(l[0]) && Visible(l[|l| - 1]);
  }

  predicate Blank(s: string) { forall i :: 0 <= i < |s| ==> IsSpace(s[i]) }

  lemma {:induction false} TrimLeftTrims(s: string)
    ensures var r := TrimLeft(s);
            && |r| <= |s| && s[|s| - |r|..] == r && Blank(s[..|s| - |r|]) && (r != "" ==> !IsSpace(r[0]))
  {
    if s != "" && IsSpace(s[0]) {
      TrimLeftTrims(s[1..]);
      var r := TrimLeft(s[1..]);
      assert s[..|s| - |r|] == [s[0]] + s[1..][..|s| - 1 - |r|];
    }
  }

  lemma {:induction false} TrimRightTrims(s: string)
    ensures var r := TrimRight(s);
            && |r| <= |s| && s[..|r|] == r && Blank(s[|r|..]) && (r != "" ==> !IsSpace(r[|r| - 1]))
  {
    if s != "" && IsSpace(s[|s| - 1]) {
      TrimRightTrims(s[..|s| - 1]);
      var r := TrimRight(s[..|s| - 1]);
      assert s[|r|..] == s[..|s| - 1][|r|..] + [s[|s| - 1]];
    }
  }

  /** Only white space is trimmed, and all there is at either end. */
  lemma TrimSpaceTrims(s: string) returns (a: string, b: string)
    ensures s == a + TrimSpace(s) + b && Blank(a) && Blank(b)
    ensures var r := TrimSpace(s); r != "" ==> !IsSpace(r[0]) && !IsSpace(r[|r| - 1])
  {
    TrimLeftTrims(s);
    var l := TrimLeft(s);
    TrimRightTrims(l);
    a, b := s[..|s| - |l|], l[|TrimRight(l)|..];
    assert s == a + l && l == TrimRight(l) + b;
    if TrimSpace(s) != "" { assert TrimSpace(s)[0] == l[0]; }
  }

  /** How far the first line of s reaches. */
  function LineEnd(s: string): (n: nat)
    ensures n <= |s| && (n < |s| ==> s[n] == '\n') && forall i :: 0 <= i < n ==> s[i] != '\n'
  {
    if s == "" || s[0] == '\n' then 0 else 1 + LineEnd(s[1..])
  }

  function DropCR(s: string): string {
    if s != "" && s[|s| - 1] == '\r' then s[..|s| - 1] else s
  }

  /** The tokens of bufio.ScanLines; an unfinished last line counts, an empty one does not. */
  function Lines(s: string): seq<string>
    decreases |s|
  {
    if s == "" then []
    else
      var n := LineEnd(s);
      if n == |s| then [DropCR(s)] else [DropCR(s[..n])] + Lines(s[n + 1..])
  }

  /** Lines printed one after the other, each with a newline. */
  function Printed(lines: seq<string>): string {
    if lines == [] then "" else lines[0] + "\n" + Printed(lines[1..])
  }

  lemma FirstLine(l: string, rest: string)
    requires Plain(l)
    ensures Lines(l + "\n" + rest) == [l] + Lines(rest)
  {
    var s := l + "\n" + rest;
    var n := LineEnd(s);
    assert s[|l|] == '\n';
    assert forall i :: 0 <= i < |l| ==> s[i] == l[i] && Visible(l[i]);
    assert n == |l|;
    assert s[..n] == l && s[n + 1..] == rest;
    assert Visible(l[|l| - 1]);
  }

  lemma {:induction false} LinesOfPrinted(lines: seq<string>)
    requires forall i :: 0 <= i < |lines| ==> Plain(lines[i])
    ensures Lines(Printed(lines)) == lines
  {
    if lines != [] {
      LinesOfPrinted(lines[1..]);
      FirstLine(lines[0], Printed(lines[1..]));
    }
  }

  /** Lines that end in a carriage return and a newline read the same. */
  function PrintedCRLF(lines: seq<string>): string {
    if lines == [] then "" else lines[0] + "\r\n" + PrintedCRLF(lines[1..])
  }

  lemma FirstCRLF(l: string, rest: string)
    requires Plain(l)
    ensures Lines(l + "\r\n" + rest) == [l] + Lines(rest)
  {
    var s := l + "\r\n" + rest;
    var n := LineEnd(s);
    assert s[|l|] == '\r' && s[|l| + 1] == '\n';
    assert forall i :: 0 <= i < |l| ==> s[i] == l[i] && Visible(l[i]);
    assert n == |l| + 1;
    assert s[..n] == l + "\r" && s[n + 1..] == rest;
    assert (l + "\r")[..|l|] == l;
  }

  lemma {:induction false} LinesOfCRLF(lines: seq<string>)
    requires forall i :: 0 <= i < |lines| ==> Plain(lines[i])
    ensures Lines(PrintedCRLF(lines)) == lines
  {
    hide Plain;
    if lines != [] {
      LinesOfCRLF(lines[1..]);
      FirstCRLF(lines[0], PrintedCRLF(lines[1..]));
    }
  }

  lemma {:induction false} PrintedMore(lines: seq<string>, l: string)
    ensures Printed(lines + [l]) == Printed(lines) + l + "\n"
  {
    if lines == [] {
      assert ([] + [l])[1..] == [];
    } else {
      PrintedMore(lines[1..], l);
      assert (lines + [l])[1..] == lines[1..] + [l];
    }
  }
}
