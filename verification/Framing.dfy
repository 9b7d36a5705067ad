/**
 Content-Length framing (agent/main.cpp, readHeaderLine, headerIs, readFrame, the
 reader loop in main, and the Writer's output; the Header Part of the LSP 3.17
 base protocol). Bytes are modelled as characters.
 */
module Framing {
  import opened Wrappers

  const ULONG_MAX: nat := 0xFFFF_FFFF_FFFF_FFFF

  const NAME: string := "Content-Length:"

  // ---- Lines -------------------------------------------------------------

  function FirstNewline(s: string): (k: nat)
    ensures k <= |s|
    ensures k < |s| ==> s[k] == '\n'
    ensures forall i :: 0 <= i < k ==> s[i] != '\n'
  {
    if s == [] || s[0] == '\n' then 0 else 1 + FirstNewline(s[1..])
  }

  function Chomp(line: string): string {
    if line != [] && line[|line| - 1] == '\r' then line[..|line| - 1] else line
  }

  /** The next header line and what follows it; None at end of input. */
  function ReadLine(s: string): (r: Option<(string, string)>)
    ensures r.Some? ==> |r.value.1| < |s|
  {
    var k := FirstNewline(s);
    if k == |s| then None else Some((Chomp(s[..k]), s[k + 1..]))
  }

  function Lower(c: char): char {
    if 'A' <= c <= 'Z' then c - 'A' + 'a' else c
  }

  predicate IsLength(line: string) {
    |NAME| <= |line| && forall i :: 0 <= i < |NAME| ==> Lower(line[i]) == Lower(NAME[i])
  }

  // ---- strtoul -----------------------------------------------------------

  predicate IsSpace(c: char) {
    c == ' ' || c == '\t' || c == '\n' || c == '\U{000B}' || c == '\U{000C}' || c == '\r'
  }

  function SkipSpace(s: string): string {
    if s != [] && IsSpace(s[0]) then SkipSpace(s[1..]) else s
  }

  function Digits(s: string, acc: nat): nat
    decreases |s|
  {
    if s != [] && '0' <= s[0] <= '9' then Digits(s[1..], acc * 10 + (s[0] - '0') as nat) else acc
  }

  function ParseLength(s: string): nat {
    var t := SkipSpace(s);
    var minus := t != [] && t[0] == '-';
    var v := Digits(if t != [] && (t[0] == '-' || t[0] == '+') then t[1..] else t, 0);
    if v > ULONG_MAX then ULONG_MAX
    else if minus && v > 0 then ULONG_MAX + 1 - v
    else v
  }

  // ---- Frames ------------------------------------------------------------

  datatype Header = Header(length: Option<nat>, any: bool, rest: string)

  /** Reads lines up to the blank one. The last Content-Length wins. */
  function ReadHeader(s: string, length: Option<nat>, any: bool): (r: Option<Header>)
    ensures r.Some? ==> |r.value.rest| < |s|
    decreases |s|
  {
    var line := ReadLine(s);
    if line.None? then None
    else if line.value.0 == "" then Some(Header(length, any, line.value.1))
    else ReadHeader(line.value.1, if IsLength(line.value.0) then Some(ParseLength(line.value.0[|NAME|..])) else length, true)
  }

  datatype FrameRead = Frame(body: string, rest: string) | Malformed(reported: bool, rest: string) | Eof

  function ReadFrame(s: string): (r: FrameRead)
    ensures !r.Eof? ==> |r.rest| < |s|
  {
    match ReadHeader(s, None, false)
    case None => Eof
    case Some(Header(None, any, rest)) => Malformed(any, rest)
    case Some(Header(Some(n), _, rest)) => if |rest| < n then Eof else Frame(rest[..n], rest[n..])
  }

  /** What the reader loop makes of the input: a message handed on, or one
      null-id error sent. */
  datatype Got = Body(text: string) | Report

  function Session(s: string): seq<Got>
    decreases |s|
  {
    match ReadFrame(s)
    case Eof => []
    case Frame(body, rest) => [Body(body)] + Session(rest)
    case Malformed(reported, rest) => (if reported then [Report] else []) + Session(rest)
  }

  // ---- The reader's loops ------------------------------------------------

  class Input {
    var rest: string

    constructor (s: string)
      ensures rest == s
    {
      rest := s;
    }

    /** readHeaderLine: one byte at a time. */
    method ReadHeaderLine() returns (line: Option<string>)
      modifies this
      ensures ReadLine(old(rest)).None? <==> line.None?
      ensures line.Some? ==> ReadLine(old(rest)) == Some((line.value, rest))
      ensures line.None? ==> rest == []
    {
      var text := "";
      ghost var s := rest;
      ghost var k := FirstNewline(s);
      while rest != []
        invariant |text| <= k && text == s[..|text|] && rest == s[|text|..]
        decreases |rest|
      {
        var c := rest[0];
        rest := rest[1..];
        if c == '\n' {
          assert |text| == k;
          return Some(Chomp(text));
        }
        text := text + [c];
      }
      return None;
    }

    /** readExact: the kernel may answer any positive part of what is asked. */
    method ReadExact(n: nat) returns (out: Option<string>)
      modifies this
      ensures out.Some? <==> n <= |old(rest)|
      ensures out.Some? ==> out.value == old(rest)[..n] && rest == old(rest)[n..]
    {
      var got := "";
      while |got| < n
        invariant |got| <= n && got + rest == old(rest)
        decreases n - |got|
      {
        if rest == [] { return None; }
        var r: nat :| 1 <= r <= n - |got| && r <= |rest|;
        got := got + rest[..r];
        rest := rest[r..];
      }
      out := Some(got);
    }

    method ReadFrameBytes() returns (r: FrameRead)
      modifies this
      ensures r == ReadFrame(old(rest))
      ensures !r.Eof? ==> rest == r.rest
    {
      ghost var s := rest;
      var length: Option<nat> := None;
      var any := false;
      while true
        invariant ReadHeader(s, None, false) == ReadHeader(rest, length, any)
        decreases |rest|
      {
        var line := ReadHeaderLine();
        if line.None? { return Eof; }
        if line.value == "" { break; }
        any := true;
        if IsLength(line.value) {
          length := Some(ParseLength(line.value[|NAME|..]));
        }
      }
      assert ReadHeader(s, None, false) == Some(Header(length, any, rest));
      if length.None? {
        return Malformed(any, rest);
      }
      var body := ReadExact(length.value);
      r := if body.Some? then Frame(body.value, rest) else Eof;
    }

    /** One turn of the reader loop of main. */
    method ServeOne() returns (got: seq<Got>, more: bool)
      modifies this
      ensures Session(old(rest)) == got + (if more then Session(rest) else [])
      ensures more ==> |rest| < |old(rest)|
    {
      var r := ReadFrameBytes();
      match r
      case Eof =>
        got, more := [], false;
      case Frame(body, _) =>
        got, more := [Body(body)], true;
      case Malformed(reported, _) =>
        got, more := if reported then [Report] else [], true;
    }

    method Serve() returns (got: seq<Got>)
      modifies this
      ensures got == Session(old(rest))
    {
      got := [];
      var more := true;
      ghost var all, left := Session(rest), Session(rest);
      while more
        invariant all == got + left && left == if more then Session(rest) else []
        decreases if more then |rest| + 1 else 0
      {
        var some;
        some, more := ServeOne();
        left := if more then Session(rest) else [];
        assert got + (some + left) == (got + some) + left;
        got := got + some;
      }
    }
  }

  // ---- Writing -----------------------------------------------------------

  function Decimal(n: nat): (s: string)
    ensures s != []
    ensures forall i :: 0 <= i < |s| ==> '0' <= s[i] <= '9'
  {
    if n < 10 then [(n as char) + '0'] else Decimal(n / 10) + [((n % 10) as char) + '0']
  }

  /** What the writer puts on the wire for one frame. */
  function Written(body: string): string {
    "Content-Length: " + Decimal(|body|) + "\r\n\r\n" + body
  }

  lemma {:induction false} DigitsAppend(s: string, acc: nat, d: char)
    requires '0' <= d <= '9' && forall i :: 0 <= i < |s| ==> '0' <= s[i] <= '9'
    ensures Digits(s + [d], acc) == Digits(s, acc) * 10 + (d - '0') as nat
    decreases |s|
  {
    if s == [] {
      assert (s + [d])[1..] == [];
    } else {
      assert (s + [d])[1..] == s[1..] + [d];
      DigitsAppend(s[1..], acc * 10 + (s[0] - '0') as nat, d);
    }
  }

  lemma {:induction false} DigitsOfDecimal(n: nat)
    ensures Digits(Decimal(n), 0) == n
  {
    if n < 10 {
      assert Decimal(n)[1..] == [];
    } else {
      DigitsOfDecimal(n / 10);
      DigitsAppend(Decimal(n / 10), 0, ((n % 10) as char) + '0');
    }
  }

  /** A number is written without leading zeros. */
  lemma {:induction false} NoLeadingZero(n: nat)
    ensures Decimal(n)[0] == '0' ==> n == 0
  {
    if n >= 10 {
      NoLeadingZero(n / 10);
      assert Decimal(n)[0] == Decimal(n / 10)[0];
    }
  }

  predicate AllSpace(s: string) {
    forall i :: 0 <= i < |s| ==> IsSpace(s[i])
  }

  predicate NoDigitFirst(s: string) {
    s == "" || !('0' <= s[0] <= '9')
  }

  lemma {:induction false} SpaceIsSkipped(spaces: string, rest: string)
    requires AllSpace(spaces) && (rest == "" || !IsSpace(rest[0]))
    ensures SkipSpace(spaces + rest) == rest
  {
    if spaces == "" {
      assert spaces + rest == rest;
    } else {
      assert (spaces + rest)[1..] == spaces[1..] + rest;
      SpaceIsSkipped(spaces[1..], rest);
    }
  }

  lemma {:induction false} DigitsStop(s: string, junk: string, acc: nat)
    requires (forall i :: 0 <= i < |s| ==> '0' <= s[i] <= '9') && NoDigitFirst(junk)
    ensures Digits(s + junk, acc) == Digits(s, acc)
    decreases |s|
  {
    if s == "" {
      assert s + junk == junk;
    } else {
      assert (s + junk)[1..] == s[1..] + junk;
      DigitsStop(s[1..], junk, acc * 10 + (s[0] - '0') as nat);
    }
  }

  /** The number after any white space, an optional sign, and before anything that
      is no digit: as written, the complement to 2^64 after a minus, at most
      2^64 - 1. */
  lemma LengthIsParsed(spaces: string, sign: string, n: nat, junk: string)
    requires AllSpace(spaces) && sign in {"", "+", "-"} && NoDigitFirst(junk)
    ensures ParseLength(spaces + (sign + (Decimal(n) + junk)))
         == if n > 0xFFFF_FFFF_FFFF_FFFF then 0xFFFF_FFFF_FFFF_FFFF
            else if sign == "-" && n > 0 then 0x1_0000_0000_0000_0000 - n else n
  {
    var number := Decimal(n) + junk;
    var t := sign + number;
    assert number[0] == Decimal(n)[0];
    SpaceIsSkipped(spaces, t);
    DigitsOfDecimal(n);
    DigitsStop(Decimal(n), junk, 0);
    if sign == "" {
      assert t == number;
    } else {
      assert t[0] == sign[0] && t[1..] == number;
    }
  }

  /** No number, no length. */
  lemma NothingParsesToZero(spaces: string, junk: string)
    requires AllSpace(spaces) && NoDigitFirst(junk) && (junk == "" || (!IsSpace(junk[0]) && junk[0] != '+' && junk[0] != '-'))
    ensures ParseLength(spaces + junk) == 0
  {
    SpaceIsSkipped(spaces, junk);
  }

  lemma ParseDecimal(n: nat)
    requires n <= ULONG_MAX
    ensures ParseLength(" " + Decimal(n)) == n
  {
    DigitsOfDecimal(n);
    assert (" " + Decimal(n))[1..] == Decimal(n);
    assert SkipSpace(" " + Decimal(n)) == Decimal(n);
  }

  // ---- What may arrive on the pipe ---------------------------------------

  predicate IsEol(eol: string) {
    eol == "\n" || eol == "\r\n"
  }

  /** A line that reads back as itself. */
  predicate IsLine(line: string) {
    '\n' !in line && (line != [] ==> line[|line| - 1] != '\r')
  }

  /** A line that neither ends a header block nor carries a length. */
  predicate IsNoise(line: string) {
    IsLine(line) && line != [] && !IsLength(line)
  }

  predicate AllNoise(lines: seq<string>) {
    forall i :: 0 <= i < |lines| ==> IsNoise(lines[i])
  }

  function Text(lines: seq<string>, eol: string): string {
    if lines == [] then "" else lines[0] + eol + Text(lines[1..], eol)
  }

  /** A blank line between frames; a header block without Content-Length; or a
      message, its header in any letter case, with other lines around it. */
  datatype Item =
    | Blank(eol: string)
    | Bad(lines: seq<string>, eol: string)
    | Message(before: seq<string>, name: string, after: seq<string>, eol: string, body: string)

  predicate WellFormed(it: Item) {
    && IsEol(it.eol)
    && match it
       case Blank(_) => true
       case Bad(lines, _) => lines != [] && AllNoise(lines)
       case Message(before, name, after, _, body) =>
         AllNoise(before) && AllNoise(after) && |name| == |NAME| && IsLength(name) && IsLine(name) && |body| <= ULONG_MAX
  }

  function Render(it: Item): string {
    match it
    case Blank(eol) => eol
    case Bad(lines, eol) => Text(lines, eol) + eol
    case Message(before, name, after, eol, body) =>
      Text(before, eol) + (name + " " + Decimal(|body|) + eol) + Text(after, eol) + eol + body
  }

  function Expected(it: Item): seq<Got> {
    match it
    case Blank(_) => []
    case Bad(_, _) => [Report]
    case Message(_, _, _, _, body) => [Body(body)]
  }

  function RenderAll(items: seq<Item>): string {
    if items == [] then "" else Render(items[0]) + RenderAll(items[1..])
  }

  function ExpectedAll(items: seq<Item>): seq<Got> {
    if items == [] then [] else Expected(items[0]) + ExpectedAll(items[1..])
  }

  // ---- Reading it back ---------------------------------------------------

  lemma {:induction false} NewlineAfter(raw: string, rest: string)
    requires '\n' !in raw
    ensures FirstNewline(raw + ['\n'] + rest) == |raw|
  {
    var s := raw + ['\n'] + rest;
    if raw != [] {
      assert s[0] == raw[0] && raw[0] in raw;
      assert s[1..] == raw[1..] + ['\n'] + rest;
      NewlineAfter(raw[1..], rest);
    }
  }

  lemma RawLineReads(raw: string, rest: string)
    requires '\n' !in raw
    ensures ReadLine(raw + ['\n'] + rest) == Some((Chomp(raw), rest))
  {
    var s := raw + ['\n'] + rest;
    NewlineAfter(raw, rest);
    assert s[..|raw|] == raw;
    assert s[|raw| + 1..] == rest;
  }

  lemma LineReads(line: string, eol: string, rest: string)
    requires IsLine(line) && IsEol(eol)
    ensures ReadLine(line + eol + rest) == Some((line, rest))
  {
    if eol == "\n" {
      RawLineReads(line, rest);
    } else {
      RawLineReads(line + ['\r'], rest);
      assert line + ['\r'] + ['\n'] + rest == line + eol + rest;
      assert (line + ['\r'])[..|line|] == line;
    }
  }

  /** A line ends at its newline and gives up one carriage return before it, no
      more. */
  lemma OneReturnIsDropped(text: string, rest: string)
    requires '\n' !in text
    ensures ReadLine(text + "\r\n" + rest) == Some((text, rest))
    ensures (text == "" || text[|text| - 1] != '\r') ==> ReadLine(text + "\n" + rest) == Some((text, rest))
  {
    var raw := text + "\r";
    assert raw[..|raw| - 1] == text;
    assert text + "\r\n" + rest == raw + ['\n'] + rest;
    RawLineReads(raw, rest);
    assert text + "\n" + rest == text + ['\n'] + rest;
    RawLineReads(text, rest);
  }

  lemma {:induction false} NoiseReads(lines: seq<string>, eol: string, rest: string, length: Option<nat>, any: bool)
    requires AllNoise(lines) && IsEol(eol)
    ensures ReadHeader(Text(lines, eol) + rest, length, any) == ReadHeader(rest, length, any || lines != [])
    decreases |lines|
  {
    if lines == [] {
      assert Text(lines, eol) + rest == rest;
    } else {
      var more := Text(lines[1..], eol) + rest;
      assert Text(lines, eol) + rest == lines[0] + eol + more;
      LineReads(lines[0], eol, more);
      assert IsNoise(lines[0]);
      NoiseReads(lines[1..], eol, rest, length, true);
    }
  }

  lemma BlankReads(eol: string, rest: string, length: Option<nat>, any: bool)
    requires IsEol(eol)
    ensures ReadHeader(eol + rest, length, any) == Some(Header(length, any, rest))
  {
    assert "" + eol + rest == eol + rest;
    LineReads("", eol, rest);
  }

  lemma LengthReads(name: string, n: nat, eol: string, rest: string, length: Option<nat>, any: bool)
    requires |name| == |NAME| && IsLength(name) && IsLine(name) && IsEol(eol) && n <= ULONG_MAX
    ensures ReadHeader(name + " " + Decimal(n) + eol + rest, length, any) == ReadHeader(rest, Some(n), true)
  {
    var line := name + " " + Decimal(n);
    assert line == name + (" " + Decimal(n));
    LengthPrefix(name, " " + Decimal(n));
    NumberEnds(name, n);
    LineReads(line, eol, rest);
    ParseDecimal(n);
  }

  /** One letter in either case; other characters as they are. */
  predicate SameLetter(c: char, d: char) {
    || c == d
    || ('a' <= c <= 'z' && d as int == c as int - 32)
    || ('A' <= c <= 'Z' && d as int == c as int + 32)
  }

  lemma LowerIgnoresCase(c: char, d: char)
    ensures Lower(c) == Lower(d) <==> SameLetter(c, d)
  {
  }

  /** A header is the length header exactly when it starts with Content-Length: in
      any mix of capital and small letters. */
  lemma AnyCaseIsLength(line: string)
    ensures IsLength(line) <==> |line| >= 15 && forall i :: 0 <= i < 15 ==> SameLetter(line[i], "Content-Length:"[i])
  {
    forall i | 0 <= i < 15 && i < |line|
      ensures Lower(line[i]) == Lower(NAME[i]) <==> SameLetter(line[i], NAME[i])
    {
      LowerIgnoresCase(line[i], NAME[i]);
    }
  }

  lemma LengthPrefix(name: string, more: string)
    requires |name| == |NAME| && IsLength(name)
    ensures IsLength(name + more) && (name + more)[|NAME|..] == more
  {
    assert forall i :: 0 <= i < |name| ==> (name + more)[i] == name[i];
  }

  lemma NumberEnds(text: string, n: nat)
    requires '\n' !in text
    ensures IsLine(text + " " + Decimal(n))
  {
    var line, d := text + " " + Decimal(n), Decimal(n);
    assert line[|line| - 1] == d[|d| - 1];
    assert '\n' !in d;
  }

  lemma MessageReads(it: Item, rest: string)
    requires WellFormed(it) && it.Message?
    ensures ReadFrame(Render(it) + rest) == Frame(it.body, rest)
  {
    var n := |it.body|;
    var tail := it.eol + (it.body + rest);
    var afters := Text(it.after, it.eol) + tail;
    var headed := it.name + " " + Decimal(n) + it.eol + afters;
    assert Render(it) + rest == Text(it.before, it.eol) + headed;
    NoiseReads(it.before, it.eol, headed, None, false);
    LengthReads(it.name, n, it.eol, afters, None, it.before != []);
    NoiseReads(it.after, it.eol, tail, Some(n), true);
    BlankReads(it.eol, it.body + rest, Some(n), true);
    assert (it.body + rest)[..n] == it.body && (it.body + rest)[n..] == rest;
  }

  /** A message cut short in its body is the end of input. */
  lemma ShortBodyIsEof(it: Item, part: string)
    requires WellFormed(it) && it.Message? && part < it.body
    ensures ReadFrame(Render(it.(body := "")) + "") == Frame("", "")
    ensures ReadFrame(Text(it.before, it.eol) + (it.name + " " + Decimal(|it.body|) + it.eol + (Text(it.after, it.eol) + (it.eol + part)))) == Eof
  {
    var n, tail := |it.body|, it.eol + part;
    var afters := Text(it.after, it.eol) + tail;
    NoiseReads(it.before, it.eol, it.name + " " + Decimal(n) + it.eol + afters, None, false);
    LengthReads(it.name, n, it.eol, afters, None, it.before != []);
    NoiseReads(it.after, it.eol, tail, Some(n), true);
    BlankReads(it.eol, part, Some(n), true);
    MessageReads(it.(body := ""), "");
  }

  /** One item is read as what it is and never consumes what follows. */
  lemma ItemReads(it: Item, rest: string)
    requires WellFormed(it)
    ensures Session(Render(it) + rest) == Expected(it) + Session(rest)
  {
    match it
    case Blank(eol) =>
      BlankReads(eol, rest, None, false);
      assert [] + Session(rest) == Session(rest);
    case Bad(lines, eol) =>
      assert Render(it) + rest == Text(lines, eol) + (eol + rest);
      NoiseReads(lines, eol, eol + rest, None, false);
      BlankReads(eol, rest, None, true);
    case Message(_, _, _, _, _) =>
      MessageReads(it, rest);
  }

  /** Any sequence of messages comes back as it was sent, with blank lines,
      noise lines and bad header blocks anywhere between; each bad block is
      reported exactly once. */
  lemma {:induction false} SessionRoundTrip(items: seq<Item>)
    requires forall i :: 0 <= i < |items| ==> WellFormed(items[i])
    ensures Session(RenderAll(items)) == ExpectedAll(items)
    decreases |items|
  {
    if items != [] {
      ItemReads(items[0], RenderAll(items[1..]));
      SessionRoundTrip(items[1..]);
    }
  }

  function WrittenAll(bodies: seq<string>): string {
    if bodies == [] then "" else Written(bodies[0]) + WrittenAll(bodies[1..])
  }

  lemma WrittenReads(body: string, rest: string)
    requires |body| <= ULONG_MAX
    ensures Session(Written(body) + rest) == [Body(body)] + Session(rest)
  {
    var it := Message([], NAME, [], "\r\n", body);
    assert NAME + " " == "Content-Length: ";
    assert Render(it) == Written(body);
    ItemReads(it, rest);
  }

  /** The writer's own output is one such sequence. */
  lemma {:induction false} WriterRoundTrip(bodies: seq<string>)
    requires forall i :: 0 <= i < |bodies| ==> |bodies[i]| <= ULONG_MAX
    ensures |Session(WrittenAll(bodies))| == |bodies|
    ensures forall i :: 0 <= i < |bodies| ==> Session(WrittenAll(bodies))[i] == Body(bodies[i])
    decreases |bodies|
  {
    if bodies != [] {
      WrittenReads(bodies[0], WrittenAll(bodies[1..]));
      WriterRoundTrip(bodies[1..]);
    }
  }
}
