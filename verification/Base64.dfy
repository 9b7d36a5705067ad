/**
 Base64 as the agent encodes and decodes it (agent/main.cpp, base64Encode and
 base64Decode; section 4 of RFC 4648).
 */
module Base64 {
  import opened Wrappers

  type Byte = n: nat | n < 256
  type Sextet = n: nat | n < 64
  type Bytes = seq<Byte>

  /** A character's value, 64 for one outside the alphabet. */
  function Value(c: char): (v: nat)
    ensures v <= 64
  {
    if 'A' <= c <= 'Z' then (c - 'A') as nat
    else if 'a' <= c <= 'z' then (c - 'a') as nat + 26
    else if '0' <= c <= '9' then (c - '0') as nat + 52
    else if c == '+' then 62
    else if c == '/' then 63
    else 64
  }

  predicate Skipped(c: char) {
    c == '=' || c == '\n' || c == '\r'
  }

  const CAPITALS: string := "ABCDEFGHIJKLMNOPQRSTUVWXYZ"
  const SMALLS: string := "abcdefghijklmnopqrstuvwxyz"
  const ALPHABET: string := CAPITALS + SMALLS + "0123456789+/"

  /** The v-th letter of the alphabet A-Z a-z 0-9 + /. */
  function Letter(v: Sextet): (c: char)
    ensures Value(c) == v && !Skipped(c)
  {
    if v < 26 then 'A' + v as char
    else if v < 52 then 'a' + (v - 26) as char
    else if v < 62 then '0' + (v - 52) as char
    else if v == 62 then '+' else '/'
  }

  // ---- Encoding ----------------------------------------------------------

  /** Four letters of a 24-bit group. */
  function Letters(n: nat): (s: string)
    ensures |s| == 4
  {
    [Letter((n / 262144) % 64), Letter((n / 4096) % 64), Letter((n / 64) % 64), Letter(n % 64)]
  }

  function Group(a: Byte, b: Byte, c: Byte): nat {
    a * 65536 + b * 256 + c
  }

  function Encode(x: Bytes): string {
    if x == [] then ""
    else if |x| == 1 then Letters(Group(x[0], 0, 0))[..2] + "=="
    else if |x| == 2 then Letters(Group(x[0], x[1], 0))[..3] + "="
    else Letters(Group(x[0], x[1], x[2])) + Encode(x[3..])
  }

  /** Four letters for every three bytes, the last group padded. */
  lemma {:induction false} EncodedLength(x: Bytes)
    ensures |Encode(x)| == 4 * ((|x| + 2) / 3)
  {
    if |x| >= 3 {
      EncodedLength(x[3..]);
      assert (|x| + 2) / 3 == (|x| - 3 + 2) / 3 + 1;
    }
  }

  lemma EncodeHead(a: Byte, b: Byte, c: Byte, x: Bytes)
    ensures Encode([a, b, c] + x) == Letters(Group(a, b, c)) + Encode(x)
  {
    assert ([a, b, c] + x)[3..] == x;
  }

  lemma EncodeAt(x: Bytes, i: nat, out: string)
    requires i + 2 < |x|
    ensures out + Encode(x[i..]) == out + Letters(Group(x[i], x[i + 1], x[i + 2])) + Encode(x[i + 3..])
  {
    assert x[i..] == [x[i], x[i + 1], x[i + 2]] + x[i + 3..];
    EncodeHead(x[i], x[i + 1], x[i + 2], x[i + 3..]);
  }

  method EncodeBytes(x: Bytes) returns (out: string)
    ensures out == Encode(x)
  {
    out := "";
    var i := 0;
    ghost var all := Encode(x);
    assert x[0..] == x;
    while i + 2 < |x|
      invariant 0 <= i <= |x|
      invariant all == out + Encode(x[i..])
    {
      EncodeAt(x, i, out);
      out := out + Letters(Group(x[i], x[i + 1], x[i + 2]));
      i := i + 3;
    }
    var tail := EncodeTail(x, i);
    out := out + tail;
  }

  method EncodeTail(x: Bytes, i: nat) returns (out: string)
    requires i <= |x| < i + 3
    ensures out == Encode(x[i..])
  {
    out := "";
    if i < |x| {
      var two := i + 1 < |x|;
      var n := if two then Group(x[i], x[i + 1], 0) else Group(x[i], 0, 0);
      out := Letters(n)[..2] + [if two then Letters(n)[2] else '='] + "=";
    }
  }

  // ---- Decoding ----------------------------------------------------------

  /** 2 to the power of a leftover bit count. */
  function Pow(bits: nat): (p: nat)
    requires bits in {0, 2, 4, 6}
    ensures p >= 1
  {
    if bits == 0 then 1 else if bits == 2 then 4 else if bits == 4 then 16 else 64
  }

  /** Decoding with just the leftover bits: `acc` holds the `bits` bits that
      are read but not yet part of a byte. */
  function Decode(s: string, acc: nat := 0, bits: nat := 0): Option<Bytes>
    requires bits in {0, 2, 4, 6} && acc < Pow(bits)
    decreases |s|
  {
    if s == [] then Some([])
    else if Skipped(s[0]) then Decode(s[1..], acc, bits)
    else if Value(s[0]) == 64 then None
    else
      var t := acc * 64 + Value(s[0]);
      if bits == 0 then Decode(s[1..], t, 6)
      else
        var rest := Decode(s[1..], t % Pow(bits - 2), bits - 2);
        if rest.None? then None else Some([t / Pow(bits - 2)] + rest.value)
  }

  /** The low 32 bits of an integer, as a signed int. */
  function Wrap32(x: int): int {
    (x + 0x8000_0000) % 0x1_0000_0000 - 0x8000_0000
  }

  /** The byte the source reads out of its accumulator. */
  function Extract(buf: int, bits: nat): Byte
    requires bits in {0, 2, 4, 6}
  {
    (buf / Pow(bits)) % 256
  }

  /** Pushing six more bits into an accumulator that is never masked. */
  function Shifted(buf: int, v: Sextet, wraps: bool): int {
    (if wraps then Wrap32(buf * 64) else buf * 64) + v
  }

  /** Whole multiples of 256 * p above t do not reach the byte above p. */
  lemma HighBitsInvisible(t: nat, m: int, p: nat)
    requires p in {1, 4, 16} && t < 256 * p
    ensures ((t + 256 * p * m) / p) % 256 == t / p && (t + 256 * p * m) % p == t % p
  {
    var q := t / p;
    assert (q + 256 * m) % 256 == q;
    if p == 4 {
      assert t + 1024 * m == 4 * (q + 256 * m) + t % 4;
      assert (t + 1024 * m) / 4 == q + 256 * m;
    } else if p == 16 {
      assert t + 4096 * m == 16 * (q + 256 * m) + t % 16;
      assert (t + 4096 * m) / 16 == q + 256 * m;
    }
  }

  lemma WrapIsMultiple(x: int) returns (k: int)
    ensures Wrap32(x) == x + 0x1_0000_0000 * k
  {
    k := -((x + 0x8000_0000) / 0x1_0000_0000);
  }

  /** Six bits pushed into any accumulator that agrees on the leftover bits:
      the byte read and the new leftover agree too, wrapped or not. */
  lemma ShiftedAgrees(buf: int, bits: nat, v: Sextet, wraps: bool)
    requires bits in {2, 4, 6}
    ensures
      var t := (buf % Pow(bits)) * 64 + v;
      var buf' := Shifted(buf, v, wraps);
      Extract(buf', bits - 2) == t / Pow(bits - 2) && buf' % Pow(bits - 2) == t % Pow(bits - 2)
  {
    var t := (buf % Pow(bits)) * 64 + v;
    var k := WrapIsMultiple(buf * 64);
    var high := buf / Pow(bits);
    if bits == 2 {
      HighBitsInvisible(t, high + (if wraps then 0x100_0000 * k else 0), 1);
    } else if bits == 4 {
      HighBitsInvisible(t, high + (if wraps then 0x40_0000 * k else 0), 4);
    } else {
      HighBitsInvisible(t, high + (if wraps then 0x10_0000 * k else 0), 16);
    }
  }

  lemma LowSix(m: int, v: Sextet)
    ensures (64 * m + v) % 64 == v
  {
  }

  /** The first six bits of a group sit below a multiple of 64, wrapped or not. */
  lemma FirstShiftAgrees(buf: int, v: Sextet, wraps: bool)
    ensures Shifted(buf, v, wraps) % 64 == v
  {
    if wraps {
      var k := WrapIsMultiple(buf * 64);
      assert Shifted(buf, v, wraps) == 64 * (buf + 0x400_0000 * k) + v;
      LowSix(buf + 0x400_0000 * k, v);
    } else {
      LowSix(buf, v);
    }
  }

  /** Decoding with the source's accumulator, which is never masked: wrapping
      at 32 bits, or unbounded. */
  function AccDecode(s: string, buf: int, bits: nat, wraps: bool): Option<Bytes>
    requires bits in {0, 2, 4, 6}
    decreases |s|
  {
    if s == [] then Some([])
    else if Skipped(s[0]) then AccDecode(s[1..], buf, bits, wraps)
    else if Value(s[0]) == 64 then None
    else
      var buf' := Shifted(buf, Value(s[0]), wraps);
      if bits == 0 then AccDecode(s[1..], buf', 6, wraps)
      else
        var rest := AccDecode(s[1..], buf', bits - 2, wraps);
        if rest.None? then None else Some([Extract(buf', bits - 2)] + rest.value)
  }

  /** The high bits of the accumulator never matter, so neither does wrapping. */
  lemma {:induction false} WrapInvisible(s: string, buf: int, bits: nat, wraps: bool)
    requires bits in {0, 2, 4, 6}
    ensures AccDecode(s, buf, bits, wraps) == Decode(s, buf % Pow(bits), bits)
    decreases |s|
  {
    if s == [] {
    } else if Skipped(s[0]) {
      WrapInvisible(s[1..], buf, bits, wraps);
    } else if Value(s[0]) < 64 {
      var v := Value(s[0]);
      if bits == 0 {
        FirstShiftAgrees(buf, v, wraps);
        WrapInvisible(s[1..], Shifted(buf, v, wraps), 6, wraps);
      } else {
        ShiftedAgrees(buf, bits, v, wraps);
        WrapInvisible(s[1..], Shifted(buf, v, wraps), bits - 2, wraps);
      }
    }
  }

  function Prefixed(out: Bytes, r: Option<Bytes>): (p: Option<Bytes>)
    ensures out == [] ==> p == r
    ensures r == Some([]) ==> p == Some(out)
  {
    if r.None? then None
    else
      assert [] + r.value == r.value && out + [] == out;
      Some(out + r.value)
  }

  lemma PrefixedTwice(out: Bytes, b: Byte, r: Option<Bytes>)
    ensures Prefixed(out, Prefixed([b], r)) == Prefixed(out + [b], r)
  {
    if r.Some? {
      assert out + ([b] + r.value) == out + [b] + r.value;
    }
  }

  method DecodeString(s: string) returns (r: Option<Bytes>)
    ensures r == AccDecode(s, 0, 0, true)
    ensures r == Decode(s)
  {
    WrapInvisible(s, 0, 0, true);
    var out: Bytes := [];
    var buf, bits := 0, 0;
    var i := 0;
    assert s[0..] == s;
    while i < |s|
      invariant 0 <= i <= |s| && bits in {0, 2, 4, 6}
      invariant AccDecode(s, 0, 0, true) == Prefixed(out, AccDecode(s[i..], buf, bits, true))
    {
      var c := s[i];
      assert s[i..][1..] == s[i + 1..];
      i := i + 1;
      if !Skipped(c) {
        if Value(c) == 64 { return None; }
        buf := Shifted(buf, Value(c), true);
        bits := bits + 6;
        if bits >= 8 {
          bits := bits - 8;
          PrefixedTwice(out, Extract(buf, bits), AccDecode(s[i..], buf, bits, true));
          out := out + [Extract(buf, bits)];
        }
      }
    }
    r := Some(out);
  }

  // ---- Round trip --------------------------------------------------------

  lemma GroupSextets(a: Byte, b: Byte, c: Byte)
    ensures
      var n := Group(a, b, c);
      && (n / 262144) % 64 == a / 4 && (n / 4096) % 64 == (a % 4) * 16 + b / 16
      && (n / 64) % 64 == (b % 16) * 4 + c / 64 && n % 64 == c % 64
  {
    var n := Group(a, b, c);
    var s1, s2 := (a % 4) * 16 + b / 16, (b % 16) * 4 + c / 64;
    var n3 := (a / 4) * 64 + s1;
    var n2 := n3 * 64 + s2;
    assert n == n2 * 64 + c % 64;
    assert n / 64 == n2 && n / 4096 == n3 && n / 262144 == a / 4;
  }

  lemma DecodeStep(v: Sextet, s: string, acc: nat, bits: nat)
    requires bits in {0, 2, 4, 6} && acc < Pow(bits)
    ensures Decode([Letter(v)] + s, acc, bits) ==
      if bits == 0 then Decode(s, acc * 64 + v, 6)
      else Prefixed([(acc * 64 + v) / Pow(bits - 2)], Decode(s, (acc * 64 + v) % Pow(bits - 2), bits - 2))
  {
    assert ([Letter(v)] + s)[1..] == s;
  }

  lemma {:induction false} PaddingIgnored(pad: string, acc: nat, bits: nat)
    requires bits in {0, 2, 4, 6} && acc < Pow(bits) && forall i :: 0 <= i < |pad| ==> pad[i] == '='
    ensures Decode(pad, acc, bits) == Some([])
  {
    if pad != [] {
      PaddingIgnored(pad[1..], acc, bits);
    }
  }

  lemma DecodeTwo(a: Byte, s1: Sextet, s: string)
    requires s1 / 16 == a % 4
    ensures Decode([Letter(a / 4)] + ([Letter(s1)] + s)) == Prefixed([a], Decode(s, s1 % 16, 4))
  {
    DecodeStep(a / 4, [Letter(s1)] + s, 0, 0);
    DecodeStep(s1, s, a / 4, 6);
    var t := (a / 4) * 64 + s1;
    assert t / 16 == (a / 4) * 4 + s1 / 16;
    assert t % 16 == s1 % 16;
  }

  lemma DecodeThird(b: Byte, s2: Sextet, s: string)
    requires s2 / 4 == b % 16
    ensures Decode([Letter(s2)] + s, b / 16, 4) == Prefixed([b], Decode(s, s2 % 4, 2))
  {
    DecodeStep(s2, s, b / 16, 4);
    var t := (b / 16) * 64 + s2;
    assert t / 4 == (b / 16) * 16 + s2 / 4;
    assert t % 4 == s2 % 4;
  }

  lemma DecodeFourth(c: Byte, s: string)
    ensures Decode([Letter(c % 64)] + s, c / 64, 2) == Prefixed([c], Decode(s))
  {
    DecodeStep(c % 64, s, c / 64, 2);
  }

  lemma DecodeGroup(a: Byte, b: Byte, c: Byte, s: string)
    ensures Decode(Letters(Group(a, b, c)) + s) == Prefixed([a, b, c], Decode(s))
  {
    GroupSextets(a, b, c);
    var s1, s2 := (a % 4) * 16 + b / 16, (b % 16) * 4 + c / 64;
    var l1, l2, l3 := [Letter(s1)], [Letter(s2)], [Letter(c % 64)];
    assert Letters(Group(a, b, c)) + s == [Letter(a / 4)] + (l1 + (l2 + (l3 + s)));
    DecodeTwo(a, s1, l2 + (l3 + s));
    DecodeThird(b, s2, l3 + s);
    DecodeFourth(c, s);
    PrefixedTwice([a, b], c, Decode(s));
    PrefixedTwice([a], b, Prefixed([c], Decode(s)));
    assert [a] + [b] == [a, b] && [a, b] + [c] == [a, b, c];
  }

  lemma DecodeOneByte(a: Byte)
    ensures Decode(Encode([a])) == Some([a])
  {
    GroupSextets(a, 0, 0);
    var s1 := (a % 4) * 16;
    assert Encode([a]) == [Letter(a / 4)] + ([Letter(s1)] + "==");
    DecodeTwo(a, s1, "==");
    PaddingIgnored("==", s1 % 16, 4);
  }

  lemma EncodedPair(a: Byte, b: Byte)
    ensures Encode([a, b]) == [Letter(a / 4)] + ([Letter((a % 4) * 16 + b / 16)] + ([Letter((b % 16) * 4)] + "="))
  {
    GroupSextets(a, b, 0);
    var l0, l1, l2 := Letter(a / 4), Letter((a % 4) * 16 + b / 16), Letter((b % 16) * 4);
    var group := Letters(Group(a, b, 0));
    assert group[0] == l0;
    assert group[1] == l1;
    assert group[2] == l2;
    Padded(group);
  }

  /** Three letters and the padding, one by one. */
  lemma Padded(group: string)
    requires |group| == 4
    ensures group[..3] + "=" == [group[0]] + ([group[1]] + ([group[2]] + "="))
  {
  }

  lemma DecodeTwoBytes(a: Byte, b: Byte)
    ensures Decode(Encode([a, b])) == Some([a, b])
  {
    var s1, s2 := (a % 4) * 16 + b / 16, (b % 16) * 4;
    EncodedPair(a, b);
    DecodeTwo(a, s1, [Letter(s2)] + "=");
    DecodeThird(b, s2, "=");
    PaddingIgnored("=", s2 % 4, 2);
    PrefixedTwice([a], b, Some([]));
    assert [a] + [b] == [a, b];
  }

  /** Decoding undoes encoding, for every byte string. */
  lemma {:induction false} RoundTrip(x: Bytes)
    ensures Decode(Encode(x)) == Some(x)
  {
    if x == [] {
    } else if |x| == 1 {
      DecodeOneByte(x[0]);
      assert x == [x[0]];
    } else if |x| == 2 {
      DecodeTwoBytes(x[0], x[1]);
      assert x == [x[0], x[1]];
    } else {
      var a, b, c, rest := x[0], x[1], x[2], x[3..];
      assert x == [a, b, c] + rest;
      RoundTrip(rest);
      EncodeHead(a, b, c, rest);
      DecodeGroup(a, b, c, Encode(rest));
    }
  }

  /** Input is refused exactly when it holds a character that is neither a
      letter of the alphabet, padding, nor a line break. */
  lemma {:induction false} RefusedIffForeign(s: string, acc: nat, bits: nat)
    requires bits in {0, 2, 4, 6} && acc < Pow(bits)
    ensures Decode(s, acc, bits).None? <==> exists i :: 0 <= i < |s| && !Skipped(s[i]) && Value(s[i]) == 64
    decreases |s|
  {
    if s != [] {
      assert forall i :: 0 < i < |s| ==> s[i] == s[1..][i - 1];
      if Skipped(s[0]) {
        RefusedIffForeign(s[1..], acc, bits);
      } else if Value(s[0]) < 64 {
        var t := acc * 64 + Value(s[0]);
        if bits == 0 {
          RefusedIffForeign(s[1..], t, 6);
        } else {
          RefusedIffForeign(s[1..], t % Pow(bits - 2), bits - 2);
        }
      }
    }
  }

  // ---- The alphabet and the vectors of RFC 4648 --------------------------

  lemma CapitalIs(v: nat)
    requires v < 26
    ensures |CAPITALS| == 26 && CAPITALS[v] == 'A' + v as char
  {
  }

  lemma SmallIs(v: nat)
    requires v < 26
    ensures |SMALLS| == 26 && SMALLS[v] == 'a' + v as char
  {
  }

  /** The letters are those of the table, in its order. */
  lemma LettersAreAlphabet(v: Sextet)
    ensures |ALPHABET| == 64 && Letter(v) == ALPHABET[v]
  {
    CapitalIs(if v < 26 then v else 0);
    SmallIs(if 26 <= v < 52 then v - 26 else 0);
    var rest := "0123456789+/";
    assert ALPHABET == CAPITALS + SMALLS + rest;
    if v >= 52 {
      assert ALPHABET[v] == rest[v - 52];
    }
  }

  /** Three bytes, six bits at a time from the top, as letters of the table. */
  lemma LettersOfGroup(a: Byte, b: Byte, c: Byte)
    ensures Letters(Group(a, b, c)) == [Letter(a / 4), Letter((a % 4) * 16 + b / 16), Letter((b % 16) * 4 + c / 64), Letter(c % 64)]
  {
    GroupSextets(a, b, c);
  }

  /** Section 10: "f" and "fo". */
  lemma VectorF()
    ensures Encode([102]) == "Zg=="
  {
    LettersOfGroup(102, 0, 0);
  }

  lemma VectorFo()
    ensures Encode([102, 111]) == "Zm8="
  {
    LettersOfGroup(102, 111, 0);
  }

  /** A character has a value exactly when it is in the table. */
  lemma ForeignIff(c: char)
    ensures Value(c) == 64 <==> c !in ALPHABET
  {
    if Value(c) < 64 {
      LettersAreAlphabet(Value(c));
      assert Letter(Value(c)) == c;
      assert ALPHABET[Value(c)] == c;
    } else {
      forall v | 0 <= v < |ALPHABET|
        ensures ALPHABET[v] != c
      {
        LettersAreAlphabet(0);
        LettersAreAlphabet(v);
      }
    }
  }

  /** Input is refused exactly when some character is neither in the table nor
      padding nor a line end. */
  lemma RefusedIffOutside(s: string)
    ensures Decode(s).None? <==> exists i :: 0 <= i < |s| && s[i] !in ALPHABET && s[i] != '=' && s[i] != '\n' && s[i] != '\r'
  {
    RefusedIffForeign(s, 0, 0);
    forall i | 0 <= i < |s|
      ensures Value(s[i]) == 64 <==> s[i] !in ALPHABET
    {
      ForeignIff(s[i]);
    }
  }

  /** Padding and line ends mean nothing wherever they stand. */
  lemma {:induction false} SkippedAnywhere(a: string, c: char, b: string, acc: nat, bits: nat)
    requires bits in {0, 2, 4, 6} && acc < Pow(bits) && c in {'=', '\n', '\r'}
    ensures Decode(a + [c] + b, acc, bits) == Decode(a + b, acc, bits)
    decreases |a|
  {
    if a == "" {
      assert a + [c] + b == [c] + b && a + b == b && ([c] + b)[1..] == b;
    } else {
      assert (a + [c] + b)[1..] == a[1..] + [c] + b && (a + b)[1..] == a[1..] + b;
      if Skipped(a[0]) {
        SkippedAnywhere(a[1..], c, b, acc, bits);
      } else if Value(a[0]) < 64 {
        var t := acc * 64 + Value(a[0]);
        if bits == 0 {
          SkippedAnywhere(a[1..], c, b, t, 6);
        } else {
          SkippedAnywhere(a[1..], c, b, t % Pow(bits - 2), bits - 2);
        }
      }
    }
  }
}
