/** The printer of escaped bytes (EscapeBytes in internal/util.go) and its two readers:
    `unescape` in linker/descriptors.go and the string literals of parser/lexer.go. */
module Escape {
  import opened Common
  import opened Utf8

  // --- EscapeBytes -------------------------------------------------------------------

  const BACKSLASH: byte := 92
  const QUOTE: byte := 34
  const APOSTROPHE: byte := 39

  function OctalDigit(v: int): byte
    requires 0 <= v < 8
  {
    (48 + v) as byte
  }

  function EscapeByte(c: byte): (s: seq<byte>)
    ensures forall i :: 0 <= i < |s| ==> 0x20 <= s[i] < 0x7F
  {
    if c == 10 then [BACKSLASH, 110]
    else if c == 13 then [BACKSLASH, 114]
    else if c == 9 then [BACKSLASH, 116]
    else if c == QUOTE then [BACKSLASH, QUOTE]
    else if c == APOSTROPHE then [BACKSLASH, APOSTROPHE]
    else if c == BACKSLASH then [BACKSLASH, BACKSLASH]
    else if 0x20 <= c < 0x7F then [c]
    else [BACKSLASH, OctalDigit(c as int / 64 % 8), OctalDigit(c as int / 8 % 8), OctalDigit(c as int % 8)]
  }

  function Escaped(data: seq<byte>): seq<byte> {
    if data == [] then [] else EscapeByte(data[0]) + Escaped(data[1..])
  }

  lemma {:induction false} EscapedSnoc(data: seq<byte>, c: byte)
    ensures Escaped(data + [c]) == Escaped(data) + EscapeByte(c)
    decreases |data|
  {
    if data == [] {
      assert [c][1..] == [];
      assert Escaped([c]) == EscapeByte(c) + [];
    } else {
      EscapedSnoc(data[1..], c);
      assert (data + [c])[1..] == data[1..] + [c];
      Regroup(EscapeByte(data[0]), Escaped(data[1..]), EscapeByte(c));
    }
  }

  method EscapeBytes(data: seq<byte>) returns (buf: seq<byte>)
    ensures buf == Escaped(data)
  {
    buf := [];
    for i := 0 to |data|
      invariant buf == Escaped(data[..i])
    {
      EscapedSnoc(data[..i], data[i]);
      assert data[..i + 1] == data[..i] + [data[i]];
      buf := buf + EscapeByte(data[i]);
    }
    assert data[..|data|] == data;
  }

  // --- Numbers -----------------------------------------------------------------------

  predicate IsOctal(c: int) { 48 <= c <= 55 }

  predicate IsHex(c: int) { 48 <= c <= 57 || 97 <= c <= 102 || 65 <= c <= 70 }

  function DigitValue(c: int): int {
    if 48 <= c <= 57 then c - 48 else if 97 <= c <= 102 then c - 87 else if 65 <= c <= 70 then c - 55 else 255
  }

  // strconv.ParseUint without its limit on the size; None for a syntax error.
  function ParseDigits(s: seq<int>, base: int): Option<int> {
    if s == [] || DigitValue(s[|s| - 1]) >= base then None
    else if |s| == 1 then Some(DigitValue(s[0]))
    else
      match ParseDigits(s[..|s| - 1], base)
      case None => None
      case Some(v) => Some(v * base + DigitValue(s[|s| - 1]))
  }

  // strconv.ParseInt(s, base, 32): an optional sign, then digits.
  function ParseInt(s: seq<int>, base: int): Option<int> {
    if s == [] then None
    else
      var signed := s[0] == 43 || s[0] == 45;
      match ParseDigits(if signed then s[1..] else s, base)
      case None => None
      case Some(v) =>
        var i := if s[0] == 45 then -v else v;
        if -0x8000_0000 <= i < 0x8000_0000 then Some(i) else None
  }

  function Ints(s: seq<byte>): seq<int> {
    seq(|s|, i requires 0 <= i < |s| => s[i] as int)
  }

  // matchPrefix
  function MatchPrefix(s: seq<byte>, limit: nat, p: int -> bool): (n: nat)
    ensures n <= limit && n <= |s|
    ensures forall i :: 0 <= i < n ==> p(s[i] as int)
    ensures n < limit && n < |s| ==> !p(s[n] as int)
  {
    if limit == 0 || s == [] || !p(s[0] as int) then 0 else 1 + MatchPrefix(s[1..], limit - 1, p)
  }

  // --- unescape ------------------------------------------------------------------------

  // Single-character escapes other than \x and the numeric ones.
  function SimpleEscape(c: int): Option<byte> {
    if c == 97 then Some(7)
    else if c == 98 then Some(8)
    else if c == 102 then Some(12)
    else if c == 110 then Some(10)
    else if c == 114 then Some(13)
    else if c == 116 then Some(9)
    else if c == 118 then Some(11)
    else if c == 92 then Some(92)
    else if c == 39 then Some(39)
    else if c == 34 then Some(34)
    else if c == 63 then Some(63)
    else None
  }

  // What one turn of the loop appends, and how much input it takes. A malformed escape is
  // copied as it is.
  function UnescapeStep(s: seq<byte>): (r: (seq<byte>, nat))
    requires s != []
    ensures 1 <= r.1 <= |s|
  {
    if s[0] != BACKSLASH || |s| < 2 then ([s[0]], 1)
    else if s[1] == 120 || s[1] == 88 then
      var n := MatchPrefix(s[2..], 2, IsHex);
      match ParseDigits(Ints(s[2..2 + n]), 16)
      case None => (s[..2 + n], 2 + n)
      case Some(v) => if 0 <= v < 256 then ([v as byte], 2 + n) else (s[..2 + n], 2 + n)
    else if IsOctal(s[1] as int) then
      var n := 1 + MatchPrefix(s[2..], 2, IsOctal);
      match ParseDigits(Ints(s[1..1 + n]), 8)
      case None => (s[..1 + n], 1 + n)
      case Some(v) => if 0 <= v < 256 then ([v as byte], 1 + n) else (s[..1 + n], 1 + n)
    else if s[1] == 117 then
      if |s| < 6 then (s, |s|)
      else
        match ParseDigits(Ints(s[2..6]), 16)
        case None => (s[..6], 6)
        case Some(v) => (EncodeRune(v), 6)
    else if s[1] == 85 then
      if |s| < 10 then (s, |s|)
      else
        match ParseDigits(Ints(s[2..10]), 16)
        case None => (s[..10], 10)
        case Some(v) => if v > 0x10FFFF then (s[..10], 10) else (EncodeRune(v), 10)
    else
      match SimpleEscape(s[1] as int)
      case None => (s[..2], 2)
      case Some(c) => ([c], 2)
  }

  function Unescaped(s: seq<byte>): seq<byte> {
    if s == [] then [] else UnescapeStep(s).0 + Unescaped(s[UnescapeStep(s).1..])
  }

  method Unescape(input: seq<byte>) returns (out: seq<byte>)
    ensures out == Unescaped(input)
  {
    out := [];
    var s := input;
    while s != []
      invariant Unescaped(input) == out + Unescaped(s)
      decreases |s|
    {
      var (piece, n) := UnescapeStep(s);
      out, s := out + piece, s[n..];
    }
  }

  lemma OctalDigits(c: byte)
    ensures var a, b, d := c as int / 64 % 8, c as int / 8 % 8, c as int % 8;
            ParseDigits([48 + a, 48 + b, 48 + d], 8) == Some(c as int)
  {
    ThreeDigits(c as int / 64 % 8, c as int / 8 % 8, c as int % 8);
    OctalParts(c as int);
  }

  lemma ThreeDigits(a: int, b: int, d: int)
    requires 0 <= a < 8 && 0 <= b < 8 && 0 <= d < 8
    ensures ParseDigits([48 + a, 48 + b, 48 + d], 8) == Some((a * 8 + b) * 8 + d)
  {
    var s := [48 + a, 48 + b, 48 + d];
    assert s[..2] == [48 + a, 48 + b] && s[..2][..1] == [48 + a];
    assert ParseDigits([48 + a], 8) == Some(a);
    assert ParseDigits([48 + a, 48 + b], 8) == Some(a * 8 + b);
  }

  lemma OctalParts(c: int)
    requires 0 <= c < 256
    ensures (c / 64 % 8 * 8 + c / 8 % 8) * 8 + c % 8 == c
  {
    var q := c / 8;
    assert c == q * 8 + c % 8 && q == q / 8 * 8 + q % 8 && q / 8 == c / 64;
  }

  // Reading back one escaped byte yields that byte and leaves what follows.
  lemma UnescapeOne(c: byte, rest: seq<byte>)
    ensures UnescapeStep(EscapeByte(c) + rest) == ([c], |EscapeByte(c)|)
  {
    var s := EscapeByte(c) + rest;
    if |EscapeByte(c)| == 4 {
      assert s[1..4] == EscapeByte(c)[1..];
      assert s[2..][0] == EscapeByte(c)[2] && s[2..][1] == EscapeByte(c)[3];
      var n := MatchPrefix(s[2..], 2, IsOctal);
      assert n == 2;
      OctalDigits(c);
      assert Ints(s[1..4]) == [48 + c as int / 64 % 8, 48 + c as int / 8 % 8, 48 + c as int % 8];
    }
  }

  /** unescape(EscapeBytes(b)) == b, for every byte string. */
  lemma {:induction false} UnescapeInvertsEscape(data: seq<byte>)
    ensures Unescaped(Escaped(data)) == data
    decreases |data|
  {
    if data != [] {
      var e, rest := EscapeByte(data[0]), Escaped(data[1..]);
      UnescapeOne(data[0], rest);
      assert (e + rest)[|e|..] == rest;
      UnescapeInvertsEscape(data[1..]);
      assert [data[0]] + data[1..] == data;
    }
  }
}
