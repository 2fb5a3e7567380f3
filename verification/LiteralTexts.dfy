/** What the laws of single parts give for whole texts, and the other reader of escapes:
    `unescape` of linker/descriptors.go decodes the same parts to the same values. */
module LiteralTexts {
  import opened Common
  import opened Utf8
  import opened Utf8Laws
  import opened Escape
  import opened StringLiteral
  import opened LiteralLaws

  // --- Bytes in hex ------------------------------------------------------------------------------

  // The byte as x or X and two hex digits.
  ghost predicate IsHexOf(p: Part, b: byte) {
    exists ds: seq<byte>, capital: bool ::
      |ds| == 2 && Below(ds, 16) && p == HexPart(ds, capital) && Number(ds, 16) == b as int
  }

  ghost predicate Hexes(ps: seq<Part>, bs: seq<byte>) {
    |ps| == |bs| && forall i :: 0 <= i < |bs| ==> IsHexOf(ps[i], bs[i])
  }

  // Nothing is forbidden behind any of the parts.
  ghost predicate Free(ps: seq<Part>) { forall i :: 0 <= i < |ps| ==> ps[i].ends == Anyhow }

  lemma {:induction false} FreeIsSeparate(ps: seq<Part>, end: byte)
    requires Free(ps)
    ensures Separate(ps, end)
    decreases |ps|
  {
    if ps != [] {
      FreeIsSeparate(ps[1..], end);
    }
  }

  lemma HexOfReads(p: Part, b: byte, quote: int)
    requires IsHexOf(p, b) && (quote == 34 || quote == 39)
    ensures Reads(p, quote) && p.ends == Anyhow && p.value == [b] && |p.text| == 4
  {
    var ds: seq<byte>, capital: bool :|
      |ds| == 2 && Below(ds, 16) && p == HexPart(ds, capital) && Number(ds, 16) == b as int;
    HexReads(ds, capital, quote);
  }

  lemma {:induction false} HexesAre(ps: seq<Part>, bs: seq<byte>, quote: int)
    requires Hexes(ps, bs) && (quote == 34 || quote == 39)
    ensures AllRead(ps, quote) && Free(ps) && ValueOf(ps) == bs && |TextOf(ps)| == 4 * |bs|
    decreases |ps|
  {
    if ps != [] {
      HexOfReads(ps[0], bs[0], quote);
      HexesAre(ps[1..], bs[1..], quote);
      assert bs == [bs[0]] + bs[1..];
    }
  }

  /** Any bytes, each written with two hex digits of either case, lex to themselves. */
  lemma HexTextLexes(data: seq<byte>, pos: nat, ps: seq<Part>, bs: seq<byte>, quote: byte)
    requires Hexes(ps, bs) && (quote == 34 || quote == 39) && At(data, pos, TextOf(ps) + [quote])
    ensures ReadFrom(data, pos, quote as int) == Value(bs, pos + 4 * |bs| + 1)
  {
    HexesAre(ps, bs, quote as int);
    FreeIsSeparate(ps, quote);
    LexingReadsParts(data, pos, ps, quote);
  }

  /** And every byte can be written so, with digits of either case. */
  lemma ByteHasHex(b: byte, capital: bool)
    ensures var digits := if capital then UPPER else LOWER;
            var ds := [digits[b as int / 16] as byte, digits[b as int % 16] as byte];
            Below(ds, 16) && IsHexOf(HexPart(ds, capital), b)
  {
    var digits := if capital then UPPER else LOWER;
    var ds := [digits[b as int / 16] as byte, digits[b as int % 16] as byte];
    DigitTable(b as int / 16);
    DigitTable(b as int % 16);
    HexNumber(ds);
  }

  // --- Text as it is -------------------------------------------------------------------------------

  // The first rune is valid, and none of those that a literal does not take as they are.
  ghost predicate PlainRune(s: seq<byte>, quote: int) {
    && s != [] && DecodeRune(s, 0) != (RUNE_ERROR, 1)
    && DecodeRune(s, 0).0 != quote && DecodeRune(s, 0).0 !in {0, 10, 92}
  }

  function RuneLength(s: seq<byte>): (n: nat)
    requires s != []
    ensures 1 <= n <= |s|
  {
    DecodeRune(s, 0).1
  }

  // Valid UTF-8 without the quote, backslashes, NULs and line ends.
  ghost predicate PlainText(s: seq<byte>, quote: int)
    decreases |s|
  {
    s != [] ==> PlainRune(s, quote) && PlainText(s[RuneLength(s)..], quote)
  }

  ghost function Piece(s: seq<byte>): Part { Part(s, s, Anyhow) }

  ghost function Pieces(s: seq<byte>): seq<Part>
    decreases |s|
  {
    if s == [] then [] else [Piece(s[..RuneLength(s)])] + Pieces(s[RuneLength(s)..])
  }

  lemma PieceReads(s: seq<byte>, quote: int)
    requires PlainRune(s, quote)
    ensures Reads(Piece(s[..RuneLength(s)]), quote)
  {
    EncodeInvertsDecode(s, 0);
    PlainReads(DecodeRune(s, 0).0, quote);
  }

  // Parts that are read as they are.
  ghost predicate ReadAsIs(ps: seq<Part>, s: seq<byte>, quote: int) {
    AllRead(ps, quote) && Free(ps) && TextOf(ps) == s && ValueOf(ps) == s
  }

  lemma FirstPiece(a: seq<byte>, ps: seq<Part>, b: seq<byte>, quote: int)
    requires Reads(Piece(a), quote) && ReadAsIs(ps, b, quote)
    ensures ReadAsIs([Piece(a)] + ps, a + b, quote)
  {
    assert ([Piece(a)] + ps)[1..] == ps;
  }

  lemma {:induction false} PiecesAre(s: seq<byte>, quote: int)
    requires PlainText(s, quote)
    ensures ReadAsIs(Pieces(s), s, quote)
    decreases |s|
  {
    if s != [] {
      var n := RuneLength(s);
      PieceReads(s, quote);
      PiecesAre(s[n..], quote);
      FirstPiece(s[..n], Pieces(s[n..]), s[n..], quote);
      assert s == s[..n] + s[n..];
    }
  }

  /** Valid UTF-8 text lexes to itself. */
  lemma PlainTextLexes(data: seq<byte>, pos: nat, s: seq<byte>, quote: byte)
    requires PlainText(s, quote as int) && (quote == 34 || quote == 39) && At(data, pos, s + [quote])
    ensures ReadFrom(data, pos, quote as int) == Value(s, pos + |s| + 1)
  {
    PiecesAre(s, quote as int);
    FreeIsSeparate(Pieces(s), quote);
    LexingReadsParts(data, pos, Pieces(s), quote);
  }

  // --- unescape --------------------------------------------------------------------------------------

  predicate MayEnd(ends: Ends, rest: seq<byte>) { rest == [] || MayFollow(ends, rest[0]) }

  // Before `rest`, the part is taken for its value.
  ghost predicate UnescapesBefore(p: Part, rest: seq<byte>) {
    Unescaped(p.text + rest) == p.value + Unescaped(rest)
  }

  ghost predicate Unescapes(p: Part) {
    forall rest: seq<byte> :: MayEnd(p.ends, rest) ==> UnescapesBefore(p, rest)
  }

  ghost predicate AllUnescape(ps: seq<Part>) { forall i :: 0 <= i < |ps| ==> Unescapes(ps[i]) }

  ghost predicate Apart(ps: seq<Part>) {
    ps != [] ==> Apart(ps[1..]) && MayEnd(ps[0].ends, TextOf(ps[1..]))
  }

  /** A text of any parts is unescaped to their values. */
  lemma {:induction false} UnescapeReadsParts(ps: seq<Part>)
    requires AllUnescape(ps) && Apart(ps)
    ensures Unescaped(TextOf(ps)) == ValueOf(ps)
    decreases |ps|
  {
    if ps != [] {
      UnescapeReadsParts(ps[1..]);
      assert UnescapesBefore(ps[0], TextOf(ps[1..]));
    }
  }

  lemma StepUnescapes(p: Part, rest: seq<byte>)
    requires p.text != [] && UnescapeStep(p.text + rest) == (p.value, |p.text|)
    ensures UnescapesBefore(p, rest)
  {
    assert (p.text + rest)[|p.text|..] == rest;
  }

  /** Text without backslashes is copied. */
  lemma {:induction false} CopyUnescapes(s: seq<byte>, rest: seq<byte>)
    requires 92 !in s
    ensures UnescapesBefore(Part(s, s, Anyhow), rest)
    decreases |s|
  {
    if s == [] {
      assert s + rest == rest && s + Unescaped(rest) == Unescaped(rest);
    } else {
      var c := [s[0]];
      assert s == c + s[1..];
      CopyUnescapes(s[1..], rest);
      Regroup(c, s[1..], rest);
      StepUnescapes(Part(c, c, Anyhow), s[1..] + rest);
      Regroup(c, s[1..], Unescaped(rest));
    }
  }

  lemma SimpleUnescapes(i: nat)
    requires i < |LETTERS|
    ensures Unescapes(SimplePart(i))
  {
    var p := SimplePart(i);
    forall rest: seq<byte> | MayEnd(p.ends, rest)
      ensures UnescapesBefore(p, rest)
    {
      SimpleStep(p.text + rest, i);
      StepUnescapes(p, rest);
    }
  }

  lemma SimpleStep(s: seq<byte>, i: nat)
    requires i < |LETTERS| && |s| >= 2 && s[0] == 92 && s[1] == LETTERS[i]
    ensures UnescapeStep(s) == ([CONTROLS[i]], 2)
  {
  }

  // Where the digits end.
  lemma PrefixIs(ds: seq<byte>, rest: seq<byte>, limit: nat, p: int -> bool)
    requires |ds| <= limit && forall i :: 0 <= i < |ds| ==> p(ds[i] as int)
    requires |ds| < limit && rest != [] ==> !p(rest[0] as int)
    ensures MatchPrefix(ds + rest, limit, p) == |ds|
  {
    var s := ds + rest;
    assert forall i :: 0 <= i < |ds| ==> s[i] == ds[i];
    assert rest != [] ==> s[|ds|] == rest[0];
  }

  lemma HexUnescapes(ds: seq<byte>, capital: bool)
    requires Below(ds, 16) && |ds| <= 2
    ensures Unescapes(HexPart(ds, capital))
  {
    var p := HexPart(ds, capital);
    forall rest: seq<byte> | MayEnd(p.ends, rest)
      ensures UnescapesBefore(p, rest)
    {
      var s := p.text + rest;
      assert s[2..] == ds + rest && s[2..2 + |ds|] == ds;
      PrefixIs(ds, rest, 2, IsHex);
      HexNumber(ds);
      NumeralMeans(ds, 16);
      HexStep(s, |ds|, Number(ds, 16));
      StepUnescapes(p, rest);
    }
  }

  lemma HexStep(s: seq<byte>, n: nat, v: int)
    requires 2 + n <= |s| && s[0] == 92 && (s[1] == 120 || s[1] == 88) && MatchPrefix(s[2..], 2, IsHex) == n
    requires ParseDigits(Ints(s[2..2 + n]), 16) == Some(v) && 0 <= v < 256
    ensures UnescapeStep(s) == ([v as byte], 2 + n)
  {
  }

  lemma OctalUnescapes(ds: seq<byte>)
    requires Below(ds, 8) && |ds| <= 3 && Number(ds, 8) < 256
    ensures Unescapes(OctalPart(ds))
  {
    var p := OctalPart(ds);
    forall rest: seq<byte> | MayEnd(p.ends, rest)
      ensures UnescapesBefore(p, rest)
    {
      OctalShape(p.text + rest, ds, rest);
      OctalStep(p.text + rest, |ds|, Number(ds, 8));
      StepUnescapes(p, rest);
    }
  }

  lemma OctalShape(s: seq<byte>, ds: seq<byte>, rest: seq<byte>)
    requires Below(ds, 8) && |ds| <= 3 && s == [92] + ds + rest
    requires |ds| < 3 ==> MayEnd(NoOctal, rest)
    ensures |s| > |ds| && s[0] == 92 && IsOctal(s[1] as int) && 1 + MatchPrefix(s[2..], 2, IsOctal) == |ds|
    ensures ParseDigits(Ints(s[1..1 + |ds|]), 8) == Some(Number(ds, 8))
  {
    OctalSlices(s, ds, rest);
    NumeralMeans(ds, 8);
    OctalRun(ds, rest);
  }

  lemma OctalSlices(s: seq<byte>, ds: seq<byte>, rest: seq<byte>)
    requires ds != [] && s == [92] + ds + rest
    ensures s[2..] == ds[1..] + rest && s[1..1 + |ds|] == ds && s[0] == 92 && s[1] == ds[0]
  {
  }

  lemma OctalRun(ds: seq<byte>, rest: seq<byte>)
    requires Below(ds, 8) && |ds| <= 3 && (|ds| < 3 ==> MayEnd(NoOctal, rest))
    ensures IsOctal(ds[0] as int) && MatchPrefix(ds[1..] + rest, 2, IsOctal) == |ds| - 1
  {
    forall i | 0 <= i < |ds|
      ensures IsOctal(ds[i] as int)
    {
      DigitIs(ds[i], 8);
    }
    PrefixIs(ds[1..], rest, 2, IsOctal);
  }

  lemma OctalStep(s: seq<byte>, n: nat, v: int)
    requires 1 <= n && 1 + n <= |s| && s[0] == 92 && IsOctal(s[1] as int)
    requires 1 + MatchPrefix(s[2..], 2, IsOctal) == n
    requires ParseDigits(Ints(s[1..1 + n]), 8) == Some(v) && 0 <= v
    ensures UnescapeStep(s) == if v < 256 then ([v as byte], 1 + n) else (s[..1 + n], 1 + n)
  {
  }

  lemma UnicodeUnescapes(ds: seq<byte>)
    requires Below(ds, 16) && Fits(ds)
    ensures Unescapes(UnicodePart(ds))
  {
    var p := UnicodePart(ds);
    forall rest: seq<byte> | MayEnd(p.ends, rest)
      ensures UnescapesBefore(p, rest)
    {
      var s := p.text + rest;
      assert s[2..2 + |ds|] == ds;
      NumeralMeans(ds, 16);
      UnicodeStep(s, |ds|, Number(ds, 16));
      StepUnescapes(p, rest);
    }
  }

  lemma UnicodeStep(s: seq<byte>, n: nat, v: int)
    requires 2 + n <= |s| && s[0] == 92 && ((n == 4 && s[1] == 117) || (n == 8 && s[1] == 85))
    requires ParseDigits(Ints(s[2..2 + n]), 16) == Some(v) && (n == 8 ==> v <= 0x10FFFF)
    ensures UnescapeStep(s) == (EncodeRune(v), 2 + n)
  {
  }

  /** What cannot be decoded is copied as it is. */
  lemma OctalCopied(ds: seq<byte>, rest: seq<byte>)
    requires Below(ds, 8) && |ds| == 3 && Number(ds, 8) > 255
    ensures UnescapesBefore(Piece([92] + ds), rest)
  {
    var s := [92] + ds;
    OctalShape(s + rest, ds, rest);
    OctalStep(s + rest, 3, Number(ds, 8));
    assert (s + rest)[..4] == s;
    StepUnescapes(Piece(s), rest);
  }

  lemma UnicodeCopied(ds: seq<byte>, rest: seq<byte>)
    requires Below(ds, 16) && |ds| == 8 && Number(ds, 16) > 0x10FFFF
    ensures UnescapesBefore(Piece([92, 85] + ds), rest)
  {
    var s := [92, 85] + ds;
    assert (s + rest)[2..10] == ds && (s + rest)[..10] == s;
    NumeralMeans(ds, 16);
    LargeStep(s + rest, Number(ds, 16));
    StepUnescapes(Piece(s), rest);
  }

  lemma LargeStep(s: seq<byte>, v: int)
    requires |s| >= 10 && s[0] == 92 && s[1] == 85 && ParseDigits(Ints(s[2..10]), 16) == Some(v) && v > 0x10FFFF
    ensures UnescapeStep(s) == (s[..10], 10)
  {
  }

  // --- EscapeBytes -----------------------------------------------------------------------------------

  predicate Printable(c: byte) { 0x20 <= c < 0x7F }

  /** How the printer writes a byte: as it is if it can, else by a simple escape if it has one that
      the printer uses, and else by three octal digits. */
  lemma EscapeByteIsPart(c: byte)
    ensures EscapeByte(c) == [c] <==> Printable(c) && c !in {34, 39, 92}
    ensures c in {9, 10, 13, 34, 39, 92} ==>
        exists i :: 0 <= i < |LETTERS| && CONTROLS[i] == c && EscapeByte(c) == SimplePart(i).text
    ensures !Printable(c) && c !in {9, 10, 13} ==>
        exists ds: seq<byte> ::
          Below(ds, 8) && |ds| == 3 && Number(ds, 8) == c as int && EscapeByte(c) == OctalPart(ds).text
  {
    if c in {9, 10, 13, 34, 39, 92} {
      var i := if c == 9 then 5 else if c == 10 then 3 else if c == 13 then 4 else if c == 34 then 9
        else if c == 39 then 8 else 7;
      assert CONTROLS[i] == c && EscapeByte(c) == SimplePart(i).text;
    } else if !Printable(c) {
      var ds := EscapeByte(c)[1..];
      OctalOf(ds, c as int);
      assert EscapeByte(c) == OctalPart(ds).text;
    }
  }

  lemma OctalOf(ds: seq<byte>, c: int)
    requires |ds| == 3 && 0 <= c < 256
    requires ds[0] as int == 48 + c / 64 % 8 && ds[1] as int == 48 + c / 8 % 8 && ds[2] as int == 48 + c % 8
    ensures Below(ds, 8) && Number(ds, 8) == c
  {
    OctalParts(c);
    assert ds[..2][..1] == ds[..1] && ds[..1][..0] == [];
    assert Number(ds[..1], 8) == c / 64 % 8;
    assert Number(ds[..2], 8) == Number(ds[..1], 8) * 8 + c / 8 % 8;
  }
}
