/** What string literals mean, by the pieces of text that they are written with. Each piece has a
    text and a value. A literal made of any pieces lexes to their values, and the other reader of
    escapes, `unescape`, agrees. */
module LiteralLaws {
  import opened Common
  import opened Utf8
  import opened Utf8Laws
  import opened Escape
  import opened StringLiteral

  // --- Digits ------------------------------------------------------------------------------------

  const LOWER: string := "0123456789abcdef"
  const UPPER: string := "0123456789ABCDEF"

  /** The value of a digit is its place in the list of digits, in either case. */
  lemma DigitTable(v: nat)
    requires v < 16
    ensures DigitValue(LOWER[v] as int) == v && IsHex(LOWER[v] as int)
    ensures DigitValue(UPPER[v] as int) == v && IsHex(UPPER[v] as int)
  {
    assert LOWER == ['0', '1', '2', '3', '4', '5', '6', '7', '8', '9', 'a', 'b', 'c', 'd', 'e', 'f'];
    assert UPPER == ['0', '1', '2', '3', '4', '5', '6', '7', '8', '9', 'A', 'B', 'C', 'D', 'E', 'F'];
  }

  predicate IsDigit(c: byte, base: int) { IsHex(c as int) && DigitValue(c as int) < base }

  ghost predicate Below(ds: seq<byte>, base: int) {
    (base == 8 || base == 16) && ds != [] && forall i :: 0 <= i < |ds| ==> IsDigit(ds[i], base)
  }

  // The number that the digits make, to the given base.
  function Number(ds: seq<byte>, base: nat): nat {
    if ds == [] then 0 else Number(ds[..|ds| - 1], base) * base + DigitValue(ds[|ds| - 1] as int)
  }

  lemma DigitIs(c: byte, base: int)
    requires IsDigit(c, base) && (base == 8 || base == 16)
    ensures c < 0x80 && c !in {34, 39, 92, 43, 45} && 0 <= DigitValue(c as int) < base
    ensures IsHex(c as int) && (base == 8 ==> IsOctal(c as int))
  {
  }

  lemma IntsSnoc(s: seq<byte>, c: byte)
    ensures Ints(s + [c]) == Ints(s) + [c as int]
  {
  }

  lemma ParseSnoc(s: seq<int>, c: int, base: int)
    requires 0 <= DigitValue(c) < base && s != [] && ParseDigits(s, base).Some?
    ensures ParseDigits(s + [c], base) == Some(ParseDigits(s, base).value * base + DigitValue(c))
  {
    assert (s + [c])[..|s|] == s;
  }

  lemma NumeralStep(ds: seq<byte>, c: byte, base: nat)
    requires ds != [] && ParseDigits(Ints(ds), base) == Some(Number(ds, base)) && 0 <= DigitValue(c as int) < base
    ensures ParseDigits(Ints(ds + [c]), base) == Some(Number(ds + [c], base))
  {
    IntsSnoc(ds, c);
    ParseSnoc(Ints(ds), c as int, base);
    assert (ds + [c])[..|ds|] == ds;
  }

  lemma OneDigit(c: byte, base: nat)
    requires 0 <= DigitValue(c as int) < base
    ensures ParseDigits(Ints([c]), base) == Some(Number([c], base))
  {
    assert Ints([c]) == [c as int];
    assert Number([c][..0], base) == 0;
  }

  /** A numeral is read as the number that its digits make. */
  lemma {:induction false} NumeralMeans(ds: seq<byte>, base: nat)
    requires Below(ds, base)
    ensures ParseDigits(Ints(ds), base) == Some(Number(ds, base))
    decreases |ds|
  {
    var n := |ds| - 1;
    var c, rest := ds[n], ds[..n];
    DigitIs(c, base);
    assert ds == rest + [c];
    if n == 0 {
      OneDigit(c, base);
      assert ds == [c];
    } else {
      NumeralMeans(rest, base);
      NumeralStep(rest, c, base);
    }
  }

  // ParseInt on digits that fit.
  lemma ParseUnsigned(s: seq<int>, base: int, v: int)
    requires s != [] && s[0] != 43 && s[0] != 45 && ParseDigits(s, base) == Some(v) && 0 <= v < 0x8000_0000
    ensures ParseInt(s, base) == Some(v)
  {
  }

  lemma NumeralParses(ds: seq<byte>, base: nat)
    requires Below(ds, base) && Number(ds, base) < 0x8000_0000
    ensures ParseInt(Ints(ds), base) == Some(Number(ds, base))
  {
    NumeralMeans(ds, base);
    DigitIs(ds[0], base);
    ParseUnsigned(Ints(ds), base, Number(ds, base));
  }

  // --- Parts of a literal ---------------------------------------------------------------------------

  // What may not follow: a number that could have more digits must not be followed by one.
  datatype Ends = Anyhow | NoHex | NoOctal

  // A part of the text of a literal, and what it stands for.
  datatype Part = Part(text: seq<byte>, value: seq<byte>, ends: Ends)

  predicate MayFollow(ends: Ends, c: byte) {
    match ends
    case Anyhow => true
    case NoHex => !IsHex(c as int)
    case NoOctal => !IsOctal(c as int)
  }

  // The part stands at `pos`, with something behind it that may follow.
  ghost predicate Stands(data: seq<byte>, pos: nat, p: Part) {
    At(data, pos, p.text) && pos + |p.text| < |data| && MayFollow(p.ends, data[pos + |p.text|])
  }

  /** Wherever the part stands in a literal, its value is read. */
  ghost predicate Reads(p: Part, quote: int) {
    p.text != [] && forall data: seq<byte>, pos: nat :: Stands(data, pos, p) ==> ReadAt(data, pos, p, quote)
  }

  ghost predicate ReadAt(data: seq<byte>, pos: nat, p: Part, quote: int) {
    pos <= |data| && Literal(data, pos, quote) == Emit(p.value, pos + |p.text|)
  }

  ghost predicate AllRead(ps: seq<Part>, quote: int) {
    forall i :: 0 <= i < |ps| ==> Reads(ps[i], quote)
  }

  function TextOf(ps: seq<Part>): seq<byte> { if ps == [] then [] else ps[0].text + TextOf(ps[1..]) }

  function ValueOf(ps: seq<Part>): seq<byte> { if ps == [] then [] else ps[0].value + ValueOf(ps[1..]) }

  // What comes after each part may follow it; after the last one comes `end`.
  ghost predicate Separate(ps: seq<Part>, end: byte) {
    ps != [] ==> Separate(ps[1..], end) && MayFollow(ps[0].ends, (TextOf(ps[1..]) + [end])[0])
  }

  // What is left of a text behind its first part.
  lemma AtRest(data: seq<byte>, pos: nat, a: seq<byte>, b: seq<byte>)
    requires At(data, pos, a + b)
    ensures At(data, pos, a) && At(data, pos + |a|, b)
  {
    assert (a + b)[..|a|] == a && (a + b)[|a|..] == b;
    assert data[pos..pos + |a + b|][..|a|] == data[pos..pos + |a|];
    assert data[pos..pos + |a + b|][|a|..] == data[pos + |a|..pos + |a + b|];
  }

  lemma FirstPart(data: seq<byte>, pos: nat, ps: seq<Part>, end: byte)
    requires ps != [] && Separate(ps, end) && At(data, pos, TextOf(ps) + [end])
    ensures Stands(data, pos, ps[0]) && At(data, pos + |ps[0].text|, TextOf(ps[1..]) + [end])
  {
    var s, rest := ps[0].text, TextOf(ps[1..]) + [end];
    Regroup(s, TextOf(ps[1..]), [end]);
    AtRest(data, pos, s, rest);
    AtByte(data, pos + |s|, rest, 0);
  }

  // Reading with any kind of turns.
  ghost function ReadBy(turn: nat -> Turn, size: nat, pos: nat): Outcome
    decreases size - pos
  {
    match turn(pos)
    case Close(next) => Value([], next)
    case Emit(out, next) => if pos < next <= size then After(out, ReadBy(turn, size, next)) else Erroneous
    case _ => Erroneous
  }

  // The turns of a literal.
  ghost function Turns(data: seq<byte>, quote: int): nat -> Turn {
    (pos: nat) => if pos <= |data| then Literal(data, pos, quote) else Fatal(|data|)
  }

  lemma {:induction false} ReadByTurns(data: seq<byte>, pos: nat, quote: int)
    requires pos <= |data|
    ensures ReadBy(Turns(data, quote), |data|, pos) == ReadFrom(data, pos, quote)
    decreases |data| - pos
  {
    var t := Literal(data, pos, quote);
    if t.Emit? {
      ReadByTurns(data, t.next, quote);
    }
  }

  // The parts are read one after the other.
  ghost predicate Laid(turn: nat -> Turn, pos: nat, ps: seq<Part>)
    decreases |ps|
  {
    ps != [] ==>
      && turn(pos) == Emit(ps[0].value, pos + |ps[0].text|) && ps[0].text != []
      && Laid(turn, pos + |ps[0].text|, ps[1..])
  }

  lemma {:induction false} LaidIsRead(turn: nat -> Turn, size: nat, pos: nat, ps: seq<Part>)
    requires Laid(turn, pos, ps) && pos + |TextOf(ps)| <= size
    ensures ReadBy(turn, size, pos) == After(ValueOf(ps), ReadBy(turn, size, pos + |TextOf(ps)|))
    decreases |ps|
  {
    var rest := ReadBy(turn, size, pos + |TextOf(ps)|);
    if ps == [] {
      AfterBoth([], [], rest);
    } else {
      LaidIsRead(turn, size, pos + |ps[0].text|, ps[1..]);
      AfterBoth(ps[0].value, ValueOf(ps[1..]), rest);
    }
  }

  // The turns read the part wherever it stands.
  ghost predicate ReadsBy(turn: nat -> Turn, data: seq<byte>, p: Part) {
    p.text != [] && forall pos: nat :: Stands(data, pos, p) ==> turn(pos) == Emit(p.value, pos + |p.text|)
  }

  // The parts stand one after the other.
  ghost predicate AllStand(data: seq<byte>, pos: nat, ps: seq<Part>)
    decreases |ps|
  {
    ps != [] ==> Stands(data, pos, ps[0]) && AllStand(data, pos + |ps[0].text|, ps[1..])
  }

  lemma {:induction false} PartsStand(data: seq<byte>, pos: nat, ps: seq<Part>, end: byte)
    requires Separate(ps, end) && At(data, pos, TextOf(ps) + [end])
    ensures AllStand(data, pos, ps)
    decreases |ps|
  {
    if ps != [] {
      FirstPart(data, pos, ps, end);
      PartsStand(data, pos + |ps[0].text|, ps[1..], end);
    }
  }

  ghost predicate AllReadBy(turn: nat -> Turn, data: seq<byte>, ps: seq<Part>) {
    ps != [] ==> ReadsBy(turn, data, ps[0]) && AllReadBy(turn, data, ps[1..])
  }

  lemma {:induction false} PartsAreLaid(turn: nat -> Turn, data: seq<byte>, pos: nat, ps: seq<Part>)
    requires AllStand(data, pos, ps) && AllReadBy(turn, data, ps)
    ensures Laid(turn, pos, ps)
    decreases |ps|
  {
    if ps != [] {
      PartIsRead(turn, data, pos, ps[0]);
      PartsAreLaid(turn, data, pos + |ps[0].text|, ps[1..]);
    }
  }

  lemma PartIsRead(turn: nat -> Turn, data: seq<byte>, pos: nat, p: Part)
    requires Stands(data, pos, p) && ReadsBy(turn, data, p)
    ensures turn(pos) == Emit(p.value, pos + |p.text|) && p.text != []
  {
  }

  lemma {:induction false} AllReadByTurns(data: seq<byte>, ps: seq<Part>, quote: int)
    requires AllRead(ps, quote)
    ensures AllReadBy(Turns(data, quote), data, ps)
    decreases |ps|
  {
    if ps != [] {
      ReadsByTurns(ps[0], data, quote);
      AllReadByTurns(data, ps[1..], quote);
    }
  }

  lemma ReadsByTurns(p: Part, data: seq<byte>, quote: int)
    requires Reads(p, quote)
    ensures ReadsBy(Turns(data, quote), data, p)
  {
    forall pos: nat | Stands(data, pos, p)
      ensures Turns(data, quote)(pos) == Emit(p.value, pos + |p.text|)
    {
      assert ReadAt(data, pos, p, quote);
    }
  }

  // What the turn after the parts decides.
  ghost predicate Decides(last: Turn, value: seq<byte>, next: nat, r: Outcome) {
    && (last == Close(next + 1) ==> r == Value(value, next + 1))
    && (last.Bad? || last.Fatal? ==> r.Erroneous?)
  }

  lemma LaidEnds(turn: nat -> Turn, size: nat, pos: nat, next: nat, ps: seq<Part>)
    requires Laid(turn, pos, ps) && next == pos + |TextOf(ps)| <= size
    ensures Decides(turn(next), ValueOf(ps), next, ReadBy(turn, size, pos))
  {
    LaidIsRead(turn, size, pos, ps);
    assert ValueOf(ps) + [] == ValueOf(ps);
  }

  lemma AreLaid(turn: nat -> Turn, data: seq<byte>, pos: nat, ps: seq<Part>, end: byte)
    requires AllReadBy(turn, data, ps) && Separate(ps, end) && At(data, pos, TextOf(ps) + [end])
    ensures Laid(turn, pos, ps)
  {
    PartsStand(data, pos, ps, end);
    PartsAreLaid(turn, data, pos, ps);
  }

  // The same of the turns of a literal.
  lemma LiteralEnds(data: seq<byte>, pos: nat, next: nat, ps: seq<Part>, end: byte, quote: int)
    requires AllRead(ps, quote) && Separate(ps, end) && At(data, pos, TextOf(ps) + [end])
    requires next == pos + |TextOf(ps)|
    ensures Decides(Turns(data, quote)(next), ValueOf(ps), next, ReadBy(Turns(data, quote), |data|, pos))
  {
    var turn := Turns(data, quote);
    AllReadByTurns(data, ps, quote);
    AreLaid(turn, data, pos, ps, end);
    LaidEnds(turn, |data|, pos, next, ps);
  }

  /** A literal of any parts, between either kind of quote, lexes to their values. */
  lemma LexingReadsParts(data: seq<byte>, pos: nat, ps: seq<Part>, quote: byte)
    requires (quote == 34 || quote == 39) && AllRead(ps, quote as int) && Separate(ps, quote)
    requires At(data, pos, TextOf(ps) + [quote])
    ensures ReadFrom(data, pos, quote as int) == Value(ValueOf(ps), pos + |TextOf(ps)| + 1)
  {
    var next := pos + |TextOf(ps)|;
    AtByte(data, pos, TextOf(ps) + [quote], |TextOf(ps)|);
    Closes(data, next, quote);
    LiteralEnds(data, pos, next, ps, quote, quote as int);
    ReadByTurns(data, pos, quote as int);
  }

  lemma Closes(data: seq<byte>, pos: nat, quote: byte)
    requires (quote == 34 || quote == 39) && pos < |data| && data[pos] == quote
    ensures Turns(data, quote as int)(pos) == Close(pos + 1)
  {
  }

  // What is found at `pos` is an error, whatever follows.
  ghost predicate Refused(data: seq<byte>, pos: nat, quote: int) {
    var turn := Turns(data, quote)(pos);
    turn.Bad? || turn.Fatal?
  }

  /** A literal in which anything is refused is an error as a whole. */
  lemma LexingRefuses(data: seq<byte>, pos: nat, ps: seq<Part>, end: byte, quote: int)
    requires AllRead(ps, quote) && Separate(ps, end) && At(data, pos, TextOf(ps) + [end])
    requires Refused(data, pos + |TextOf(ps)|, quote)
    ensures ReadFrom(data, pos, quote).Erroneous?
  {
    LiteralEnds(data, pos, pos + |TextOf(ps)|, ps, end, quote);
    ReadByTurns(data, pos, quote);
  }

  // --- The parts that there are ----------------------------------------------------------------------

  // A rune that is written as it is.
  ghost function PlainPart(r: int): Part { Part(EncodeRune(r), EncodeRune(r), Anyhow) }

  /** Text other than quotes, backslashes, NULs and line ends stands for itself. */
  lemma PlainReads(r: int, quote: int)
    requires IsRune(r) && r != quote && r !in {0, 10, 92}
    ensures Reads(PlainPart(r), quote)
  {
    var p := PlainPart(r);
    forall data: seq<byte>, pos: nat | Stands(data, pos, p)
      ensures ReadAt(data, pos, p, quote)
    {
      DecodeInvertsEncode(data, pos, r);
      RuneIs(data, pos, r, quote);
    }
  }

  lemma RuneIs(data: seq<byte>, pos: nat, r: int, quote: int)
    requires pos < |data| && DecodeRune(data, pos).0 == r && r != quote && r !in {0, 10, 92}
    ensures Literal(data, pos, quote) == Emit(EncodeRune(r), pos + DecodeRune(data, pos).1)
  {
  }

  // The letters of the simple escapes, and what they stand for.
  const LETTERS: seq<byte> := [97, 98, 102, 110, 114, 116, 118, 92, 39, 34, 63]
  const CONTROLS: seq<byte> := [7, 8, 12, 10, 13, 9, 11, 92, 39, 34, 63]

  ghost function SimplePart(i: nat): Part
    requires i < |LETTERS|
  {
    Part([92, LETTERS[i]], [CONTROLS[i]], Anyhow)
  }

  /** The eleven simple escapes. */
  lemma SimpleReads(i: nat, quote: int)
    requires i < |LETTERS| && (quote == 34 || quote == 39)
    ensures Reads(SimplePart(i), quote)
  {
    var p := SimplePart(i);
    forall data: seq<byte>, pos: nat | Stands(data, pos, p)
      ensures ReadAt(data, pos, p, quote)
    {
      AtByte(data, pos, p.text, 0);
      AtByte(data, pos, p.text, 1);
      SimpleIs(data, pos, quote, i);
    }
  }

  lemma SimpleIs(data: seq<byte>, pos: nat, quote: int, i: nat)
    requires i < |LETTERS| && pos + 1 < |data| && Starts(data, pos, quote) && data[pos + 1] == LETTERS[i]
    ensures Literal(data, pos, quote) == Emit([CONTROLS[i]], pos + 2)
  {
  }

  // An escape begins: a backslash, and a quote that ends the literal.
  ghost predicate Starts(data: seq<byte>, pos: nat, quote: int) {
    pos < |data| && data[pos] == 92 && (quote == 34 || quote == 39)
  }

  lemma Escapes(data: seq<byte>, pos: nat, quote: int)
    requires Starts(data, pos, quote)
    ensures Literal(data, pos, quote) == EscapeSequence(data, pos + 1, quote)
  {
  }

  lemma EscapesHex(data: seq<byte>, pos: nat, quote: int)
    requires pos < |data| && (data[pos] == 120 || data[pos] == 88)
    ensures EscapeSequence(data, pos, quote) == HexEscape(data, pos + 1, quote)
  {
  }

  lemma EscapesOctal(data: seq<byte>, pos: nat, quote: int)
    requires pos < |data| && IsOctal(data[pos] as int)
    ensures EscapeSequence(data, pos, quote) == OctalEscape(data, pos + 1, data[pos] as int)
  {
  }

  lemma EscapesUnicode(data: seq<byte>, pos: nat, quote: int, n: nat)
    requires pos < |data| && ((n == 4 && data[pos] == 117) || (n == 8 && data[pos] == 85))
    ensures EscapeSequence(data, pos, quote) == UnicodeEscape(data, pos + 1, quote, n)
  {
    assert DecodeRune(data, pos) == (data[pos] as int, 1);
  }

  // One or two hex digits after an x or an X.
  ghost function HexPart(ds: seq<byte>, capital: bool): Part
    requires Below(ds, 16) && |ds| <= 2
  {
    HexNumber(ds);
    Part([92, if capital then 88 else 120] + ds, [Number(ds, 16) as byte], if |ds| < 2 then NoHex else Anyhow)
  }

  lemma HexNumber(ds: seq<byte>)
    requires Below(ds, 16) && |ds| <= 2
    ensures var a, b := DigitValue(ds[0] as int), DigitValue(ds[|ds| - 1] as int);
            Number(ds, 16) == if |ds| == 1 then a else a * 16 + b
    ensures Number(ds, 16) < 256
  {
    assert ds[..|ds| - 1] == if |ds| == 1 then [] else [ds[0]];
    assert Number([], 16) == 0 && Number([ds[0]], 16) == Number([ds[0]][..0], 16) * 16 + DigitValue(ds[0] as int);
    DigitIs(ds[0], 16);
    DigitIs(ds[|ds| - 1], 16);
  }

  /** A byte as one or two hex digits, of either case. */
  lemma HexReads(ds: seq<byte>, capital: bool, quote: int)
    requires Below(ds, 16) && |ds| <= 2 && (quote == 34 || quote == 39)
    ensures Reads(HexPart(ds, capital), quote)
  {
    var p := HexPart(ds, capital);
    forall data: seq<byte>, pos: nat | Stands(data, pos, p)
      ensures ReadAt(data, pos, p, quote)
    {
      HexIs(data, pos, ds, capital, quote);
    }
  }

  lemma HexIs(data: seq<byte>, pos: nat, ds: seq<byte>, capital: bool, quote: int)
    requires Below(ds, 16) && |ds| <= 2 && (quote == 34 || quote == 39)
    requires Stands(data, pos, HexPart(ds, capital))
    ensures ReadAt(data, pos, HexPart(ds, capital), quote)
  {
    HexText(data, pos, ds, if capital then 88 else 120);
    HexNumber(ds);
    HexList(ds, Number(ds, 16));
    Escapes(data, pos, quote);
    EscapesHex(data, pos + 1, quote);
    if |ds| == 2 {
      HexTwo(data, pos + 2, quote, ds[0], ds[1], Number(ds, 16));
    } else {
      HexOne(data, pos + 2, quote, ds[0], Number(ds, 16));
    }
  }

  lemma HexList(ds: seq<byte>, v: int)
    requires Below(ds, 16) && |ds| <= 2 && v == Number(ds, 16) && 0 <= v < 256
    ensures |ds| == 1 ==> ParseInt([ds[0] as int], 16) == Some(v)
    ensures |ds| == 2 ==> ParseInt([ds[0] as int, ds[1] as int], 16) == Some(v)
  {
    NumeralParses(ds, 16);
    assert |ds| == 1 ==> Ints(ds) == [ds[0] as int];
    assert |ds| == 2 ==> Ints(ds) == [ds[0] as int, ds[1] as int];
  }

  lemma HexText(data: seq<byte>, pos: nat, ds: seq<byte>, x: byte)
    requires Below(ds, 16) && |ds| <= 2 && At(data, pos, [92, x] + ds)
    ensures data[pos] == 92 && data[pos + 1] == x && HexAt(data, pos + 2, ds[0])
    ensures |ds| == 2 ==> HexAt(data, pos + 3, ds[1])
  {
    var s: seq<byte> := [92, x] + ds;
    AtByte(data, pos, s, 0);
    AtByte(data, pos, s, 1);
    AtByte(data, pos, s, 2);
    DigitIs(ds[0], 16);
    if |ds| == 2 {
      AtByte(data, pos, s, 3);
      DigitIs(ds[1], 16);
    }
  }

  predicate HexAt(data: seq<byte>, pos: nat, c: byte) { pos < |data| && data[pos] == c && IsHex(c as int) }

  lemma HexTwo(data: seq<byte>, pos: nat, quote: int, a: byte, b: byte, v: int)
    requires HexAt(data, pos, a) && HexAt(data, pos + 1, b) && (quote == 34 || quote == 39)
    requires 0 <= v < 256 && ParseInt([a as int, b as int], 16) == Some(v)
    ensures HexEscape(data, pos, quote) == Emit([v as byte], pos + 2)
  {
    assert DecodeRune(data, pos) == (a as int, 1) && DecodeRune(data, pos + 1) == (b as int, 1);
  }

  lemma HexOne(data: seq<byte>, pos: nat, quote: int, a: byte, v: int)
    requires HexAt(data, pos, a) && pos + 1 < |data| && !IsHex(data[pos + 1] as int) && (quote == 34 || quote == 39)
    requires 0 <= v < 256 && ParseInt([a as int], 16) == Some(v)
    ensures HexEscape(data, pos, quote) == Emit([v as byte], pos + 1)
  {
    assert DecodeRune(data, pos) == (a as int, 1);
    NotHexRune(data, pos + 1);
  }

  // A rune that does not start with a hex digit is none.
  lemma NotHexRune(data: seq<byte>, pos: nat)
    requires pos < |data| && !IsHex(data[pos] as int)
    ensures !IsHex(DecodeRune(data, pos).0)
  {
  }

  // One to three octal digits.
  ghost function OctalPart(ds: seq<byte>): Part
    requires Below(ds, 8) && Number(ds, 8) < 256
  {
    Part([92] + ds, [Number(ds, 8) as byte], if |ds| < 3 then NoOctal else Anyhow)
  }

  /** A byte as one, two or three octal digits. */
  lemma OctalReads(ds: seq<byte>, quote: int)
    requires Below(ds, 8) && |ds| <= 3 && Number(ds, 8) < 256 && (quote == 34 || quote == 39)
    ensures Reads(OctalPart(ds), quote)
  {
    var p := OctalPart(ds);
    forall data: seq<byte>, pos: nat | Stands(data, pos, p)
      ensures ReadAt(data, pos, p, quote)
    {
      OctalText(data, pos, ds);
      OctalIs(data, pos, ds, quote);
    }
  }

  /** Three octal digits that make more than a byte are refused. */
  lemma OctalRefused(data: seq<byte>, pos: nat, ds: seq<byte>, quote: int)
    requires Below(ds, 8) && |ds| == 3 && At(data, pos, [92] + ds) && (quote == 34 || quote == 39)
    ensures Refused(data, pos, quote) <==> Number(ds, 8) > 255
  {
    OctalText(data, pos, ds);
    OctalIs(data, pos, ds, quote);
  }

  lemma OctalIs(data: seq<byte>, pos: nat, ds: seq<byte>, quote: int)
    requires Below(ds, 8) && |ds| <= 3 && Starts(data, pos, quote)
    requires OctalAt(data, pos + 1, ds[0]) && OctalTail(data, pos + 2, ds)
    ensures Literal(data, pos, quote) == ByteOr(Number(ds, 8), pos + 1 + |ds|)
  {
    Escapes(data, pos, quote);
    EscapesOctal(data, pos + 1, quote);
    OctalEscapeIs(data, pos + 2, ds, Number(ds, 8));
  }

  // A byte is emitted, and a larger number is not.
  function ByteOr(v: nat, next: nat): Turn { if v < 256 then Emit([v as byte], next) else Bad(next) }

  predicate OctalAt(data: seq<byte>, pos: nat, c: byte) { pos < |data| && data[pos] == c && IsOctal(c as int) }

  // The digits after the first one, and no more of them.
  ghost predicate OctalTail(data: seq<byte>, pos: nat, ds: seq<byte>) {
    && (|ds| >= 2 ==> OctalAt(data, pos, ds[1]))
    && (|ds| >= 3 ==> OctalAt(data, pos + 1, ds[2]))
    && (1 <= |ds| <= 2 ==> pos + |ds| - 1 < |data| && !IsOctal(data[pos + |ds| - 1] as int))
  }

  lemma OctalText(data: seq<byte>, pos: nat, ds: seq<byte>)
    requires Below(ds, 8) && |ds| <= 3 && At(data, pos, [92] + ds)
    requires |ds| < 3 ==> pos + 1 + |ds| < |data| && !IsOctal(data[pos + 1 + |ds|] as int)
    ensures data[pos] == 92 && OctalAt(data, pos + 1, ds[0]) && OctalTail(data, pos + 2, ds)
  {
    var s: seq<byte> := [92] + ds;
    AtByte(data, pos, s, 0);
    AtByte(data, pos, s, 1);
    DigitIs(ds[0], 8);
    if |ds| >= 2 {
      AtByte(data, pos, s, 2);
      DigitIs(ds[1], 8);
    }
    if |ds| == 3 {
      AtByte(data, pos, s, 3);
      DigitIs(ds[2], 8);
    }
  }

  lemma OctalEscapeIs(data: seq<byte>, pos: nat, ds: seq<byte>, v: nat)
    requires Below(ds, 8) && |ds| <= 3 && v == Number(ds, 8) && OctalTail(data, pos, ds) && pos <= |data|
    ensures OctalEscape(data, pos, ds[0] as int) == ByteOr(v, pos + |ds| - 1)
  {
    OctalList(ds, v);
    if |ds| == 1 {
      OctalOne(data, pos, ds[0], v);
    } else if |ds| == 2 {
      OctalTwo(data, pos, ds[0], ds[1], v);
    } else {
      OctalThree(data, pos, ds[0], ds[1], ds[2], v);
    }
  }

  lemma OctalList(ds: seq<byte>, v: nat)
    requires Below(ds, 8) && |ds| <= 3 && v == Number(ds, 8)
    ensures |ds| == 1 ==> ParseInt([ds[0] as int], 8) == Some(v)
    ensures |ds| == 2 ==> ParseInt([ds[0] as int, ds[1] as int], 8) == Some(v)
    ensures |ds| == 3 ==> ParseInt([ds[0] as int, ds[1] as int, ds[2] as int], 8) == Some(v)
  {
    OctalNumber(ds);
    NumeralParses(ds, 8);
    assert |ds| == 1 ==> Ints(ds) == [ds[0] as int];
    assert |ds| == 2 ==> Ints(ds) == [ds[0] as int, ds[1] as int];
    assert |ds| == 3 ==> Ints(ds) == [ds[0] as int, ds[1] as int, ds[2] as int];
  }

  lemma {:induction false} OctalNumber(ds: seq<byte>)
    requires Below(ds, 8) && |ds| <= 3
    ensures Number(ds, 8) < if |ds| == 1 then 8 else if |ds| == 2 then 64 else 512
    decreases |ds|
  {
    DigitIs(ds[|ds| - 1], 8);
    if |ds| == 1 {
      assert Number(ds[..0], 8) == 0;
    } else {
      OctalNumber(ds[..|ds| - 1]);
    }
  }

  // Digits are taken as long as there are any, up to three.
  lemma OctalOne(data: seq<byte>, pos: nat, a: byte, v: nat)
    requires pos < |data| && !IsOctal(data[pos] as int) && ParseInt([a as int], 8) == Some(v)
    ensures OctalEscape(data, pos, a as int) == ByteOr(v, pos)
  {
    NotOctalRune(data, pos);
  }

  lemma OctalTwo(data: seq<byte>, pos: nat, a: byte, b: byte, v: nat)
    requires OctalAt(data, pos, b) && pos + 1 < |data| && !IsOctal(data[pos + 1] as int)
    requires ParseInt([a as int, b as int], 8) == Some(v)
    ensures OctalEscape(data, pos, a as int) == ByteOr(v, pos + 1)
  {
    NotOctalRune(data, pos + 1);
  }

  lemma OctalThree(data: seq<byte>, pos: nat, a: byte, b: byte, c: byte, v: nat)
    requires OctalAt(data, pos, b) && OctalAt(data, pos + 1, c)
    requires ParseInt([a as int, b as int, c as int], 8) == Some(v)
    ensures OctalEscape(data, pos, a as int) == ByteOr(v, pos + 2)
  {
    assert DecodeRune(data, pos) == (b as int, 1) && DecodeRune(data, pos + 1) == (c as int, 1);
  }

  lemma NotOctalRune(data: seq<byte>, pos: nat)
    requires pos < |data| && !IsOctal(data[pos] as int)
    ensures !IsOctal(DecodeRune(data, pos).0)
  {
  }

  // Four hex digits after a u, or eight after a U.
  ghost function UnicodePart(ds: seq<byte>): Part
    requires Below(ds, 16)
  {
    Part([92, if |ds| == 4 then 117 else 85] + ds, EncodeRune(Number(ds, 16)), Anyhow)
  }

  // Eight digits can make too large a number, and four cannot.
  predicate Fits(ds: seq<byte>) { |ds| == 4 || (|ds| == 8 && Number(ds, 16) <= 0x10FFFF) }

  lemma FourDigitsFit(ds: seq<byte>)
    requires Below(ds, 16) && Fits(ds)
    ensures Number(ds, 16) <= 0x10FFFF
  {
    if |ds| == 4 {
      assert ds[..3][..2] == ds[..2];
      HexNumber(ds[..2]);
      DigitIs(ds[2], 16);
      DigitIs(ds[3], 16);
    }
  }

  /** A rune as four or eight hex digits, of either case. */
  lemma UnicodeReads(ds: seq<byte>, quote: int)
    requires Below(ds, 16) && Fits(ds) && (quote == 34 || quote == 39)
    ensures Reads(UnicodePart(ds), quote)
  {
    var p := UnicodePart(ds);
    forall data: seq<byte>, pos: nat | Stands(data, pos, p)
      ensures ReadAt(data, pos, p, quote)
    {
      UnicodeAt(data, pos, ds, quote);
    }
  }

  lemma UnicodeAt(data: seq<byte>, pos: nat, ds: seq<byte>, quote: int)
    requires Below(ds, 16) && Fits(ds) && (quote == 34 || quote == 39) && Stands(data, pos, UnicodePart(ds))
    ensures ReadAt(data, pos, UnicodePart(ds), quote)
  {
    UnicodeText(data, pos, ds, if |ds| == 4 then 117 else 85);
    FourDigitsFit(ds);
    NumeralParses(ds, 16);
    NumeralRunes(data, pos + 2, ds, quote);
    Escapes(data, pos, quote);
    EscapesUnicode(data, pos + 1, quote, |ds|);
    UnicodeEscapeIs(data, pos + 2, quote, |ds|, Ints(ds), Number(ds, 16));
  }

  lemma UnicodeText(data: seq<byte>, pos: nat, ds: seq<byte>, u: byte)
    requires At(data, pos, [92, u] + ds)
    ensures data[pos] == 92 && data[pos + 1] == u && At(data, pos + 2, ds)
  {
    AtRest(data, pos, [92, u], ds);
    AtByte(data, pos, [92, u], 0);
    AtByte(data, pos, [92, u], 1);
  }

  lemma NumeralRunes(data: seq<byte>, pos: nat, ds: seq<byte>, quote: int)
    requires Below(ds, 16) && At(data, pos, ds) && (quote == 34 || quote == 39)
    ensures ReadRunes(data, pos, quote, |ds|) == Some((Ints(ds), pos + |ds|))
  {
    var s := ds;
    AtBytes(data, pos, s);
    forall i: nat | i < |ds|
      ensures s[i] < 0x80 && s[i] !in {34, 39, 92}
    {
      DigitIs(ds[i], 16);
    }
    RunesAre(data, pos, quote, s);
  }

  lemma UnicodeEscapeIs(data: seq<byte>, pos: nat, quote: int, n: nat, u: seq<int>, r: int)
    requires pos <= |data| && |u| == n && 0 <= r <= 0x10FFFF
    requires ReadRunes(data, pos, quote, n) == Some((u, pos + n)) && ParseInt(u, 16) == Some(r)
    ensures UnicodeEscape(data, pos, quote, n) == Emit(EncodeRune(r), pos + n)
  {
  }

  // ASCII without quotes and backslashes is read rune by rune.
  lemma {:induction false} RunesAre(data: seq<byte>, pos: nat, quote: int, ds: seq<byte>)
    requires pos + |ds| <= |data| && (quote == 34 || quote == 39)
    requires forall i :: 0 <= i < |ds| ==> data[pos + i] == ds[i] && ds[i] < 0x80 && ds[i] !in {34, 39, 92}
    ensures ReadRunes(data, pos, quote, |ds|) == Some((Ints(ds), pos + |ds|))
    decreases |ds|
  {
    if ds == [] {
      assert Ints(ds) == [];
    } else {
      forall i | 0 <= i < |ds[1..]|
        ensures data[pos + 1 + i] == ds[1..][i]
      {
        assert data[pos + (i + 1)] == ds[i + 1];
      }
      RunesAre(data, pos + 1, quote, ds[1..]);
      assert data[pos + 0] == ds[0] && DecodeRune(data, pos) == (ds[0] as int, 1);
      assert Ints(ds) == [ds[0] as int] + Ints(ds[1..]);
    }
  }

  // --- What is refused -------------------------------------------------------------------------------

  lemma ParseLarge(s: seq<int>, base: int, v: int)
    requires s != [] && s[0] != 43 && s[0] != 45 && ParseDigits(s, base) == Some(v) && v >= 0x8000_0000
    ensures ParseInt(s, base) == None
  {
  }

  /** Eight hex digits that make more than the last rune are refused. */
  lemma UnicodeRefused(data: seq<byte>, pos: nat, ds: seq<byte>, quote: int)
    requires Below(ds, 16) && |ds| == 8 && At(data, pos, [92, 85] + ds) && (quote == 34 || quote == 39)
    ensures Refused(data, pos, quote) <==> Number(ds, 16) > 0x10FFFF
  {
    UnicodeText(data, pos, ds, 85);
    Escapes(data, pos, quote);
    EscapesUnicode(data, pos + 1, quote, 8);
    EightDigits(data, pos + 2, ds, quote);
  }

  lemma EightDigits(data: seq<byte>, pos: nat, ds: seq<byte>, quote: int)
    requires Below(ds, 16) && |ds| == 8 && At(data, pos, ds) && (quote == 34 || quote == 39)
    ensures var t := UnicodeEscape(data, pos, quote, 8);
            if Number(ds, 16) > 0x10FFFF then t.Bad? else t.Emit?
  {
    NumeralRunes(data, pos, ds, quote);
    if Number(ds, 16) <= 0x10FFFF {
      NumeralParses(ds, 16);
      UnicodeEscapeIs(data, pos, quote, 8, Ints(ds), Number(ds, 16));
    } else {
      LargeParses(ds);
      UnicodeLarge(data, pos, quote, Ints(ds));
    }
  }

  lemma LargeParses(ds: seq<byte>)
    requires Below(ds, 16) && Number(ds, 16) > 0x10FFFF
    ensures ParseInt(Ints(ds), 16).Some? ==> ParseInt(Ints(ds), 16).value > 0x10FFFF
  {
    NumeralMeans(ds, 16);
    DigitIs(ds[0], 16);
    if Number(ds, 16) < 0x8000_0000 {
      NumeralParses(ds, 16);
    } else {
      ParseLarge(Ints(ds), 16, Number(ds, 16));
    }
  }

  lemma UnicodeLarge(data: seq<byte>, pos: nat, quote: int, u: seq<int>)
    requires pos <= |data| && |u| == 8 && ReadRunes(data, pos, quote, 8) == Some((u, pos + 8))
    requires ParseInt(u, 16).Some? ==> ParseInt(u, 16).value > 0x10FFFF
    ensures UnicodeEscape(data, pos, quote, 8) == Bad(pos + 8)
  {
  }

  /** Too few digits before the quote are refused. */
  lemma FewDigitsRefused(data: seq<byte>, pos: nat, ds: seq<byte>, quote: byte, n: nat)
    requires (ds == [] || Below(ds, 16)) && |ds| < n && (n == 4 || n == 8) && (quote == 34 || quote == 39)
    requires At(data, pos, [92, if n == 4 then 117 else 85] + ds + [quote])
    ensures Refused(data, pos, quote as int)
  {
    var u: byte := if n == 4 then 117 else 85;
    AtRest(data, pos, [92, u] + ds, [quote]);
    UnicodeText(data, pos, ds, u);
    AtByte(data, pos + 2 + |ds|, [quote], 0);
    FewRunes(data, pos + 2, ds, quote, n);
    Escapes(data, pos, quote as int);
    EscapesUnicode(data, pos + 1, quote as int, n);
  }

  lemma {:induction false} FewRunes(data: seq<byte>, pos: nat, ds: seq<byte>, quote: byte, n: nat)
    requires (ds == [] || Below(ds, 16)) && |ds| < n && (quote == 34 || quote == 39)
    requires At(data, pos, ds) && pos + |ds| < |data| && data[pos + |ds|] == quote
    ensures ReadRunes(data, pos, quote as int, n).Some? && |ReadRunes(data, pos, quote as int, n).value.0| < n
    decreases |ds|
  {
    if ds != [] {
      AtByte(data, pos, ds, 0);
      DigitIs(ds[0], 16);
      assert ds == [ds[0]] + ds[1..];
      AtRest(data, pos, [ds[0]], ds[1..]);
      FewRunes(data, pos + 1, ds[1..], quote, n - 1);
    }
  }

  /** A backslash before anything else is refused. */
  lemma UnknownRefused(data: seq<byte>, pos: nat, c: byte, quote: int)
    requires At(data, pos, [92, c]) && (quote == 34 || quote == 39)
    requires c !in LETTERS && c !in {120, 88, 117, 85} && !IsOctal(c as int)
    ensures Refused(data, pos, quote)
  {
    AtByte(data, pos, [92, c], 0);
    AtByte(data, pos, [92, c], 1);
    Escapes(data, pos, quote);
    NoSimpleEscape(c);
    NoSimpleRune(data, pos + 1, quote);
  }

  lemma NoSimpleEscape(c: byte)
    requires c !in LETTERS
    ensures SimpleEscape(c as int) == None
  {
    assert LETTERS[0] == 97 && LETTERS[1] == 98 && LETTERS[2] == 102 && LETTERS[3] == 110 && LETTERS[4] == 114;
    assert LETTERS[5] == 116 && LETTERS[6] == 118 && LETTERS[7] == 92 && LETTERS[8] == 39 && LETTERS[9] == 34;
    assert LETTERS[10] == 63;
  }

  lemma NoSimpleRune(data: seq<byte>, pos: nat, quote: int)
    requires pos < |data| && SimpleEscape(data[pos] as int) == None
    requires data[pos] !in {120, 88, 117, 85} && !IsOctal(data[pos] as int)
    ensures EscapeSequence(data, pos, quote).Bad?
  {
    assert data[pos] >= 0x80 ==> DecodeRune(data, pos).0 >= 0x80;
  }

  /** A NUL, a line end and the end of the input are refused. */
  lemma ControlRefused(data: seq<byte>, pos: nat, quote: int)
    requires pos <= |data| && (pos < |data| ==> data[pos] == 0 || data[pos] == 10) && (quote == 34 || quote == 39)
    ensures Refused(data, pos, quote)
  {
  }
}
