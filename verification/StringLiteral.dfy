/** readStringLiteral of parser/lexer.go, and its agreement with EscapeBytes. */
module StringLiteral {
  import opened Common
  import opened Utf8
  import opened Escape

  // The effect of one turn of the loop: the closing quote, decoded bytes, a bad escape
  // (reported, and reading goes on), or an end of input or line that ends the reading.
  datatype Turn = Close(next: nat) | Emit(out: seq<byte>, next: nat) | Bad(next: nat) | Fatal(next: nat)

  function Low(i: int): byte { (i % 256) as byte }

  function Literal(data: seq<byte>, pos: nat, quote: int): (t: Turn)
    requires pos <= |data|
    ensures pos <= t.next <= |data| && (!t.Fatal? ==> pos < t.next)
  {
    if pos == |data| then Fatal(|data|)
    else
      var (c, n) := DecodeRune(data, pos);
      if c == 10 then Fatal(pos + n)
      else if c == quote then Close(pos + n)
      else if c == 0 then Bad(pos + n)
      else if c != 92 then Emit(EncodeRune(c), pos + n)
      else EscapeSequence(data, pos + n, quote)
  }

  // After the backslash.
  function EscapeSequence(data: seq<byte>, pos: nat, quote: int): (t: Turn)
    requires pos <= |data|
    ensures pos <= t.next <= |data| && (!t.Fatal? ==> pos < t.next)
  {
    if pos == |data| then Fatal(|data|)
    else
      var (c, n) := DecodeRune(data, pos);
      var p := pos + n;
      if c == 120 || c == 88 then HexEscape(data, p, quote)
      else if IsOctal(c) then OctalEscape(data, p, c)
      else if c == 117 || c == 85 then UnicodeEscape(data, p, quote, if c == 117 then 4 else 8)
      else
        match SimpleEscape(c)
        case None => Bad(p)
        case Some(b) => Emit([b], p)
  }

  function HexEscape(data: seq<byte>, pos: nat, quote: int): (t: Turn)
    requires pos <= |data|
    ensures pos <= t.next <= |data|
  {
    if pos == |data| then Fatal(|data|)
    else
      var (c1, n1) := DecodeRune(data, pos);
      if c1 == quote || c1 == 92 then Bad(pos)
      else if pos + n1 == |data| then Fatal(|data|)
      else
        var (c2, n2) := DecodeRune(data, pos + n1);
        var hex := if IsHex(c2) then [c1, c2] else [c1];
        var next := if IsHex(c2) then pos + n1 + n2 else pos + n1;
        match ParseInt(hex, 16)
        case None => Bad(next)
        case Some(i) => Emit([Low(i)], next)
  }

  // `c` is the first digit.
  function OctalEscape(data: seq<byte>, pos: nat, c: int): (t: Turn)
    requires pos <= |data|
    ensures pos <= t.next <= |data|
  {
    if pos == |data| then Fatal(|data|)
    else
      var (c2, n2) := DecodeRune(data, pos);
      if !IsOctal(c2) then OctalValue([c], pos)
      else if pos + n2 == |data| then Fatal(|data|)
      else
        var (c3, n3) := DecodeRune(data, pos + n2);
        if !IsOctal(c3) then OctalValue([c, c2], pos + n2) else OctalValue([c, c2, c3], pos + n2 + n3)
  }

  function OctalValue(octal: seq<int>, next: nat): Turn {
    match ParseInt(octal, 8)
    case None => Bad(next)
    case Some(i) => if i > 0xFF then Bad(next) else Emit([Low(i)], next)
  }

  // Up to `count` runes, stopping before a quote or a backslash; None at the end of input.
  function ReadRunes(data: seq<byte>, pos: nat, quote: int, count: nat): (r: Option<(seq<int>, nat)>)
    requires pos <= |data|
    ensures r.Some? ==> pos <= r.value.1 <= |data| && |r.value.0| <= count
    decreases count
  {
    if count == 0 then Some(([], pos))
    else if pos == |data| then None
    else
      var (c, n) := DecodeRune(data, pos);
      if c == quote || c == 92 then Some(([], pos))
      else
        match ReadRunes(data, pos + n, quote, count - 1)
        case None => None
        case Some((u, next)) => Some(([c] + u, next))
  }

  function UnicodeEscape(data: seq<byte>, pos: nat, quote: int, count: nat): (t: Turn)
    requires pos <= |data|
    ensures pos <= t.next <= |data|
  {
    match ReadRunes(data, pos, quote, count)
    case None => Fatal(|data|)
    case Some((u, next)) =>
      if |u| < count then Bad(next)
      else
        match ParseInt(u, 16)
        case None => Bad(next)
        case Some(i) => if count == 8 && (i > 0x10FFFF || i < 0) then Bad(next) else Emit(EncodeRune(i), next)
  }

  // The value of the literal and the position after it, or an error.
  datatype Outcome = Erroneous | Value(value: seq<byte>, next: nat)

  function ReadFrom(data: seq<byte>, pos: nat, quote: int): Outcome
    requires pos <= |data|
    decreases |data| - pos
  {
    match Literal(data, pos, quote)
    case Fatal(_) => Erroneous
    case Close(next) => Value([], next)
    case Bad(next) => Erroneous
    case Emit(out, next) => After(out, ReadFrom(data, next, quote))
  }

  // The outcome when `buf` has been read before.
  function After(buf: seq<byte>, r: Outcome): Outcome {
    if r.Erroneous? then Erroneous else Value(buf + r.value, r.next)
  }

  lemma AfterBoth(a: seq<byte>, b: seq<byte>, r: Outcome)
    ensures After(a + b, r) == After(a, After(b, r))
    ensures After([], r) == r
  {
    if r.Value? {
      assert a + b + r.value == a + (b + r.value);
      assert [] + r.value == r.value;
    }
  }

  method ReadStringLiteral(data: seq<byte>, start: nat, quote: int) returns (value: Option<seq<byte>>, pos: nat)
    requires start <= |data|
    ensures start <= pos <= |data|
    ensures ReadFrom(data, start, quote) == if value.Some? then Value(value.value, pos) else Erroneous
  {
    pos := start;
    var buf, escapeError := [], false;
    AfterBoth([], [], ReadFrom(data, start, quote));
    while true
      invariant start <= pos <= |data|
      invariant escapeError ==> ReadFrom(data, start, quote).Erroneous?
      invariant !escapeError ==> ReadFrom(data, start, quote) == After(buf, ReadFrom(data, pos, quote))
      decreases |data| - pos
    {
      match Literal(data, pos, quote)
      case Fatal(next) => return None, next;
      case Close(next) =>
        assert buf + [] == buf;
        pos := next;
        return if escapeError then None else Some(buf), pos;
      case Bad(next) =>
        escapeError, pos := true, next;
      case Emit(out, next) =>
        AfterBoth(buf, out, ReadFrom(data, next, quote));
        buf, pos := buf + out, next;
    }
  }

  // --- Agreement with EscapeBytes ----------------------------------------------------------

  lemma ParseOctal(c: byte)
    ensures var a, b, d := c as int / 64 % 8, c as int / 8 % 8, c as int % 8;
            ParseInt([48 + a, 48 + b, 48 + d], 8) == Some(c as int)
  {
    OctalDigits(c);
  }

  // Three octal digits after a backslash.
  lemma OctalTurn(data: seq<byte>, pos: nat, c: byte)
    requires pos + 3 < |data|
    requires data[pos] as int == 48 + c as int / 64 % 8
    requires data[pos + 1] as int == 48 + c as int / 8 % 8
    requires data[pos + 2] as int == 48 + c as int % 8
    ensures OctalEscape(data, pos + 1, data[pos] as int) == Emit([c], pos + 3)
  {
    ParseOctal(c);
    assert DecodeRune(data, pos + 1) == (data[pos + 1] as int, 1);
    assert DecodeRune(data, pos + 2) == (data[pos + 2] as int, 1);
  }

  // Where the data continues with an escaped byte, the loop decodes that byte, whichever
  // of the two quotes encloses the literal.
  lemma LiteralOfEscaped(data: seq<byte>, pos: nat, c: byte, quote: int)
    requires quote == 34 || quote == 39
    requires pos + |EscapeByte(c)| < |data| && data[pos..pos + |EscapeByte(c)|] == EscapeByte(c)
    ensures Literal(data, pos, quote) == Emit([c], pos + |EscapeByte(c)|)
  {
    var e := EscapeByte(c);
    var d := data[pos..pos + |e|];
    assert d[0] == data[pos] && DecodeRune(data, pos) == (e[0] as int, 1);
    if |e| > 1 {
      assert d[1] == data[pos + 1] && DecodeRune(data, pos + 1) == (e[1] as int, 1);
      assert Literal(data, pos, quote) == EscapeSequence(data, pos + 1, quote);
    }
    if |e| == 4 {
      assert d[2] == data[pos + 2] && d[3] == data[pos + 3];
      OctalTurn(data, pos + 1, c);
    }
  }

  lemma PrefixAt(data: seq<byte>, pos: nat, a: seq<byte>, b: seq<byte>)
    requires pos <= |data| && a + b <= data[pos..]
    ensures pos + |a| <= |data| && data[pos..pos + |a|] == a && b <= data[pos + |a|..]
  {
    var s := data[pos..];
    assert s[..|a|] == a;
    assert s[|a|..] == data[pos + |a|..];
    assert s[|a|..][..|b|] == b;
  }

  /** Lexing EscapeBytes(b) between either kind of quote yields b, without an error. */
  lemma {:induction false} LexingInvertsEscape(data: seq<byte>, pos: nat, b: seq<byte>, quote: byte)
    requires quote == 34 || quote == 39
    requires pos <= |data| && Escaped(b) + [quote] <= data[pos..]
    ensures ReadFrom(data, pos, quote as int) == Value(b, pos + |Escaped(b)| + 1)
    decreases |b|
  {
    if b == [] {
      ClosingQuote(data, pos, quote);
    } else {
      var e, tail := EscapeByte(b[0]), b[1..];
      FirstEscaped(data, pos, b, quote);
      LexingInvertsEscape(data, pos + |e|, tail, quote);
      Rejoin(b, pos + |e| + |Escaped(tail)| + 1);
      EscapedLength(b);
    }
  }

  lemma EscapedLength(b: seq<byte>)
    requires b != []
    ensures |Escaped(b)| == |EscapeByte(b[0])| + |Escaped(b[1..])|
  {
  }

  lemma Rejoin(b: seq<byte>, next: nat)
    requires b != []
    ensures After([b[0]], Value(b[1..], next)) == Value(b, next)
  {
    assert [b[0]] + b[1..] == b;
  }

  lemma ClosingQuote(data: seq<byte>, pos: nat, quote: byte)
    requires quote == 34 || quote == 39
    requires pos <= |data| && [] + [quote] <= data[pos..]
    ensures ReadFrom(data, pos, quote as int) == Value([], pos + 1)
  {
    assert data[pos..][0] == quote;
    assert DecodeRune(data, pos) == (quote as int, 1);
  }

  lemma FirstEscaped(data: seq<byte>, pos: nat, b: seq<byte>, quote: byte)
    requires quote == 34 || quote == 39
    requires b != [] && pos <= |data| && Escaped(b) + [quote] <= data[pos..]
    ensures var next := pos + |EscapeByte(b[0])|;
            && next <= |data| && Escaped(b[1..]) + [quote] <= data[next..]
            && ReadFrom(data, pos, quote as int) == After([b[0]], ReadFrom(data, next, quote as int))
  {
    var e, rest := EscapeByte(b[0]), Escaped(b[1..]);
    assert Escaped(b) == e + rest;
    Regroup(e, rest, [quote]);
    PrefixAt(data, pos, e, rest + [quote]);
    assert |data[pos + |e|..]| > 0;
    LiteralOfEscaped(data, pos, b[0], quote as int);
    ReadEmitted(data, pos, quote as int, [b[0]], pos + |e|);
  }

  lemma ReadEmitted(data: seq<byte>, pos: nat, quote: int, out: seq<byte>, next: nat)
    requires pos <= |data| && Literal(data, pos, quote) == Emit(out, next)
    ensures ReadFrom(data, pos, quote) == After(out, ReadFrom(data, next, quote))
  {
  }
}
