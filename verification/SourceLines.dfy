/** Where lines start in a source text, and that no token of parser/lexer.go goes over a line end. */
module SourceLines {
  import opened Common
  import opened Utf8
  import opened Escape
  import opened Lexemes
  import opened StringLiteral

  // The offsets at which lines start, for line ends before `n`.
  ghost function LineStarts(data: seq<byte>, n: nat): (s: seq<nat>)
    requires n <= |data|
    ensures s != [] && s[|s| - 1] <= n
  {
    if n == 0 then [0] else LineStarts(data, n - 1) + if data[n - 1] == 10 then [n] else []
  }

  // The number of line ends before `n`.
  function LineEndsBefore(data: seq<byte>, n: nat): nat
    requires n <= |data|
  {
    if n == 0 then 0 else LineEndsBefore(data, n - 1) + if data[n - 1] == 10 then 1 else 0
  }

  lemma {:induction false} StartsCount(data: seq<byte>, n: nat)
    requires n <= |data|
    ensures |LineStarts(data, n)| == LineEndsBefore(data, n) + 1
    decreases n
  {
    if n > 0 {
      StartsCount(data, n - 1);
    }
  }

  ghost predicate OneLine(data: seq<byte>, a: nat, b: nat) {
    b <= |data| && forall i :: a <= i < b ==> data[i] != 10
  }

  lemma {:induction false} SameStarts(data: seq<byte>, a: nat, b: nat)
    requires a <= b && OneLine(data, a, b)
    ensures LineStarts(data, b) == LineStarts(data, a)
    decreases b
  {
    if a < b {
      SameStarts(data, a, b - 1);
    }
  }

  lemma RuneOnLine(data: seq<byte>, pos: nat)
    requires pos < |data| && DecodeRune(data, pos).0 != 10
    ensures OneLine(data, pos, pos + DecodeRune(data, pos).1)
  {
    NoCloserInside(data, pos);
  }

  // --- String literals -----------------------------------------------------------------------------

  lemma {:induction false} DigitsOnLine(s: seq<int>, base: int)
    requires 10 in s && base <= 16
    ensures ParseDigits(s, base).None?
    decreases |s|
  {
    if s[|s| - 1] != 10 {
      assert 10 in s[..|s| - 1];
      DigitsOnLine(s[..|s| - 1], base);
    }
  }

  lemma NumeralOnLine(s: seq<int>, base: int)
    requires 10 in s && base <= 16
    ensures ParseInt(s, base).None?
  {
    var signed := s[0] == 43 || s[0] == 45;
    assert signed ==> 10 in s[1..];
    DigitsOnLine(if signed then s[1..] else s, base);
  }

  lemma {:induction false} RunesOnLine(data: seq<byte>, pos: nat, quote: int, count: nat)
    requires pos <= |data| && ReadRunes(data, pos, quote, count).Some?
    ensures var (u, next) := ReadRunes(data, pos, quote, count).value;
            10 !in u ==> OneLine(data, pos, next)
    decreases count
  {
    if count > 0 {
      var (c, n) := DecodeRune(data, pos);
      if c != quote && c != 92 {
        RunesOnLine(data, pos + n, quote, count - 1);
        if c != 10 {
          RuneOnLine(data, pos);
        }
      }
    }
  }

  lemma HexOnLine(data: seq<byte>, pos: nat, quote: int)
    requires pos <= |data| && HexEscape(data, pos, quote).Emit?
    ensures OneLine(data, pos, HexEscape(data, pos, quote).next)
  {
    var (c1, n1) := DecodeRune(data, pos);
    var (c2, n2) := DecodeRune(data, pos + n1);
    if c1 == 10 {
      NumeralOnLine(if IsHex(c2) then [c1, c2] else [c1], 16);
      assert false;
    }
    RuneOnLine(data, pos);
    if IsHex(c2) {
      RuneOnLine(data, pos + n1);
    }
  }

  lemma OctalOnLine(data: seq<byte>, pos: nat, c: int)
    requires pos <= |data| && OctalEscape(data, pos, c).Emit?
    ensures OneLine(data, pos, OctalEscape(data, pos, c).next)
  {
    var (c2, n2) := DecodeRune(data, pos);
    if IsOctal(c2) {
      RuneOnLine(data, pos);
      if IsOctal(DecodeRune(data, pos + n2).0) {
        RuneOnLine(data, pos + n2);
      }
    }
  }

  lemma UnicodeOnLine(data: seq<byte>, pos: nat, quote: int, count: nat)
    requires pos <= |data| && UnicodeEscape(data, pos, quote, count).Emit?
    ensures OneLine(data, pos, UnicodeEscape(data, pos, quote, count).next)
  {
    var (u, next) := ReadRunes(data, pos, quote, count).value;
    RunesOnLine(data, pos, quote, count);
    if 10 in u {
      NumeralOnLine(u, 16);
      assert false;
    }
  }

  lemma EscapeOnLine(data: seq<byte>, pos: nat, quote: int)
    requires pos <= |data| && EscapeSequence(data, pos, quote).Emit?
    ensures OneLine(data, pos, EscapeSequence(data, pos, quote).next)
  {
    EscapeIs(data, pos, quote);
    var (c, n) := DecodeRune(data, pos);
    EscapeTailOnLine(data, pos + n, quote, c, EscapeSequence(data, pos, quote));
    RuneOnLine(data, pos);
    JoinOnLine(data, pos, pos + n, EscapeSequence(data, pos, quote).next);
  }

  // What comes after the letter of the escape.
  lemma EscapeTailOnLine(data: seq<byte>, pos: nat, quote: int, c: int, t: Turn)
    requires pos <= |data| && t.Emit?
    requires if c == 120 || c == 88 then t == HexEscape(data, pos, quote)
             else if IsOctal(c) then t == OctalEscape(data, pos, c)
             else if c == 117 || c == 85 then t == UnicodeEscape(data, pos, quote, if c == 117 then 4 else 8)
             else t.next == pos
    ensures OneLine(data, pos, t.next)
  {
    if c == 120 || c == 88 {
      HexOnLine(data, pos, quote);
    } else if IsOctal(c) {
      OctalOnLine(data, pos, c);
    } else if c == 117 || c == 85 {
      UnicodeOnLine(data, pos, quote, if c == 117 then 4 else 8);
    }
  }

  // Which kind of escape it is.
  lemma EscapeIs(data: seq<byte>, pos: nat, quote: int)
    requires pos <= |data| && EscapeSequence(data, pos, quote).Emit?
    ensures pos < |data| && DecodeRune(data, pos).0 != 10
    ensures var (c, n) := DecodeRune(data, pos);
            var t := EscapeSequence(data, pos, quote);
            if c == 120 || c == 88 then t == HexEscape(data, pos + n, quote)
            else if IsOctal(c) then t == OctalEscape(data, pos + n, c)
            else if c == 117 || c == 85 then t == UnicodeEscape(data, pos + n, quote, if c == 117 then 4 else 8)
            else t.next == pos + n
  {
  }

  lemma JoinOnLine(data: seq<byte>, a: nat, b: nat, c: nat)
    requires OneLine(data, a, b) && OneLine(data, b, c)
    ensures OneLine(data, a, c)
  {
  }

  lemma TurnOnLine(data: seq<byte>, pos: nat, quote: int)
    requires pos <= |data| && (Literal(data, pos, quote).Emit? || Literal(data, pos, quote).Close?)
    ensures OneLine(data, pos, Literal(data, pos, quote).next)
  {
    RuneOnLine(data, pos);
    var (c, n) := DecodeRune(data, pos);
    if c == 92 && c != quote {
      EscapeOnLine(data, pos + n, quote);
    }
  }

  lemma {:induction false} LiteralOnLine(data: seq<byte>, pos: nat, quote: int)
    requires pos <= |data| && ReadFrom(data, pos, quote).Value?
    ensures pos <= ReadFrom(data, pos, quote).next && OneLine(data, pos, ReadFrom(data, pos, quote).next)
    decreases |data| - pos
  {
    TurnOnLine(data, pos, quote);
    var turn := Literal(data, pos, quote);
    if turn.Emit? {
      LiteralOnLine(data, turn.next, quote);
    }
  }

  // --- Tokens --------------------------------------------------------------------------------------

  lemma NumberOnLine(data: seq<byte>, from: nat, to: nat)
    requires NumberEnds(data, from, to)
    ensures OneLine(data, from, to)
  {
    forall i: nat | from <= i < to
      ensures data[i] != 10
    {
      assert ContinuesNumber(data, from, i);
    }
  }

  lemma TokenOnLine(data: seq<byte>, numberOk: seq<byte> -> bool, a: nat, b: nat)
    requires TokenText(data, numberOk, a, b)
    ensures OneLine(data, a, b)
  {
    var c := data[a] as int;
    if IsLetter(c) {
      assert IdentifierEnds(data, a + 1, b);
    } else if IsDigit(c) {
      NumberOnLine(data, a + 1, b);
    } else if c == 34 || c == 39 {
      LiteralOnLine(data, a + 1, c);
    } else if StartsDotNumber(data, a) {
      NumberOnLine(data, a + 2, b);
    }
  }
}
