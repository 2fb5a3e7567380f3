/** What the lexer of parser/lexer.go takes for whitespace, a comment and a token. */
module Lexemes {
  import opened Common
  import opened Utf8
  import StringLiteral

  predicate IsSpace(c: int) { c == 10 || c == 13 || c == 9 || c == 12 || c == 11 || c == 32 }

  predicate IsLetter(c: int) { c == 95 || 97 <= c <= 122 || 65 <= c <= 90 }

  predicate IsDigit(c: int) { 48 <= c <= 57 }

  predicate IsIdent(c: int) { IsLetter(c) || IsDigit(c) }

  predicate IsSign(c: int) { c == 43 || c == 45 }

  predicate IsNumberRune(c: int) { IsIdent(c) || c == 46 }

  // ;,.:=-+(){}[]<>/
  predicate IsPunctuation(c: int) {
    c in {59, 44, 46, 58, 61, 45, 43, 40, 41, 123, 125, 91, 93, 60, 62, 47}
  }

  // --- Names and numbers: the longest match --------------------------------------------------

  // The name ends where no further rune belongs to it.
  ghost predicate IdentifierEnds(data: seq<byte>, from: nat, to: nat) {
    && from <= to <= |data| && (forall i :: from <= i < to ==> IsIdent(data[i] as int))
    && (to < |data| ==> !IsIdent(data[to] as int))
  }

  // A sign belongs to a number only after an exponent letter.
  predicate ContinuesNumber(data: seq<byte>, from: nat, i: nat)
    requires i < |data|
  {
    || IsNumberRune(data[i] as int)
    || (IsSign(data[i] as int) && i > from && (data[i - 1] == 69 || data[i - 1] == 101))
  }

  ghost predicate NumberEnds(data: seq<byte>, from: nat, to: nat) {
    && from <= to <= |data| && (forall i: nat :: from <= i < to ==> ContinuesNumber(data, from, i))
    && (to < |data| ==> !ContinuesNumber(data, from, to))
  }

  lemma IdentifierEndUnique(data: seq<byte>, from: nat, b: nat, b': nat)
    requires IdentifierEnds(data, from, b) && IdentifierEnds(data, from, b')
    ensures b == b'
  {
    assert b < |data| ==> !IsIdent(data[b] as int);
    assert b' < |data| ==> !IsIdent(data[b'] as int);
  }

  lemma NumberEndUnique(data: seq<byte>, from: nat, b: nat, b': nat)
    requires NumberEnds(data, from, b) && NumberEnds(data, from, b')
    ensures b == b'
  {
    assert b < |data| ==> !ContinuesNumber(data, from, b);
    assert b' < |data| ==> !ContinuesNumber(data, from, b');
  }

  // --- Tokens ----------------------------------------------------------------------------------

  predicate StartsDotNumber(data: seq<byte>, a: nat) {
    a + 1 < |data| && data[a] == 46 && IsDigit(data[a + 1] as int)
  }

  ghost predicate NumberText(data: seq<byte>, numberOk: seq<byte> -> bool, a: nat, from: nat, b: nat) {
    a <= b && NumberEnds(data, from, b) && numberOk(data[a..b])
  }

  ghost predicate StringText(data: seq<byte>, a: nat, quote: int, b: nat) {
    a < |data| && StringLiteral.ReadFrom(data, a + 1, quote).Value?
      && StringLiteral.ReadFrom(data, a + 1, quote).next == b
  }

  // The text of a token. `numberOk` says whether the text of a number is accepted (strconv).
  ghost predicate TokenText(data: seq<byte>, numberOk: seq<byte> -> bool, a: nat, b: nat) {
    && a < b <= |data|
    && var c := data[a] as int;
       if IsLetter(c) then IdentifierEnds(data, a + 1, b)
       else if IsDigit(c) then NumberText(data, numberOk, a, a + 1, b)
       else if c == 34 || c == 39 then StringText(data, a, c, b)
       else if StartsDotNumber(data, a) then NumberText(data, numberOk, a, a + 2, b)
       else IsPunctuation(c) && b == a + 1
  }

  lemma TokenEndUnique(data: seq<byte>, numberOk: seq<byte> -> bool, a: nat, b: nat, b': nat)
    requires TokenText(data, numberOk, a, b) && TokenText(data, numberOk, a, b')
    ensures b == b'
  {
    var c := data[a] as int;
    if IsLetter(c) {
      IdentifierEndUnique(data, a + 1, b, b');
    } else if IsDigit(c) {
      NumberEndUnique(data, a + 1, b, b');
    } else if c != 34 && c != 39 && StartsDotNumber(data, a) {
      NumberEndUnique(data, a + 2, b, b');
    }
  }

  // --- Comments ----------------------------------------------------------------------------------

  predicate StartsComment(data: seq<byte>, a: nat) {
    a + 1 < |data| && data[a] == 47 && (data[a + 1] == 47 || data[a + 1] == 42)
  }

  // A line comment stops before the end of its line.
  ghost predicate LineEnds(data: seq<byte>, from: nat, to: nat) {
    && from <= to <= |data| && (forall i :: from <= i < to ==> data[i] != 10 && data[i] != 0)
    && (to < |data| ==> data[to] == 10)
  }

  predicate CloserAt(data: seq<byte>, i: nat) {
    i + 1 < |data| && data[i] == 42 && data[i + 1] == 47
  }

  // A block comment stops after the first closer, and has no NUL before it.
  ghost predicate BlockEnds(data: seq<byte>, from: nat, to: nat) {
    && from + 2 <= to <= |data| && CloserAt(data, to - 2)
    && (forall i: nat :: from <= i < to - 2 ==> !CloserAt(data, i))
    && (forall i :: from <= i < to ==> data[i] != 0)
  }

  // A NUL comes before the end of the line.
  ghost predicate NulInLine(data: seq<byte>, from: nat, z: nat) {
    from <= z < |data| && data[z] == 0 && forall i :: from <= i < z ==> data[i] != 10
  }

  // A NUL comes before the first closer.
  ghost predicate NulInBlock(data: seq<byte>, from: nat, z: nat) {
    from <= z < |data| && data[z] == 0 && forall i: nat :: from <= i < z ==> !CloserAt(data, i)
  }

  lemma NoLineEnd(data: seq<byte>, from: nat, z: nat, b: nat)
    requires NulInLine(data, from, z)
    ensures !LineEnds(data, from, b)
  {
  }

  lemma NoBlockEnd(data: seq<byte>, from: nat, z: nat, b: nat)
    requires NulInBlock(data, from, z)
    ensures !BlockEnds(data, from, b)
  {
  }

  ghost predicate CommentShape(data: seq<byte>, a: nat, b: nat) {
    && StartsComment(data, a)
    && if data[a + 1] == 47 then LineEnds(data, a + 2, b) else BlockEnds(data, a + 2, b)
  }

  ghost predicate NoComment(data: seq<byte>, a: nat) { forall b: nat :: !CommentShape(data, a, b) }

  lemma CommentEndUnique(data: seq<byte>, a: nat, b: nat, b': nat)
    requires CommentShape(data, a, b) && CommentShape(data, a, b')
    ensures b == b'
  {
    if data[a + 1] == 47 {
      assert b < |data| ==> data[b] == 10;
      assert b' < |data| ==> data[b'] == 10;
    } else {
      assert CloserAt(data, b - 2) && CloserAt(data, b' - 2);
    }
  }

  // --- Texts that can be lexed -----------------------------------------------------------------------

  ghost predicate ItemText(data: seq<byte>, numberOk: seq<byte> -> bool, a: nat, b: nat) {
    && a < b <= |data|
    && if StartsComment(data, a) then CommentShape(data, a, b) else TokenText(data, numberOk, a, b)
  }

  /** From `a` on the text is a sequence of whitespace, comments and tokens of longest match. */
  ghost predicate Lexable(data: seq<byte>, numberOk: seq<byte> -> bool, a: nat)
    decreases |data| - a
  {
    if a >= |data| then true
    else if IsSpace(data[a] as int) then Lexable(data, numberOk, a + 1)
    else exists b: nat :: ItemText(data, numberOk, a, b) && Lexable(data, numberOk, b)
  }

  // An item leaves the rest of the text to be lexed.
  lemma LexableItem(data: seq<byte>, numberOk: seq<byte> -> bool, a: nat, b: nat)
    requires ItemText(data, numberOk, a, b) && !IsSpace(data[a] as int)
    ensures Lexable(data, numberOk, a) <==> Lexable(data, numberOk, b)
  {
    if Lexable(data, numberOk, a) {
      var b': nat :| ItemText(data, numberOk, a, b') && Lexable(data, numberOk, b');
      if StartsComment(data, a) {
        CommentEndUnique(data, a, b, b');
      } else {
        TokenEndUnique(data, numberOk, a, b, b');
      }
    }
  }

  lemma NotLexable(data: seq<byte>, numberOk: seq<byte> -> bool, a: nat)
    requires a < |data| && !IsSpace(data[a] as int) && forall b: nat :: !ItemText(data, numberOk, a, b)
    ensures !Lexable(data, numberOk, a)
  {
  }

  // --- Runes -----------------------------------------------------------------------------------------

  // The bytes of a rune outside ASCII are outside ASCII.
  lemma RuneBytes(data: seq<byte>, pos: nat, i: nat)
    requires pos < |data| && data[pos] >= 0x80 && pos <= i < pos + DecodeRune(data, pos).1
    ensures data[i] >= 0x80
  {
  }

  lemma AllRuneBytes(data: seq<byte>, pos: nat)
    requires pos < |data| && data[pos] >= 0x80
    ensures forall i :: pos <= i < pos + DecodeRune(data, pos).1 ==> data[i] >= 0x80
  {
    forall i: nat | pos <= i < pos + DecodeRune(data, pos).1
      ensures data[i] >= 0x80
    {
      RuneBytes(data, pos, i);
    }
  }

  lemma NoCloserInside(data: seq<byte>, pos: nat)
    requires pos < |data|
    ensures var (c, n) := DecodeRune(data, pos);
            && (forall i: nat :: pos < i < pos + n ==> !CloserAt(data, i))
            && (CloserAt(data, pos) <==> c == 42 && pos + 1 < |data| && DecodeRune(data, pos + 1).0 == 47)
            && (forall i :: pos < i < pos + n ==> data[i] != 0 && data[i] != 10)
            && (c == 0 <==> data[pos] == 0) && (c == 10 <==> data[pos] == 10)
  {
    if data[pos] >= 0x80 {
      AllRuneBytes(data, pos);
    }
  }

  // --- What a scan has found -------------------------------------------------------------------------

  // The number that was scanned is the only candidate for a token.
  lemma NumberToken(data: seq<byte>, numberOk: seq<byte> -> bool, a: nat, from: nat, b: nat)
    requires a < |data| && a < from && NumberEnds(data, from, b)
    requires if IsDigit(data[a] as int) then from == a + 1 else from == a + 2 && StartsDotNumber(data, a)
    ensures if numberOk(data[a..b]) then TokenText(data, numberOk, a, b)
        else forall c: nat :: !TokenText(data, numberOk, a, c)
  {
    forall c: nat | !numberOk(data[a..b])
      ensures !TokenText(data, numberOk, a, c)
    {
      if NumberEnds(data, from, c) {
        NumberEndUnique(data, from, b, c);
      }
    }
  }

  lemma StringToken(data: seq<byte>, numberOk: seq<byte> -> bool, a: nat, b: nat, value: Option<seq<byte>>)
    requires a < |data| && (data[a] == 34 || data[a] == 39) && a < b <= |data|
    requires StringLiteral.ReadFrom(data, a + 1, data[a] as int) ==
             if value.Some? then StringLiteral.Value(value.value, b) else StringLiteral.Erroneous
    ensures if value.Some? then TokenText(data, numberOk, a, b) else forall c: nat :: !TokenText(data, numberOk, a, c)
  {
  }

  lemma OtherToken(data: seq<byte>, numberOk: seq<byte> -> bool, a: nat, c: int)
    requires a < |data| && DecodeRune(data, a).0 == c && !IsLetter(c) && !IsDigit(c) && c != 34 && c != 39 && c != 46
    ensures if IsPunctuation(c) then DecodeRune(data, a).1 == 1 && TokenText(data, numberOk, a, a + 1)
            else forall b: nat :: !TokenText(data, numberOk, a, b)
  {
    assert data[a] >= 0x80 ==> !IsPunctuation(data[a] as int) && !IsPunctuation(c);
  }

  lemma NoLine(data: seq<byte>, from: nat)
    requires exists z :: NulInLine(data, from, z)
    ensures forall b: nat :: !LineEnds(data, from, b)
  {
    var z :| NulInLine(data, from, z);
    forall b: nat
      ensures !LineEnds(data, from, b)
    {
      NoLineEnd(data, from, z, b);
    }
  }

  lemma NoBlock(data: seq<byte>, from: nat, hasErr: bool)
    requires hasErr ==> exists z :: NulInBlock(data, from, z)
    requires !hasErr ==> OpenBlock(data, from, |data|)
    ensures forall b: nat :: !BlockEnds(data, from, b)
  {
    forall b: nat
      ensures !BlockEnds(data, from, b)
    {
      if hasErr {
        var z :| NulInBlock(data, from, z);
        NoBlockEnd(data, from, z, b);
      } else if from + 2 <= b {
        assert !CloserAt(data, b - 2);
      }
    }
  }

  // Neither a closer nor a NUL starts from `from` to `pos`.
  ghost predicate OpenBlock(data: seq<byte>, from: nat, pos: nat) {
    && from <= pos <= |data|
    && (forall i: nat :: from <= i < pos ==> !CloserAt(data, i) && data[i] != 0)
  }

  // A rune of a block comment closes it, breaks it or continues it.
  lemma BlockRune(data: seq<byte>, from: nat, pos: nat)
    requires OpenBlock(data, from, pos) && pos < |data|
    ensures var (c, n) := DecodeRune(data, pos);
            if c == 0 then NulInBlock(data, from, pos)
            else if c == 42 && pos + n < |data| && DecodeRune(data, pos + n).0 == 47
            then DecodeRune(data, pos + n).1 == 1 && data[pos + n] == 47 && BlockEnds(data, from, pos + n + 1)
            else OpenBlock(data, from, pos + n)
  {
    NoCloserInside(data, pos);
  }
}
