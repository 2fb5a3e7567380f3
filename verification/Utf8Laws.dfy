/** Encoding and decoding of runes are inverse to each other. */
module Utf8Laws {
  import opened Utf8

  // Runes that have a UTF-8 form.
  predicate IsRune(r: int) { 0 <= r < 0xD800 || 0xDFFF < r <= 0x10FFFF }

  // The first bytes of the text from `pos` on.
  ghost predicate At(data: seq<byte>, pos: nat, s: seq<byte>) {
    pos + |s| <= |data| && data[pos..pos + |s|] == s
  }

  lemma AtByte(data: seq<byte>, pos: nat, s: seq<byte>, i: nat)
    requires At(data, pos, s) && i < |s|
    ensures data[pos + i] == s[i]
  {
    assert data[pos..pos + |s|][i] == data[pos + i];
  }

  lemma AtBytes(data: seq<byte>, pos: nat, s: seq<byte>)
    requires At(data, pos, s)
    ensures forall i :: 0 <= i < |s| ==> data[pos + i] == s[i]
  {
    forall i | 0 <= i < |s|
      ensures data[pos + i] == s[i]
    {
      AtByte(data, pos, s, i);
    }
  }

  // Two, three and four digits to the base of 64.
  lemma TwoParts(r: int)
    requires 0x80 <= r < 0x800
    ensures 0xC2 <= 0xC0 + r / 0x40 <= 0xDF && r == r / 0x40 * 0x40 + r % 0x40
  {
  }

  lemma ThreeParts(r: int)
    requires 0x800 <= r < 0x10000 && IsRune(r)
    ensures var a, b, c := r / 0x1000, r / 0x40 % 0x40, r % 0x40;
            && 0 <= a < 0x10 && r == a * 0x1000 + b * 0x40 + c
            && (a == 0 ==> b >= 0x20) && (a == 0xD ==> b < 0x20)
  {
    var q := r / 0x40;
    assert q / 0x40 == r / 0x1000 && q == q / 0x40 * 0x40 + q % 0x40;
  }

  lemma FourParts(r: int)
    requires 0x10000 <= r <= 0x10FFFF
    ensures var a, b, c, d := r / 0x40000, r / 0x1000 % 0x40, r / 0x40 % 0x40, r % 0x40;
            && 0 <= a <= 4 && r == a * 0x40000 + b * 0x1000 + c * 0x40 + d
            && (a == 0 ==> b >= 0x10) && (a == 4 ==> b < 0x10)
  {
    var q := r / 0x40;
    var p := q / 0x40;
    assert p == r / 0x1000 && q == p * 0x40 + q % 0x40;
    assert p / 0x40 == r / 0x40000 && p == p / 0x40 * 0x40 + p % 0x40;
  }

  lemma DecodesTwo(data: seq<byte>, pos: nat, r: int)
    requires 0x80 <= r < 0x800 && At(data, pos, EncodeRune(r))
    ensures DecodeRune(data, pos) == (r, 2)
  {
    AtBytes(data, pos, EncodeRune(r));
    TwoParts(r);
  }

  lemma DecodesThree(data: seq<byte>, pos: nat, r: int)
    requires 0x800 <= r < 0x10000 && IsRune(r) && At(data, pos, EncodeRune(r))
    ensures DecodeRune(data, pos) == (r, 3)
  {
    AtBytes(data, pos, EncodeRune(r));
    ThreeParts(r);
  }

  lemma DecodesFour(data: seq<byte>, pos: nat, r: int)
    requires 0x10000 <= r <= 0x10FFFF && At(data, pos, EncodeRune(r))
    ensures DecodeRune(data, pos) == (r, 4)
  {
    AtBytes(data, pos, EncodeRune(r));
    FourParts(r);
  }

  /** Decoding gives back the rune that was encoded, wherever it is. */
  lemma DecodeInvertsEncode(data: seq<byte>, pos: nat, r: int)
    requires IsRune(r) && At(data, pos, EncodeRune(r))
    ensures DecodeRune(data, pos) == (r, |EncodeRune(r)|)
  {
    if r < 0x80 {
      AtByte(data, pos, EncodeRune(r), 0);
    } else if r < 0x800 {
      DecodesTwo(data, pos, r);
    } else if r < 0x10000 {
      DecodesThree(data, pos, r);
    } else {
      DecodesFour(data, pos, r);
    }
  }

  /** And where decoding does not fail, encoding gives back the bytes. */
  lemma EncodeInvertsDecode(data: seq<byte>, pos: nat)
    requires pos < |data| && DecodeRune(data, pos) != (RUNE_ERROR, 1)
    ensures var (r, n) := DecodeRune(data, pos);
            IsRune(r) && EncodeRune(r) == data[pos..pos + n]
  {
    var (r, n) := DecodeRune(data, pos);
    if n == 2 {
      TwoParts(r);
    } else if n == 3 {
      EncodesThree(data, pos);
    } else if n == 4 {
      EncodesFour(data, pos);
    }
  }

  lemma EncodesThree(data: seq<byte>, pos: nat)
    requires pos < |data| && DecodeRune(data, pos).1 == 3
    ensures var r := DecodeRune(data, pos).0;
            IsRune(r) && EncodeRune(r) == data[pos..pos + 3]
  {
    var r, a, b, c := DecodeRune(data, pos).0, data[pos] as int - 0xE0, data[pos + 1] as int - 0x80,
      data[pos + 2] as int - 0x80;
    assert r == a * 0x1000 + b * 0x40 + c && 0 <= a < 0x10 && 0 <= b < 0x40 && 0 <= c < 0x40;
    assert r / 0x1000 == a && r / 0x40 == a * 0x40 + b && r % 0x40 == c;
  }

  lemma EncodesFour(data: seq<byte>, pos: nat)
    requires pos < |data| && DecodeRune(data, pos).1 == 4
    ensures var r := DecodeRune(data, pos).0;
            IsRune(r) && EncodeRune(r) == data[pos..pos + 4]
  {
    var r, a, b, c, d := DecodeRune(data, pos).0, data[pos] as int - 0xF0, data[pos + 1] as int - 0x80,
      data[pos + 2] as int - 0x80, data[pos + 3] as int - 0x80;
    assert r == a * 0x40000 + b * 0x1000 + c * 0x40 + d;
    FourDigits(a, b, c, d);
  }

  lemma FourDigits(a: int, b: int, c: int, d: int)
    requires 0 <= a && 0 <= b < 0x40 && 0 <= c < 0x40 && 0 <= d < 0x40
    ensures var r := a * 0x40000 + b * 0x1000 + c * 0x40 + d;
            r / 0x40000 == a && r / 0x1000 % 0x40 == b && r / 0x40 % 0x40 == c && r % 0x40 == d
  {
    var r := a * 0x40000 + b * 0x1000 + c * 0x40 + d;
    assert r / 0x1000 == a * 0x40 + b && r / 0x40 == a * 0x1000 + b * 0x40 + c;
  }
}
