/** The two functions of Go's unicode/utf8 that the lexer and the escapes rely on. */
module Utf8 {
  newtype byte = x: int | 0 <= x < 256

  const RUNE_ERROR := 0xFFFD

  predicate Continues(data: seq<byte>, i: nat, lo: byte, hi: byte) {
    i < |data| && lo <= data[i] <= hi
  }

  // utf8.DecodeRune on data[pos..]: the rune and the number of bytes it takes.
  function DecodeRune(data: seq<byte>, pos: nat): (r: (int, nat))
    requires pos < |data|
    ensures 1 <= r.1 && pos + r.1 <= |data|
    ensures data[pos] < 0x80 ==> r == (data[pos] as int, 1)
    ensures data[pos] >= 0x80 ==> r.0 >= 0x80
  {
    if data[pos] < 0x80 then (data[pos] as int, 1) else DecodeMultiByte(data, pos)
  }

  function DecodeMultiByte(data: seq<byte>, pos: nat): (r: (int, nat))
    requires pos < |data| && data[pos] >= 0x80
    ensures 1 <= r.1 && pos + r.1 <= |data| && r.0 >= 0x80
  {
    var b0 := data[pos];
    var lo2: byte := if b0 == 0xE0 then 0xA0 else if b0 == 0xF0 then 0x90 else 0x80;
    var hi2: byte := if b0 == 0xED then 0x9F else if b0 == 0xF4 then 0x8F else 0xBF;
    if 0xC2 <= b0 <= 0xDF && Continues(data, pos + 1, 0x80, 0xBF) then
      ((b0 as int - 0xC0) * 0x40 + (data[pos + 1] as int - 0x80), 2)
    else if 0xE0 <= b0 <= 0xEF && Continues(data, pos + 1, lo2, hi2) && Continues(data, pos + 2, 0x80, 0xBF) then
      ((b0 as int - 0xE0) * 0x1000 + (data[pos + 1] as int - 0x80) * 0x40 + (data[pos + 2] as int - 0x80), 3)
    else if 0xF0 <= b0 <= 0xF4 && Continues(data, pos + 1, lo2, hi2) &&
            Continues(data, pos + 2, 0x80, 0xBF) && Continues(data, pos + 3, 0x80, 0xBF) then
      ((b0 as int - 0xF0) * 0x40000 + (data[pos + 1] as int - 0x80) * 0x1000 +
       (data[pos + 2] as int - 0x80) * 0x40 + (data[pos + 3] as int - 0x80), 4)
    else (RUNE_ERROR, 1)
  }

  function ToByte(i: int): byte
    requires 0 <= i < 256
  {
    i as byte
  }

  // utf8.AppendRune: runes that are not valid become U+FFFD.
  function EncodeRune(r: int): (s: seq<byte>)
    ensures 0 <= r < 0x80 ==> s == [r as byte]
    ensures 1 <= |s| <= 4
  {
    if 0 <= r < 0x80 then [ToByte(r)]
    else if 0x80 <= r < 0x800 then [ToByte(0xC0 + r / 0x40), ToByte(0x80 + r % 0x40)]
    else if r < 0 || r > 0x10FFFF || 0xD800 <= r <= 0xDFFF then [0xEF, 0xBF, 0xBD]
    else if r < 0x10000 then [ToByte(0xE0 + r / 0x1000), ToByte(0x80 + r / 0x40 % 0x40), ToByte(0x80 + r % 0x40)]
    else [ToByte(0xF0 + r / 0x40000), ToByte(0x80 + r / 0x1000 % 0x40),
          ToByte(0x80 + r / 0x40 % 0x40), ToByte(0x80 + r % 0x40)]
  }
}
