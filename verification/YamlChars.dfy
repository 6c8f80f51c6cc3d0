/**
 Bytes, UTF-8 and the character classes that the YAML reader, scanner and emitter share
 (gopkg.in/yaml.v2/yamlprivateh.go).

 Bytes are integers and the source's masks are written as ranges and remainders:
 `b & 0xE0 == 0xC0` is `0xC0 <= b < 0xE0`, `b & 0x3F` is `b % 64`, `v >> 6` is `v / 64`.
 A class predicate looks at the front of the data it is given, where the source takes a
 buffer and an index.
 */
module YamlChars {

  type Byte = b: int | 0 <= b < 256

  /** The reader pads its buffer with NUL, so a look past the end of the data sees NUL. */
  function At(s: seq<Byte>, k: nat): Byte {
    if k < |s| then s[k] else 0
  }

  function Width(b: Byte): (w: nat)
    ensures w <= 4
  {
    if b < 0x80 then 1
    else if 0xC0 <= b < 0xE0 then 2
    else if 0xE0 <= b < 0xF0 then 3
    else if 0xF0 <= b < 0xF8 then 4
    else 0
  }

  predicate IsSpace(s: seq<Byte>) { At(s, 0) == 0x20 }

  predicate IsBlank(s: seq<Byte>) { At(s, 0) == 0x20 || At(s, 0) == 0x09 }

  predicate IsZ(s: seq<Byte>) { At(s, 0) == 0 }

  /** CR, LF, NEL, LS or PS. */
  predicate IsBreak(s: seq<Byte>) {
    || At(s, 0) == 0x0D
    || At(s, 0) == 0x0A
    || (At(s, 0) == 0xC2 && At(s, 1) == 0x85)
    || (At(s, 0) == 0xE2 && At(s, 1) == 0x80 && At(s, 2) == 0xA8)
    || (At(s, 0) == 0xE2 && At(s, 1) == 0x80 && At(s, 2) == 0xA9)
  }

  predicate IsBlankZ(s: seq<Byte>) { IsBlank(s) || IsBreak(s) || IsZ(s) }

  predicate IsAscii(s: seq<Byte>) { At(s, 0) <= 0x7F }

  predicate IsPrintable(s: seq<Byte>) {
    var b0, b1, b2 := At(s, 0), At(s, 1), At(s, 2);
    || b0 == 0x0A
    || 0x20 <= b0 <= 0x7E
    || (b0 == 0xC2 && b1 >= 0xA0)
    || 0xC2 < b0 < 0xED
    || (b0 == 0xED && b1 < 0xA0)
    || b0 == 0xEE
    || (b0 == 0xEF && !(b1 == 0xBB && b2 == 0xBF) && !(b1 == 0xBF && (b2 == 0xBE || b2 == 0xBF)))
  }

  /** The source's `is_bom` ignores its index and looks at the start of the whole value. */
  predicate StartsWithBom(whole: seq<Byte>) {
    At(whole, 0) == 0xEF && At(whole, 1) == 0xBB && At(whole, 2) == 0xBF
  }

  // ---------------------------------------------------------------- UTF-8

  predicate IsTail(b: Byte) { 0x80 <= b <= 0xBF }

  /** The well-formed octet sequences of one character: the table in section 4 of RFC 3629. */
  predicate IsChar(c: seq<Byte>) {
    if |c| == 1 then c[0] <= 0x7F
    else if |c| == 2 then 0xC2 <= c[0] <= 0xDF && IsTail(c[1])
    else if |c| == 3 then
      && IsTail(c[1]) && IsTail(c[2])
      && ((c[0] == 0xE0 && 0xA0 <= c[1]) || 0xE1 <= c[0] <= 0xEC
          || (c[0] == 0xED && c[1] <= 0x9F) || 0xEE <= c[0] <= 0xEF)
    else if |c| == 4 then
      && IsTail(c[1]) && IsTail(c[2]) && IsTail(c[3])
      && ((c[0] == 0xF0 && 0x90 <= c[1]) || 0xF1 <= c[0] <= 0xF3 || (c[0] == 0xF4 && c[1] <= 0x8F))
    else false
  }

  predicate IsScalar(cp: int) { 0 <= cp < 0xD800 || 0xDFFF < cp <= 0x10FFFF }

  /** The bits below `m` of an octet, `m` a power of two. */
  function Low(b: Byte, m: int): (r: int)
    requires m > 0
  {
    b % m
  }

  /** The bits that the octets of one character carry. */
  function Decode(c: seq<Byte>): int {
    if |c| == 1 then Low(c[0], 128)
    else if |c| == 2 then Low(c[0], 32) * 64 + Low(c[1], 64)
    else if |c| == 3 then (Low(c[0], 16) * 64 + Low(c[1], 64)) * 64 + Low(c[2], 64)
    else if |c| == 4 then ((Low(c[0], 8) * 64 + Low(c[1], 64)) * 64 + Low(c[2], 64)) * 64 + Low(c[3], 64)
    else 0
  }

  function Encode(cp: int): (c: seq<Byte>)
    requires 0 <= cp <= 0x10FFFF
  {
    if cp <= 0x7F then [cp]
    else if cp <= 0x7FF then [0xC0 + cp / 64, 0x80 + cp % 64]
    else if cp <= 0xFFFF then [0xE0 + cp / 64 / 64, 0x80 + cp / 64 % 64, 0x80 + cp % 64]
    else [0xF0 + cp / 64 / 64 / 64, 0x80 + cp / 64 / 64 % 64, 0x80 + cp / 64 % 64, 0x80 + cp % 64]
  }

  lemma LowOf(base: Byte, m: int, r: int)
    requires || (m == 64 && base == 0x80) || (m == 32 && base == 0xC0)
             || (m == 16 && base == 0xE0) || (m == 8 && base == 0xF0)
    requires 0 <= r < m
    ensures base + r < 256 && Low(base + r, m) == r
  {
  }

  lemma DecodeInverse(cp: int)
    requires IsScalar(cp)
    ensures IsChar(Encode(cp)) && Decode(Encode(cp)) == cp
  {
    var a := cp / 64;
    if cp <= 0x7F {
    } else if cp <= 0x7FF {
      LowOf(0xC0, 32, a);
      LowOf(0x80, 64, cp % 64);
    } else if cp <= 0xFFFF {
      LowOf(0xE0, 16, a / 64);
      LowOf(0x80, 64, a % 64);
      LowOf(0x80, 64, cp % 64);
    } else {
      DecodeInverse4(cp, a, a / 64);
    }
  }

  lemma DecodeInverse4(cp: int, a: int, b: int)
    requires 0xFFFF < cp <= 0x10FFFF && a == cp / 64 && b == a / 64
    ensures IsChar(Encode(cp)) && Decode(Encode(cp)) == cp
  {
    LowOf(0xF0, 8, b / 64);
    LowOf(0x80, 64, b % 64);
    LowOf(0x80, 64, a % 64);
    LowOf(0x80, 64, cp % 64);
  }

  lemma EncodeInverse(c: seq<Byte>)
    requires IsChar(c)
    ensures IsScalar(Decode(c)) && Encode(Decode(c)) == c && |c| == Width(c[0])
  {
    if |c| == 2 {
      LowOf(0xC0, 32, c[0] - 0xC0);
      LowOf(0x80, 64, c[1] - 0x80);
    } else if |c| == 3 {
      EncodeInverse3(c);
    } else if |c| == 4 {
      EncodeInverse4(c);
    }
  }

  lemma EncodeInverse3(c: seq<Byte>)
    requires |c| == 3 && IsChar(c)
    ensures IsScalar(Decode(c)) && Encode(Decode(c)) == c && |c| == Width(c[0])
  {
    LowOf(0xE0, 16, c[0] - 0xE0);
    LowOf(0x80, 64, c[1] - 0x80);
    LowOf(0x80, 64, c[2] - 0x80);
    var v1 := Split(c[0] - 0xE0, c[1] - 0x80);
    var v := Split(v1, c[2] - 0x80);
    assert Decode(c) == v && 0x7FF < v <= 0xFFFF;
  }

  lemma EncodeInverse4(c: seq<Byte>)
    requires |c| == 4 && IsChar(c)
    ensures IsScalar(Decode(c)) && Encode(Decode(c)) == c && |c| == Width(c[0])
  {
    LowOf(0xF0, 8, c[0] - 0xF0);
    LowOf(0x80, 64, c[1] - 0x80);
    LowOf(0x80, 64, c[2] - 0x80);
    LowOf(0x80, 64, c[3] - 0x80);
    var v2 := Split(c[0] - 0xF0, c[1] - 0x80);
    var v1 := Split(v2, c[2] - 0x80);
    var v := Split(v1, c[3] - 0x80);
    assert Decode(c) == v && 0xFFFF < v <= 0x10FFFF;
  }

  lemma Split(q: nat, r: nat) returns (v: nat)
    requires r < 64
    ensures v == q * 64 + r && v / 64 == q && v % 64 == r
  {
    v := q * 64 + r;
  }

  /** A sequence of whole characters. */
  predicate ValidUtf8(s: seq<Byte>)
    decreases |s|
  {
    s == [] || (var w := Width(s[0]); 1 <= w <= |s| && IsChar(s[..w]) && ValidUtf8(s[w..]))
  }

  /** The first character of a non-empty valid string. */
  function Head(s: seq<Byte>): (c: seq<Byte>)
    requires s != [] && ValidUtf8(s)
    ensures IsChar(c) && 1 <= |c| <= |s| && s == c + s[|c|..]
  {
    s[..Width(s[0])]
  }
}
