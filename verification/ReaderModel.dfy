/**
 What the reader makes of its input: one character at a time from UTF-8 or UTF-16, and the
 whole input at once.
 */
module ReaderModel {
  import opened Options
  import opened YamlChars

  datatype Encoding = Utf8 | Utf16LE | Utf16BE

  datatype Problem =
    | InvalidLead | InvalidTail | WrongLength | NotUnicode | LowSurrogate | NoLowSurrogate | Incomplete | Control

  /** One character and the bytes it takes, or not enough bytes to tell, or an error. */
  datatype Next = Char(value: int, width: nat) | Short | Bad(problem: Problem)

  /** The characters that a YAML stream may contain. */
  predicate Allowed(cp: int) {
    || cp == 0x09 || cp == 0x0A || cp == 0x0D || 0x20 <= cp <= 0x7E || cp == 0x85
    || 0xA0 <= cp <= 0xD7FF || 0xE000 <= cp <= 0xFFFD || 0x10000 <= cp <= 0x10FFFF
  }

  function Checked(value: int, width: nat): Next {
    if Allowed(value) then Char(value, width) else Bad(Control)
  }

  // ---------------------------------------------------------------- UTF-8

  predicate TailsFine(c: seq<Byte>) {
    forall k :: 1 <= k < |c| ==> IsTail(c[k])
  }

  predicate LengthFine(value: int, width: nat) {
    width == 1 || (width == 2 && value >= 0x80) || (width == 3 && value >= 0x800) || (width == 4 && value >= 0x10000)
  }

  function NextUtf8(s: seq<Byte>): (n: Next)
    requires s != []
  {
    var w := Width(s[0]);
    if w == 0 then Bad(InvalidLead)
    else if w > |s| then Short
    else if !TailsFine(s[..w]) then Bad(InvalidTail)
    else
      var value := Decode(s[..w]);
      if !LengthFine(value, w) then Bad(WrongLength)
      else if 0xD800 <= value <= 0xDFFF || value > 0x10FFFF then Bad(NotUnicode)
      else Checked(value, w)
  }

  /** The checks on length and range say that the octets are well formed. */
  lemma WellFormed(c: seq<Byte>)
    requires c != [] && |c| == Width(c[0]) && TailsFine(c)
    ensures IsChar(c) <==> LengthFine(Decode(c), |c|) && IsScalar(Decode(c))
  {
    if |c| == 2 {
      WellFormed2(c);
    } else if |c| == 3 {
      WellFormed3(c);
    } else if |c| == 4 {
      WellFormed4(c);
    }
  }

  lemma WellFormed2(c: seq<Byte>)
    requires |c| == 2 && 0xC0 <= c[0] < 0xE0 && IsTail(c[1])
    ensures IsChar(c) <==> Decode(c) >= 0x80 && IsScalar(Decode(c))
  {
    LowOf(0xC0, 32, c[0] - 0xC0);
    LowOf(0x80, 64, c[1] - 0x80);
  }

  lemma WellFormed3(c: seq<Byte>)
    requires |c| == 3 && 0xE0 <= c[0] < 0xF0 && IsTail(c[1]) && IsTail(c[2])
    ensures IsChar(c) <==> Decode(c) >= 0x800 && IsScalar(Decode(c))
  {
    LowOf(0xE0, 16, c[0] - 0xE0);
    LowOf(0x80, 64, c[1] - 0x80);
    LowOf(0x80, 64, c[2] - 0x80);
  }

  lemma WellFormed4(c: seq<Byte>)
    requires |c| == 4 && 0xF0 <= c[0] < 0xF8 && IsTail(c[1]) && IsTail(c[2]) && IsTail(c[3])
    ensures IsChar(c) <==> Decode(c) >= 0x10000 && IsScalar(Decode(c))
  {
    LowOf(0xF0, 8, c[0] - 0xF0);
    LowOf(0x80, 64, c[1] - 0x80);
    LowOf(0x80, 64, c[2] - 0x80);
    LowOf(0x80, 64, c[3] - 0x80);
  }

  /**
   A character is accepted exactly when its octets are well formed (sections 3 and 4 of RFC 3629)
   and it is allowed; it is then stored as the octets it came in.
   */
  lemma Utf8Accepted(s: seq<Byte>)
    requires s != []
    ensures var n, w := NextUtf8(s), Width(s[0]);
      && (n.Char? <==> 1 <= w <= |s| && IsChar(s[..w]) && Allowed(Decode(s[..w])))
      && (n.Char? ==> n.width == w && IsScalar(n.value) && n.value == Decode(s[..w]) && Encode(n.value) == s[..w])
  {
    hide Decode, Encode, IsChar, LengthFine, Allowed;
    var w := Width(s[0]);
    if 1 <= w <= |s| {
      var c := s[..w];
      CharTails(c);
      if TailsFine(c) {
        WellFormed(c);
        if IsChar(c) {
          EncodeInverse(c);
        }
      }
    }
  }

  lemma CharTails(c: seq<Byte>)
    ensures IsChar(c) ==> TailsFine(c)
    ensures Decode(c) >= 0
  {
  }

  // ---------------------------------------------------------------- UTF-16

  /** The `k`-th unit of two bytes, in either byte order. */
  function Unit(s: seq<Byte>, little: bool, k: nat): (u: int)
    requires 2 * k + 1 < |s|
    ensures 0 <= u < 0x10000
  {
    var a: int, b: int := s[2 * k], s[2 * k + 1];
    if little then a + b * 256 else b + a * 256
  }

  predicate IsHigh(u: int) { 0xD800 <= u < 0xDC00 }

  predicate IsLow(u: int) { 0xDC00 <= u < 0xE000 }

  function Pair(high: int, low: int): int {
    0x10000 + (high % 1024) * 1024 + low % 1024
  }

  function NextUtf16(s: seq<Byte>, little: bool): (n: Next)
    requires s != []
  {
    if |s| < 2 then Short
    else
      var u := Unit(s, little, 0);
      if IsLow(u) then Bad(LowSurrogate)
      else if IsHigh(u) then
        if |s| < 4 then Short
        else if !IsLow(Unit(s, little, 1)) then Bad(NoLowSurrogate)
        else Checked(Pair(u, Unit(s, little, 1)), 4)
      else Checked(u, 2)
  }

  /** A unit as bytes. */
  function UnitBytes(u: int, little: bool): (b: seq<Byte>)
    requires 0 <= u < 0x10000
    ensures |b| == 2
  {
    if little then [u % 256, u / 256] else [u / 256, u % 256]
  }

  /** A code point as UTF-16 (section 2.1 of RFC 2781). */
  function Encode16(cp: int, little: bool): (b: seq<Byte>)
    requires IsScalar(cp)
    ensures |b| == if cp < 0x10000 then 2 else 4
  {
    if cp < 0x10000 then UnitBytes(cp, little)
    else UnitBytes(0xD800 + (cp - 0x10000) / 1024, little) + UnitBytes(0xDC00 + (cp - 0x10000) % 1024, little)
  }

  lemma UnitInverse(u: int, little: bool, s: seq<Byte>, k: nat)
    requires 0 <= u < 0x10000 && 2 * k + 1 < |s|
    ensures Unit(s, little, k) == u <==> s[2 * k] == UnitBytes(u, little)[0] && s[2 * k + 1] == UnitBytes(u, little)[1]
  {
    var a: int, b: int := s[2 * k], s[2 * k + 1];
    ByteSplit(a, b);
    ByteSplit(b, a);
  }

  lemma ByteSplit(a: int, b: int)
    requires 0 <= a < 256 && 0 <= b < 256
    ensures (a + b * 256) % 256 == a && (a + b * 256) / 256 == b
  {
  }

  lemma PairInverse(cp: int)
    requires 0x10000 <= cp <= 0x10FFFF
    ensures var h, l := 0xD800 + (cp - 0x10000) / 1024, 0xDC00 + (cp - 0x10000) % 1024;
      IsHigh(h) && IsLow(l) && Pair(h, l) == cp
  {
    var q, r := (cp - 0x10000) / 1024, (cp - 0x10000) % 1024;
    assert 0xD800 == 54 * 1024 && 0xDC00 == 55 * 1024;
    assert (0xD800 + q) % 1024 == q && (0xDC00 + r) % 1024 == r;
  }

  lemma PairOf(h: int, l: int)
    requires IsHigh(h) && IsLow(l)
    ensures 0x10000 <= Pair(h, l) <= 0x10FFFF
    ensures h == 0xD800 + (Pair(h, l) - 0x10000) / 1024 && l == 0xDC00 + (Pair(h, l) - 0x10000) % 1024
  {
    var q, r := h - 0xD800, l - 0xDC00;
    assert h % 1024 == q && l % 1024 == r;
    assert (q * 1024 + r) / 1024 == q && (q * 1024 + r) % 1024 == r;
  }

  /** A character is accepted exactly when it is an allowed code point written in UTF-16. */
  lemma Utf16Accepted(s: seq<Byte>, little: bool, cp: int, w: nat)
    requires s != []
    ensures NextUtf16(s, little) == Char(cp, w) <==>
      IsScalar(cp) && Allowed(cp) && w == |Encode16(cp, little)| && w <= |s| && s[..w] == Encode16(cp, little)
  {
    hide Allowed, Pair, Unit, UnitBytes;
    if NextUtf16(s, little) == Char(cp, w) {
      Utf16Sound(s, little, cp, w);
    }
    if IsScalar(cp) && Allowed(cp) && w == |Encode16(cp, little)| && w <= |s| && s[..w] == Encode16(cp, little) {
      Utf16Complete(s, little, cp, w);
    }
  }

  lemma Utf16Sound(s: seq<Byte>, little: bool, cp: int, w: nat)
    requires s != [] && NextUtf16(s, little) == Char(cp, w)
    ensures IsScalar(cp) && Allowed(cp) && w == |Encode16(cp, little)| && w <= |s| && s[..w] == Encode16(cp, little)
  {
    hide Allowed, Pair, Unit, UnitBytes;
    var u := Unit(s, little, 0);
    UnitInverse(u, little, s, 0);
    if IsHigh(u) {
      var l := Unit(s, little, 1);
      UnitInverse(l, little, s, 1);
      PairOf(u, l);
    }
  }

  lemma Utf16Complete(s: seq<Byte>, little: bool, cp: int, w: nat)
    requires IsScalar(cp) && Allowed(cp) && w == |Encode16(cp, little)| && w <= |s| && s[..w] == Encode16(cp, little)
    ensures NextUtf16(s, little) == Char(cp, w)
  {
    hide Allowed, Pair, Unit, UnitBytes;
    assert s[0] == s[..w][0] && s[1] == s[..w][1];
    if cp < 0x10000 {
      UnitInverse(cp, little, s, 0);
    } else {
      assert s[2] == s[..w][2] && s[3] == s[..w][3];
      PairInverse(cp);
      UnitInverse(0xD800 + (cp - 0x10000) / 1024, little, s, 0);
      UnitInverse(0xDC00 + (cp - 0x10000) % 1024, little, s, 1);
    }
  }

  // ---------------------------------------------------------------- the whole input

  function NextOf(enc: Encoding, s: seq<Byte>): (n: Next)
    requires s != []
    ensures n.Char? ==> 1 <= n.width <= |s| && IsScalar(n.value)
  {
    match enc
    case Utf8 => Utf8Accepted(s); NextUtf8(s)
    case Utf16LE => AcceptedIsScalar(s, true); NextUtf16(s, true)
    case Utf16BE => AcceptedIsScalar(s, false); NextUtf16(s, false)
  }

  lemma AcceptedIsScalar(s: seq<Byte>, little: bool)
    requires s != []
    ensures var n := NextUtf16(s, little); n.Char? ==> 1 <= n.width <= |s| && IsScalar(n.value)
  {
    var n := NextUtf16(s, little);
    if n.Char? {
      Utf16Sound(s, little, n.value, n.width);
    }
  }

  /** What was decided about a character is not changed by the bytes after it. */
  lemma NextStable(enc: Encoding, s: seq<Byte>, more: seq<Byte>)
    requires s != [] && !NextOf(enc, s).Short?
    ensures NextOf(enc, s + more) == NextOf(enc, s)
  {
    var t := s + more;
    if enc.Utf8? {
      var w := Width(s[0]);
      if w <= |s| {
        assert t[..w] == s[..w];
      }
    } else {
      assert Unit(t, enc.Utf16LE?, 0) == Unit(s, enc.Utf16LE?, 0);
      if |s| >= 4 {
        assert Unit(t, enc.Utf16LE?, 1) == Unit(s, enc.Utf16LE?, 1);
      }
    }
  }

  /** The characters up to the end of the input or the first error. */
  datatype Decoded = Decoded(chars: seq<int>, problem: Option<Problem>)

  predicate Scalars(cps: seq<int>) {
    forall i :: 0 <= i < |cps| ==> IsScalar(cps[i])
  }

  function DecodeAll(enc: Encoding, s: seq<Byte>): (d: Decoded)
    ensures Scalars(d.chars)
    decreases |s|
  {
    if s == [] then Decoded([], None)
    else
      match NextOf(enc, s)
      case Char(v, w) =>
        var d := DecodeAll(enc, s[w..]);
        Decoded([v] + d.chars, d.problem)
      case Short => Decoded([], Some(Incomplete))
      case Bad(p) => Decoded([], Some(p))
  }

  /** Code points as UTF-8, the way the buffer holds them. */
  function EncodeAll(cps: seq<int>): (s: seq<Byte>)
    requires Scalars(cps)
  {
    if cps == [] then [] else EncodeAll(cps[..|cps| - 1]) + Encode(cps[|cps| - 1])
  }

  lemma {:induction false} EncodeAllConcat(a: seq<int>, b: seq<int>)
    requires Scalars(a) && Scalars(b)
    ensures EncodeAll(a + b) == EncodeAll(a) + EncodeAll(b)
  {
    hide Encode;
    if b == [] {
      assert a + b == a;
    } else {
      var n := |b| - 1;
      assert (a + b)[..|a| + n] == a + b[..n];
      EncodeAllConcat(a, b[..n]);
      assert EncodeAll(a + b) == EncodeAll(a + b[..n]) + Encode(b[n]);
    }
  }

  /** The step that decoding takes at the front of input without errors. */
  lemma DecodeStep(enc: Encoding, s: seq<Byte>) returns (v: int, w: nat)
    requires s != [] && DecodeAll(enc, s).problem.None?
    ensures NextOf(enc, s) == Char(v, w) && 1 <= w <= |s| && IsScalar(v)
    ensures DecodeAll(enc, s[w..]).problem.None? && DecodeAll(enc, s).chars == [v] + DecodeAll(enc, s[w..]).chars
  {
    hide NextUtf8, NextUtf16;
    var n := NextOf(enc, s);
    v, w := n.value, n.width;
  }

  /** Input without errors in UTF-8 is kept byte for byte, and it is valid UTF-8 of allowed characters. */
  lemma {:induction false} Utf8Kept(s: seq<Byte>)
    requires DecodeAll(Utf8, s).problem.None?
    ensures EncodeAll(DecodeAll(Utf8, s).chars) == s && ValidUtf8(s)
    ensures AllowedAll(DecodeAll(Utf8, s).chars)
    decreases |s|
  {
    hide Encode, Decode, Allowed, IsChar, EncodeAll, DecodeAll, IsScalar, ValidUtf8, Width;
    if s == [] {
      NothingDecoded(Utf8);
    } else {
      var v, w := DecodeStep(Utf8, s);
      Utf8Accepted(s);
      var rest := s[w..];
      Utf8Kept(rest);
      EncodeAllConcat([v], DecodeAll(Utf8, rest).chars);
      EncodeOne(v);
      ValidStep(s, w);
      assert s == s[..w] + rest;
    }
  }

  lemma NothingDecoded(enc: Encoding)
    ensures DecodeAll(enc, []) == Decoded([], None) && EncodeAll([]) == [] && ValidUtf8([])
  {
  }

  lemma ValidStep(s: seq<Byte>, w: nat)
    requires s != [] && w == Width(s[0]) && 1 <= w <= |s| && IsChar(s[..w]) && ValidUtf8(s[w..])
    ensures ValidUtf8(s)
  {
  }

  lemma EncodeOne(cp: int)
    requires IsScalar(cp)
    ensures EncodeAll([cp]) == Encode(cp)
  {
    assert [cp][..0] == [];
    assert EncodeAll([cp]) == [] + Encode(cp);
  }

  /** All the characters of a text are allowed. */
  predicate AllAllowed(s: seq<Byte>)
    requires ValidUtf8(s)
    decreases |s|
  {
    s == [] || (Allowed(Decode(Head(s))) && AllAllowed(s[|Head(s)|..]))
  }

  /** Valid UTF-8 of allowed characters is read without an error. */
  lemma {:induction false} Utf8Read(s: seq<Byte>)
    requires ValidUtf8(s) && AllAllowed(s)
    ensures DecodeAll(Utf8, s).problem.None?
    decreases |s|
  {
    hide Encode, Allowed, IsChar, Decode;
    if s != [] {
      Utf8Accepted(s);
      Utf8Read(s[|Head(s)|..]);
    }
  }

  function Encode16All(cps: seq<int>, little: bool): (s: seq<Byte>)
    requires Scalars(cps)
  {
    if cps == [] then [] else Encode16(cps[0], little) + Encode16All(cps[1..], little)
  }

  predicate AllowedAll(cps: seq<int>) {
    forall i :: 0 <= i < |cps| ==> Allowed(cps[i])
  }

  /** UTF-8 stands for the code points it was written from. */
  lemma {:induction false} Utf8ReadAs(cps: seq<int>)
    requires Scalars(cps) && AllowedAll(cps)
    ensures DecodeAll(Utf8, EncodeAll(cps)) == Decoded(cps, None)
  {
    hide Encode, Decode, Allowed, NextUtf8, IsChar, EncodeAll;
    if cps == [] {
      NothingDecoded(Utf8);
    } else {
      var c, rest := Encode(cps[0]), EncodeAll(cps[1..]);
      assert cps == [cps[0]] + cps[1..];
      EncodeAllConcat([cps[0]], cps[1..]);
      EncodeOne(cps[0]);
      DecodeInverse(cps[0]);
      EncodeInverse(c);
      var s := c + rest;
      assert s[..|c|] == c && s[|c|..] == rest && s[0] == c[0];
      Utf8Accepted(s);
      Utf8ReadAs(cps[1..]);
    }
  }

  /** UTF-16 stands for the code points it was written from. */
  lemma {:induction false} Utf16Read(cps: seq<int>, little: bool)
    requires Scalars(cps) && AllowedAll(cps)
    ensures DecodeAll(if little then Utf16LE else Utf16BE, Encode16All(cps, little)) == Decoded(cps, None)
  {
    hide Encode16, Allowed, NextUtf16;
    if cps != [] {
      var s, c, rest := Encode16All(cps, little), Encode16(cps[0], little), Encode16All(cps[1..], little);
      assert s[..|c|] == c && s[|c|..] == rest;
      Utf16Accepted(s, little, cps[0], |c|);
      Utf16Read(cps[1..], little);
      assert cps == [cps[0]] + cps[1..];
    }
  }

  /** And nothing else is read without an error. */
  lemma {:induction false} Utf16Only(s: seq<Byte>, little: bool)
    requires DecodeAll(if little then Utf16LE else Utf16BE, s).problem.None?
    ensures var cps := DecodeAll(if little then Utf16LE else Utf16BE, s).chars;
      AllowedAll(cps) && s == Encode16All(cps, little)
    decreases |s|
  {
    hide Encode16, Allowed, NextUtf16;
    var enc := if little then Utf16LE else Utf16BE;
    if s != [] {
      var n := NextOf(enc, s);
      Utf16Accepted(s, little, n.value, n.width);
      Utf16Only(s[n.width..], little);
      var rest := DecodeAll(enc, s[n.width..]).chars;
      assert ([n.value] + rest)[1..] == rest;
      assert s == s[..n.width] + s[n.width..];
    }
  }
}
