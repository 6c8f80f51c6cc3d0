/**
 What the double-quoted writer escapes, by code point, and how: in the shortest form that the
 grammar of quoted scalars has, with digits in upper case.
 */
module QuotedEscapes {
  import opened YamlChars
  import opened QuotedWriter
  import opened QuotedRoundTrip
  import opened QuotedGrammar
  import QuotedMeaning

  /** The printable characters of section 5.1 of YAML 1.2 without the tab, NEL and those above U+FFFF. */
  predicate Printable(cp: int) {
    cp == 0x0A || 0x20 <= cp <= 0x7E || 0xA0 <= cp <= 0xD7FF || (0xE000 <= cp <= 0xFFFD && cp != 0xFEFF)
  }

  /** The octets of a character, as a sum. */
  lemma DecodeSum(c: seq<Byte>)
    requires IsChar(c)
    ensures |c| == 1 ==> Decode(c) == c[0]
    ensures |c| == 2 ==> Decode(c) == (c[0] as int - 0xC0) * 0x40 + (c[1] as int - 0x80)
    ensures |c| == 3 ==> Decode(c) == (c[0] as int - 0xE0) * 0x1000 + (c[1] as int - 0x80) * 0x40 + (c[2] as int - 0x80)
    ensures |c| == 4 ==>
      Decode(c) == (c[0] as int - 0xF0) * 0x4_0000 + (c[1] as int - 0x80) * 0x1000
                   + (c[2] as int - 0x80) * 0x40 + (c[3] as int - 0x80)
  {
    if |c| == 2 {
      LowOf(0xC0, 32, c[0] - 0xC0);
      LowOf(0x80, 64, c[1] - 0x80);
    } else if |c| == 3 {
      DecodeSum3(c);
    } else if |c| == 4 {
      DecodeSum4(c);
    }
  }

  lemma DecodeSum3(c: seq<Byte>)
    requires IsChar(c) && |c| == 3
    ensures Decode(c) == (c[0] as int - 0xE0) * 0x1000 + (c[1] as int - 0x80) * 0x40 + (c[2] as int - 0x80)
  {
    hide Low;
    LowOf(0xE0, 16, c[0] - 0xE0);
    LowOf(0x80, 64, c[1] - 0x80);
    LowOf(0x80, 64, c[2] - 0x80);
  }

  lemma DecodeSum4(c: seq<Byte>)
    requires IsChar(c) && |c| == 4
    ensures Decode(c) == (c[0] as int - 0xF0) * 0x4_0000 + (c[1] as int - 0x80) * 0x1000
                         + (c[2] as int - 0x80) * 0x40 + (c[3] as int - 0x80)
  {
    hide Low;
    LowOf(0xF0, 8, c[0] - 0xF0);
    LowOf(0x80, 64, c[1] - 0x80);
    LowOf(0x80, 64, c[2] - 0x80);
    LowOf(0x80, 64, c[3] - 0x80);
  }

  lemma PrintableIff(c: seq<Byte>)
    requires IsChar(c)
    ensures IsPrintable(c) <==> Printable(Decode(c))
  {
    hide Decode;
    DecodeSum(c);
  }

  lemma SpecialIff(c: seq<Byte>)
    requires IsChar(c)
    ensures IsBreak(c) <==> Decode(c) in {0x0A, 0x0D, 0x85, 0x2028, 0x2029}
    ensures c[0] == 0x22 <==> Decode(c) == 0x22
    ensures c[0] == 0x5C <==> Decode(c) == 0x5C
    ensures c[0] <= 0x7F <==> Decode(c) <= 0x7F
  {
    hide Decode;
    DecodeSum(c);
  }

  /** Which characters are escaped, when the value does not start with a byte order mark. */
  lemma NeedsEscapeIff(l: Layout, v: seq<Byte>)
    requires v != [] && ValidUtf8(v)
    ensures var cp := Decode(Head(v));
            NeedsEscape(l, false, v) <==>
            !Printable(cp) || cp in {0x0A, 0x22, 0x5C, 0x2028, 0x2029} || (cp > 0x7F && !l.unicode)
  {
    hide IsChar, Decode, IsPrintable, IsBreak;
    var c := Head(v);
    RawFront(c, v[|c|..]);
    PrintableIff(c);
    SpecialIff(c);
  }

  lemma {:induction false} NumberBound(ds: seq<Digit>)
    requires GoodDigits(ds)
    ensures Number(ds) < Pow16(|ds|)
    decreases |ds|
  {
    if ds != [] {
      NumberBound(ds[..|ds| - 1]);
    }
  }

  lemma {:induction false} UpperCase(v: nat, n: nat)
    ensures forall i :: 0 <= i < n ==> 0x30 <= HexText(v, n)[i] <= 0x46
  {
    if n > 0 {
      UpperCase(v, n - 1);
    }
  }

  lemma LetterFor(k: nat)
    requires k < 18 && CODES[k] != 0x20 && CODES[k] != 0x27
    ensures EscapeLetter(CODES[k]) != 0
  {
  }

  /** An escape of `v` other than by a space or a quote after the backslash is no shorter than the written one. */
  lemma EscapeIsShortest(v: nat, q: Piece)
    requires IsScalar(v) && v != 0x20 && v != 0x27
    requires GoodPiece(q, false) && (q.Short? || q.Numeric?) && Meaning(q, false) == Encode(v)
    ensures |EscapeText(v)| <= |Bytes(q, false)|
  {
    hide Encode, Decode, EscapeLetter, IsChar, Number, DigitBytes;
    DecodeInverse(v);
    if q.Short? {
      CodeIsScalar(q.k);
      DecodeInverse(CODES[q.k]);
      LetterFor(q.k);
    } else {
      DecodeInverse(Number(q.digits));
      NumberBound(q.digits);
      PowersOf16();
    }
  }

  lemma CodeIsScalar(k: nat)
    requires k < 18
    ensures IsScalar(CODES[k])
  {
  }

  /** The written escape is a piece of the grammar that stands for the character. */
  lemma EscapeForm(v: nat) returns (p: Piece)
    requires IsScalar(v)
    ensures GoodPiece(p, false) && Bytes(p, false) == EscapeText(v) && Meaning(p, false) == Encode(v)
    ensures p.Numeric? ==> forall i :: 2 <= i < |EscapeText(v)| ==> EscapeText(v)[i] <= 0x46
  {
    hide EscapeText, Encode, Meaning, Bytes, HexText;
    var e := EscapeText(v);
    EscapeInverse(v, []);
    assert e + [] == e;
    p := QuotedMeaning.EscapeMeans(e);
    assert e[|e|..] == [] && Bytes(p, false) + [] == Bytes(p, false);
    UpperCase(v, HexLength(v));
    EscapeDigits(v);
  }

  lemma EscapeDigits(v: nat)
    ensures EscapeText(v)[2..] == HexText(v, HexLength(v))
  {
    hide HexText;
  }
}
