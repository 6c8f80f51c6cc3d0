/**
 From value to value: what the quoted writers put down passes through the reader unchanged,
 whatever pieces it is read in, and scans back to the value.
 */
module QuotedThroughReader {
  import opened Options
  import opened YamlChars
  import opened QuotedScanner
  import opened QuotedWriter
  import opened QuotedRoundTrip
  import opened SingleRoundTrip
  import opened ReaderModel
  import R = ReaderObject

  /** Text that the reader accepts. */
  ghost predicate Readable(s: seq<Byte>) {
    ValidUtf8(s) && AllAllowed(s)
  }

  lemma {:induction false} ReadableConcat(a: seq<Byte>, b: seq<Byte>)
    requires Readable(a) && Readable(b)
    ensures Readable(a + b)
    decreases |a|
  {
    if a == [] {
      assert a + b == b;
    } else {
      var c := Head(a);
      var rest := a[|c|..];
      ReadableConcat(rest, b);
      assert (a + b)[..|c|] == c && (a + b)[|c|..] == rest + b;
      ReadableStep(a + b, c);
    }
  }

  lemma ReadableStep(s: seq<Byte>, c: seq<Byte>)
    requires IsChar(c) && Allowed(Decode(c)) && |c| <= |s| && s[..|c|] == c && Readable(s[|c|..])
    ensures Readable(s)
  {
    hide Decode, Allowed, IsChar;
    EncodeInverse(c);
    assert s[0] == c[0];
  }

  lemma NothingReadable()
    ensures Readable([])
  {
  }

  /** A printable character is an allowed one. */
  lemma PrintableIsAllowed(c: seq<Byte>)
    requires IsChar(c) && IsPrintable(c)
    ensures Readable(c)
  {
    if |c| == 2 {
      LowOf(0xC0, 32, c[0] - 0xC0);
      LowOf(0x80, 64, c[1] - 0x80);
    } else if |c| == 3 {
      LowOf(0xE0, 16, c[0] - 0xE0);
      LowOf(0x80, 64, c[1] - 0x80);
      LowOf(0x80, 64, c[2] - 0x80);
    }
    assert Allowed(Decode(c));
    NothingReadable();
    ReadableStep(c, c);
  }

  /** Plain ASCII without control characters other than line feed and carriage return. */
  predicate Plain(s: seq<Byte>) {
    forall i :: 0 <= i < |s| ==> s[i] == 0x0A || s[i] == 0x0D || 0x20 <= s[i] <= 0x7E
  }

  lemma {:induction false} PlainIsReadable(s: seq<Byte>)
    requires Plain(s)
    ensures Readable(s)
  {
    if s == [] {
      NothingReadable();
    } else {
      PlainIsReadable(s[1..]);
      assert s[..1] == [s[0]];
      ReadableStep(s, [s[0]]);
    }
  }

  lemma {:induction false} HexIsPlain(v: nat, n: nat)
    ensures Plain(HexText(v, n))
  {
    if n > 0 {
      HexIsPlain(v, n - 1);
    }
  }

  lemma EscapeIsReadable(v: nat)
    ensures Readable(EscapeText(v))
  {
    HexIsPlain(v, HexLength(v));
    PlainIsReadable(EscapeText(v));
  }

  lemma IndentIsReadable(l: Layout, p: Pen, more: seq<Byte>)
    requires Plain(more)
    ensures Readable(IndentText(l, p) + more)
  {
    PlainIsReadable(IndentText(l, p) + more);
  }

  /** The character in front of a value is printable together with what the class looks at. */
  lemma HeadPrintable(v: seq<Byte>)
    requires v != [] && ValidUtf8(v) && IsPrintable(v)
    ensures IsChar(Head(v)) && IsPrintable(Head(v))
  {
  }

  lemma DoubleTurnReadable(l: Layout, allowBreaks: bool, bom: bool, start: bool, v: seq<Byte>, p: Pen, spaces: bool)
    requires v != [] && ValidUtf8(v)
    ensures Readable(DoubleTurn(l, allowBreaks, bom, start, v, p, spaces).text)
  {
    hide Readable, EscapeText, IsPrintable, IsChar, Decode, IndentText;
    var c := Head(v);
    if NeedsEscape(l, bom, v) {
      EncodeInverse(c);
      EscapeIsReadable(Decode(c));
    } else if IsSpace(v) && DoubleFolds(l, allowBreaks, start, v, p, spaces) {
      IndentIsReadable(l, p, Guard(v[1..]));
    } else {
      HeadPrintable(v);
      PrintableIsAllowed(c);
    }
  }

  lemma {:induction false} DoubleBodyReadable(l: Layout, allowBreaks: bool, bom: bool, start: bool, v: seq<Byte>,
        p: Pen, spaces: bool)
    requires ValidUtf8(v)
    ensures Readable(DoubleBody(l, allowBreaks, bom, start, v, p, spaces))
    decreases |v|
  {
    hide Readable, DoubleTurn, IsChar;
    if v == [] {
      NothingReadable();
    } else {
      var t := DoubleTurn(l, allowBreaks, bom, start, v, p, spaces);
      DoubleTurnReadable(l, allowBreaks, bom, start, v, p, spaces);
      DoubleBodyReadable(l, allowBreaks, bom, false, v[|Head(v)|..], t.pen, t.spaces);
      ReadableConcat(t.text, DoubleBody(l, allowBreaks, bom, false, v[|Head(v)|..], t.pen, t.spaces));
    }
  }

  /** A quoted scalar and what follows it, read as a whole input. */
  lemma QuotedReadable(quote: Byte, body: seq<Byte>, rest: seq<Byte>)
    requires (quote == 0x22 || quote == 0x27) && Readable(body) && Readable(rest)
    ensures var s := [quote] + body + [quote] + rest; R.Text(s).problem.None? && EncodeAll(R.Text(s).chars) == s
  {
    var s := [quote] + body + [quote] + rest;
    PlainIsReadable([quote]);
    ReadableConcat([quote], body);
    ReadableConcat([quote] + body, [quote]);
    ReadableConcat([quote] + body + [quote], rest);
    assert R.EncodingOf(s) == Utf8 && R.MarkLength(s) == 0 && s[0..] == s;
    Utf8Read(s);
    Utf8Kept(s);
  }

  /** Written in double quotes, read in any pieces, scanned: the value. */
  lemma DoubleThroughReader(l: Layout, allowBreaks: bool, v: seq<Byte>, p: Pen, column: nat, rest: seq<Byte>)
    requires ValidUtf8(v) && l.indent >= 1 && Readable(rest)
    ensures var t := R.Text(DoubleQuoted(l, allowBreaks, v, p) + rest);
      t.problem.None? && Yields(ScanQuoted(false, Cursor(EncodeAll(t.chars), column)), v, rest)
  {
    hide ScanQuoted, DoubleBody, Readable, R.Text, EncodeAll;
    var body := DoubleBody(l, allowBreaks, StartsWithBom(v), true, v, Opened(p), false);
    DoubleBodyReadable(l, allowBreaks, StartsWithBom(v), true, v, Opened(p), false);
    QuotedReadable(0x22, body, rest);
    IndentedDoubleRoundTrip(l, allowBreaks, v, p, column, rest);
  }

  lemma BreakIsReadable(l: Layout, c: seq<Byte>, breaks: bool)
    requires IsChar(c) && IsPrintable(c)
    ensures Readable(SingleBreak(l, c, breaks))
  {
    if At(c, 0) == 0x0A {
      PlainIsReadable(SingleBreak(l, c, breaks));
    } else {
      PrintableIsAllowed(c);
    }
  }

  lemma DoubledIsReadable(c: seq<Byte>)
    requires IsChar(c) && IsPrintable(c)
    ensures Readable(Doubled(c))
  {
    PrintableIsAllowed(c);
    PlainIsReadable([0x27]);
    if At(c, 0) == 0x27 {
      ReadableConcat([0x27], c);
    }
  }

  lemma SingleTurnReadable(l: Layout, allowBreaks: bool, start: bool, v: seq<Byte>, p: Pen, spaces: bool, breaks: bool)
    requires v != [] && ValidUtf8(v) && IsPrintable(v)
    ensures Readable(SingleTurn(l, allowBreaks, start, v, p, spaces, breaks).text)
  {
    hide Readable, IsPrintable, IsChar, IndentText, SingleBreak, Doubled;
    var c := Head(v);
    HeadPrintable(v);
    PrintableIsAllowed(c);
    IndentIsReadable(l, p, []);
    assert IndentText(l, p) + [] == IndentText(l, p);
    BreakIsReadable(l, c, breaks);
    DoubledIsReadable(c);
    ReadableConcat(IndentText(l, p), Doubled(c));
    assert [] + Doubled(c) == Doubled(c);
  }

  lemma {:induction false} SingleBodyReadable(l: Layout, allowBreaks: bool, start: bool, v: seq<Byte>, p: Pen,
        spaces: bool, breaks: bool)
    requires ValidUtf8(v) && SingleAllowed(l.unicode, v)
    ensures Readable(SingleBody(l, allowBreaks, start, v, p, spaces, breaks))
    decreases |v|
  {
    hide Readable, SingleTurn, IsChar, IsPrintable, IsBreak;
    if v == [] {
      NothingReadable();
    } else {
      var t := SingleTurn(l, allowBreaks, start, v, p, spaces, breaks);
      SingleTurnReadable(l, allowBreaks, start, v, p, spaces, breaks);
      SingleBodyReadable(l, allowBreaks, false, v[|Head(v)|..], t.pen, t.spaces, t.breaks);
      ReadableConcat(t.text, SingleBody(l, allowBreaks, false, v[|Head(v)|..], t.pen, t.spaces, t.breaks));
    }
  }

  /** Written in single quotes, where that is allowed, read in any pieces, scanned: the value. */
  lemma SingleThroughReader(l: Layout, allowBreaks: bool, v: seq<Byte>, p: Pen, column: nat, rest: seq<Byte>)
    requires ValidUtf8(v) && SingleAllowed(l.unicode, v) && l.indent >= 1 && Readable(rest) && At(rest, 0) != 0x27
    ensures var t := R.Text(SingleQuoted(l, allowBreaks, v, p) + rest);
      t.problem.None? && Yields(ScanQuoted(true, Cursor(EncodeAll(t.chars), column)), v, rest)
  {
    hide ScanQuoted, SingleBody, Readable, R.Text, EncodeAll, SingleAllowed;
    var body := SingleBody(l, allowBreaks, true, v, Opened(p), false, false);
    SingleBodyReadable(l, allowBreaks, true, v, Opened(p), false, false);
    QuotedReadable(0x27, body, rest);
    IndentedSingleRoundTrip(l, allowBreaks, v, p, column, rest);
  }
}
