/**
 Scanning undoes writing, for both quoted styles.

 The scanner is followed from inside its loops: `Inside` is the rest of a scan from the loop
 over non-blank characters, `InGap` from the loop over blanks and line breaks. Each kind of
 text that a writer can put down moves the scanner by a known amount; the two main lemmas put
 these moves together along the value.
 */
module QuotedRoundTrip {
  import opened IntegerFacts
  import opened YamlChars
  import opened QuotedScanner
  import opened QuotedWriter

  ghost function InGap(single: bool, text: seq<Byte>, g: Gap): Scan {
    var r := Blanks(g);
    Content(single, r.at, Join(text, r))
  }

  ghost function Inside(single: bool, at: Cursor, text: seq<Byte>): Scan {
    match NonBlank(single, at, text)
    case Bad(p) => Error(p)
    case Run(at1, text1, leading) =>
      if At(at1.rest, 0) == Quote(single) then Token(text1, Advance(at1, 1, 1))
      else InGap(single, text1, Gap(at1, leading, [], [], []))
  }

  /** The scan gives `v` and stops at `rest`. */
  ghost predicate Yields(r: Scan, v: seq<Byte>, rest: seq<Byte>) {
    r.Token? && r.value == v && r.at.rest == rest
  }

  // ---------------------------------------------------------------- moves of the scanner

  lemma TopInside(single: bool, at: Cursor, text: seq<Byte>)
    requires !IsZ(at.rest) && (at.column > 0 || !StartsIndicator(at.rest))
    ensures Content(single, at, text) == Inside(single, at, text)
  {
    hide NonBlank, Blanks;
  }

  lemma InsideChar(single: bool, c: seq<Byte>, tail: seq<Byte>, column: nat, text: seq<Byte>)
    requires IsChar(c) && !IsBlankZ(c) && c[0] != Quote(single) && (single || c[0] != 0x5C)
    ensures Inside(single, Cursor(c + tail, column), text) == Inside(single, Cursor(tail, column + 1), text + c)
  {
    hide InGap, Unescape;
    var s := c + tail;
    assert s[..|c|] == c && Drop(s, |c|) == tail && Width(s[0]) == |c|;
  }

  lemma InsideDoubledQuote(tail: seq<Byte>, column: nat, text: seq<Byte>)
    ensures Inside(true, Cursor([0x27, 0x27] + tail, column), text)
      == Inside(true, Cursor(tail, column + 2), text + [0x27])
  {
    hide InGap;
    var s := [0x27, 0x27] + tail;
    assert Drop(s, 2) == tail;
  }

  lemma InsideQuote(single: bool, tail: seq<Byte>, column: nat, text: seq<Byte>)
    requires single ==> At(tail, 0) != 0x27
    ensures Inside(single, Cursor([Quote(single)] + tail, column), text) == Token(text, Cursor(tail, column + 1))
  {
    hide InGap;
    var s := [Quote(single)] + tail;
    assert At(s, 1) == At(tail, 0) && Drop(s, 1) == tail;
  }

  lemma InsideEscape(e: seq<Byte>, b: seq<Byte>, tail: seq<Byte>, column: nat, text: seq<Byte>)
    requires |e| >= 2 && e[0] == 0x5C && !IsBreak(e[1..] + tail) && Unescape(e + tail) == Take(b, |e|)
    ensures Inside(false, Cursor(e + tail, column), text) == Inside(false, Cursor(tail, column + |e|), text + b)
  {
    hide InGap, Unescape;
    var s := e + tail;
    assert s[1..] == e[1..] + tail && Drop(s, |e|) == tail;
  }

  lemma InsideGap(single: bool, at: Cursor, text: seq<Byte>)
    requires IsBlank(at.rest) || IsBreak(at.rest)
    ensures Inside(single, at, text) == InGap(single, text, Gap(at, false, [], [], []))
  {
  }

  lemma GapSpace(single: bool, text: seq<Byte>, tail: seq<Byte>, column: nat, spaces: seq<Byte>)
    ensures InGap(single, text, Gap(Cursor([0x20] + tail, column), false, spaces, [], []))
         == InGap(single, text, Gap(Cursor(tail, column + 1), false, spaces + [0x20], [], []))
  {
    hide Content;
    assert Drop([0x20] + tail, 1) == tail;
  }

  lemma GapSkip(single: bool, text: seq<Byte>, tail: seq<Byte>, column: nat, first: seq<Byte>, more: seq<Byte>)
    ensures InGap(single, text, Gap(Cursor([0x20] + tail, column), true, [], first, more))
         == InGap(single, text, Gap(Cursor(tail, column + 1), true, [], first, more))
  {
    hide Content;
    assert Drop([0x20] + tail, 1) == tail;
  }

  lemma {:induction false} GapIndent(single: bool, text: seq<Byte>, n: nat, tail: seq<Byte>, column: nat,
        first: seq<Byte>, more: seq<Byte>)
    ensures InGap(single, text, Gap(Cursor(Spaces(n) + tail, column), true, [], first, more))
         == InGap(single, text, Gap(Cursor(tail, column + n), true, [], first, more))
  {
    hide InGap;
    if n == 0 {
      assert Spaces(0) + tail == tail;
    } else {
      assert Spaces(n) + tail == [0x20] + (Spaces(n - 1) + tail);
      GapSkip(single, text, Spaces(n - 1) + tail, column, first, more);
      GapIndent(single, text, n - 1, tail, column + 1, first, more);
    }
  }

  /** Where a line break text ends: a lone CR must not be followed by LF. */
  lemma BreakEnds(style: BreakStyle, tail: seq<Byte>)
    requires style == CR ==> At(tail, 0) != 0x0A
    ensures var s := BreakText(style) + tail;
            && IsBreak(s) && !IsBlank(s) && LineBreak(s) == ([0x0A], |BreakText(style)|)
            && Drop(s, |BreakText(style)|) == tail
  {
    var s := BreakText(style) + tail;
    assert s[|BreakText(style)|..] == tail;
    if style == CR {
      assert At(s, 1) == At(tail, 0);
    }
  }

  lemma GapFirstBreak(single: bool, text: seq<Byte>, style: BreakStyle, tail: seq<Byte>, column: nat, spaces: seq<Byte>)
    requires style == CR ==> At(tail, 0) != 0x0A
    ensures InGap(single, text, Gap(Cursor(BreakText(style) + tail, column), false, spaces, [], []))
         == InGap(single, text, Gap(Cursor(tail, 0), true, [], [0x0A], []))
  {
    hide Content, LineBreak, IsBreak, BreakText;
    BreakEnds(style, tail);
    assert [] + [0x0A] == [0x0A];
  }

  lemma GapNextBreak(single: bool, text: seq<Byte>, style: BreakStyle, tail: seq<Byte>, column: nat, first: seq<Byte>,
        more: seq<Byte>)
    requires style == CR ==> At(tail, 0) != 0x0A
    ensures InGap(single, text, Gap(Cursor(BreakText(style) + tail, column), true, [], first, more))
         == InGap(single, text, Gap(Cursor(tail, 0), true, [], first, more + [0x0A]))
  {
    hide Content, LineBreak, IsBreak, BreakText;
    BreakEnds(style, tail);
  }

  lemma GapEnd(single: bool, text: seq<Byte>, g: Gap)
    requires !IsBlankZ(g.at.rest)
    requires g.at.column > 0 || !StartsIndicator(g.at.rest)
    ensures InGap(single, text, g) == Inside(single, g.at, Join(text, g))
  {
    hide Content, Join, Inside, StartsIndicator, IsBreak;
    TopInside(single, g.at, Join(text, g));
  }

  // ---------------------------------------------------------------- escapes

  lemma HexDigitInverse(d: int)
    requires 0 <= d < 16
    ensures IsHex(HexDigit(d)) && AsHex(HexDigit(d)) == d
  {
  }

  lemma HexPlace(v: nat, p: nat, acc: nat)
    requires p >= 1
    ensures 16 * p > 0 && (acc * 16 + v / p % 16) * p + v % p == acc * (16 * p) + v % (16 * p)
  {
    ModSplit(v, p, 16);
    assert (acc * 16 + v / p % 16) * p == acc * 16 * p + v / p % 16 * p;
  }

  lemma {:induction false} HexInverse(v: nat, n: nat, tail: seq<Byte>, acc: nat)
    ensures HexValue(HexText(v, n) + tail, n, acc) == acc * Pow16(n) + v % Pow16(n)
  {
    hide HexDigit, AsHex;
    if n > 0 {
      var d := v / Pow16(n - 1) % 16;
      var s := HexText(v, n) + tail;
      assert s[0] == HexDigit(d) && Drop(s, 1) == HexText(v, n - 1) + tail;
      HexDigitInverse(d);
      HexInverse(v, n - 1, tail, acc * 16 + d);
      HexPlace(v, Pow16(n - 1), acc);
    }
  }

  lemma LetterInverse(v: nat)
    requires EscapeLetter(v) != 0
    ensures v <= 0x10FFFF && EscapeOf(EscapeLetter(v)) == Text(Encode(v))
  {
  }

  lemma EscapeInverse(v: nat, tail: seq<Byte>)
    requires IsScalar(v)
    ensures var e := EscapeText(v);
            !IsBreak(e[1..] + tail) && Unescape(e + tail) == Take(Encode(v), |e|)
  {
    hide HexText, HexValue, Encode;
    var n, e := HexLength(v), EscapeText(v);
    var s := e + tail;
    assert s[1] == EscapeMark(v) && (e[1..] + tail)[0] == EscapeMark(v);
    if n == 0 {
      LetterInverse(v);
    } else {
      assert Drop(s, 2) == HexText(v, n) + tail;
      HexInverse(v, n, tail, 0);
      assert v < Pow16(n) by { PowersOf16(); }
    }
  }

  lemma PowersOf16()
    ensures Pow16(2) == 0x100 && Pow16(4) == 0x1_0000 && Pow16(8) == 0x1_0000_0000
  {
    assert Pow16(3) == 16 * Pow16(2);
    assert Pow16(5) == 16 * Pow16(4) && Pow16(6) == 16 * Pow16(5) && Pow16(7) == 16 * Pow16(6);
  }

  // ---------------------------------------------------------------- where the scanner is

  /** Between two turns of a writer, the scanner is inside text, inside a gap, or just past a backslash. */
  datatype Where =
    | InText
    | InBlanks(spaces: seq<Byte>)
    | InBreaks(first: seq<Byte>, more: seq<Byte>)
    | InEscape

  ghost function Resume(single: bool, w: Where, s: seq<Byte>, column: nat, text: seq<Byte>): Scan {
    match w
    case InText => Inside(single, Cursor(s, column), text)
    case InBlanks(spaces) => InGap(single, text, Gap(Cursor(s, column), false, spaces, [], []))
    case InBreaks(first, more) => InGap(single, text, Gap(Cursor(s, column), true, [], first, more))
    case InEscape => Inside(single, Cursor([0x5C] + s, column), text)
  }

  /** The text read so far, counting a gap that is still open. */
  ghost function Gathered(w: Where, text: seq<Byte>): seq<Byte> {
    match w
    case InText => text
    case InBlanks(spaces) => text + spaces
    case InBreaks(first, more) => Join(text, Gap(Cursor([], 0), true, [], first, more))
    case InEscape => text
  }

  lemma Settle(single: bool, w: Where, s: seq<Byte>, column: nat, text: seq<Byte>)
    requires !w.InEscape? && !IsBlankZ(s) && (w.InText? || column > 0 || !StartsIndicator(s))
    ensures Resume(single, w, s, column, text) == Inside(single, Cursor(s, column), Gathered(w, text))
  {
    hide IsBlankZ, StartsIndicator, InGap, Inside;
    match w
    case InBlanks(spaces) => GapEnd(single, text, Gap(Cursor(s, column), false, spaces, [], []));
    case InBreaks(first, more) => GapEnd(single, text, Gap(Cursor(s, column), true, [], first, more));
    case _ =>
  }

  // ---------------------------------------------------------------- double quotes

  ghost function DoubleTail(l: Layout, allowBreaks: bool, bom: bool, start: bool, v: seq<Byte>, p: Pen, spaces: bool,
        rest: seq<Byte>): seq<Byte>
    requires ValidUtf8(v)
  {
    DoubleBody(l, allowBreaks, bom, start, v, p, spaces) + ([0x22] + rest)
  }

  lemma DoubleTailStep(l: Layout, allowBreaks: bool, bom: bool, start: bool, v: seq<Byte>, p: Pen, spaces: bool,
        rest: seq<Byte>)
    requires v != [] && ValidUtf8(v)
    ensures ValidUtf8(v[|Head(v)|..])
    ensures var t := DoubleTurn(l, allowBreaks, bom, start, v, p, spaces);
            DoubleTail(l, allowBreaks, bom, start, v, p, spaces, rest)
            == t.text + DoubleTail(l, allowBreaks, bom, false, v[|Head(v)|..], t.pen, t.spaces, rest)
  {
    hide DoubleTurn, IsChar;
  }

  lemma DoubleTailEnd(l: Layout, allowBreaks: bool, bom: bool, start: bool, p: Pen, spaces: bool, rest: seq<Byte>)
    ensures DoubleTail(l, allowBreaks, bom, start, [], p, spaces, rest) == [0x22] + rest
  {
  }

  /** After a fold the pen is at the indentation, and only a non-space moves it on. */
  ghost predicate Tame(l: Layout, p: Pen, spaces: bool) {
    p.indention ==> p.column >= IndentColumn(l) && (p.column == IndentColumn(l) ==> spaces)
  }

  /** A document indicator followed by a space, inside the value. */
  predicate ValueIndicator(v: seq<Byte>) {
    && ((At(v, 0) == 0x2D && At(v, 1) == 0x2D && At(v, 2) == 0x2D)
        || (At(v, 0) == 0x2E && At(v, 1) == 0x2E && At(v, 2) == 0x2E))
    && At(v, 3) == 0x20
  }

  /** The writer folds, with nothing to indent, right in front of a document indicator. */
  predicate FoldsOnIndicator(l: Layout, allowBreaks: bool, bom: bool, start: bool, v: seq<Byte>, p: Pen, spaces: bool)
    requires ValidUtf8(v)
    decreases |v|
  {
    v != [] &&
    ((&& !NeedsEscape(l, bom, v) && IsSpace(v) && DoubleFolds(l, allowBreaks, start, v, p, spaces)
      && l.indent <= 0 && ValueIndicator(v[1..]))
     || (var t := DoubleTurn(l, allowBreaks, bom, start, v, p, spaces);
         FoldsOnIndicator(l, allowBreaks, bom, false, v[|Head(v)|..], t.pen, t.spaces)))
  }

  /** The front of a raw character decides its class. */
  lemma RawFront(c: seq<Byte>, tail: seq<Byte>)
    requires IsChar(c)
    ensures IsBreak(c + tail) == IsBreak(c) && IsBlank(c + tail) == IsBlank(c) && IsZ(c + tail) == IsZ(c)
    ensures IsPrintable(c + tail) == IsPrintable(c)
  {
    assert At(c + tail, 0) == c[0];
  }

  /** What the text for a non-empty value starts with. */
  lemma DoubleFront(l: Layout, allowBreaks: bool, bom: bool, start: bool, v: seq<Byte>, p: Pen, spaces: bool,
        rest: seq<Byte>)
    requires v != [] && ValidUtf8(v) && Tame(l, p, spaces)
    ensures var s := DoubleTail(l, allowBreaks, bom, start, v, p, spaces, rest);
            && (IsBlankZ(s) <==> IsSpace(v) && !bom)
            && (IsSpace(v) || NeedsEscape(l, bom, v) || At(s, 0) == v[0])
            && (NeedsEscape(l, bom, v) ==> At(s, 0) == 0x5C)
  {
    hide DoubleBody, IsChar, EscapeText, Decode;
    DoubleTailStep(l, allowBreaks, bom, start, v, p, spaces, rest);
    var c := Head(v);
    RawFront(c, v[|c|..]);
  }

  /** One dash or dot of an indicator is written as it is. */
  lemma IndicatorByte(l: Layout, allowBreaks: bool, start: bool, v: seq<Byte>, p: Pen, spaces: bool, rest: seq<Byte>,
        d: Byte)
    requires (d == 0x2D || d == 0x2E) && ValidUtf8(v) && Tame(l, p, spaces)
    ensures var s := DoubleTail(l, allowBreaks, false, start, v, p, spaces, rest);
            && (At(s, 0) == d <==> At(v, 0) == d)
            && (At(v, 0) == d ==>
                  ValidUtf8(v[1..]) && s == [d] + DoubleTail(l, allowBreaks, false, false, v[1..], Moved(p, 1), false,
                      rest))
  {
    hide DoubleBody, IsChar, EscapeText, Decode;
    if v == [] {
      DoubleTailEnd(l, allowBreaks, false, start, p, spaces, rest);
    } else {
      DoubleFront(l, allowBreaks, false, start, v, p, spaces, rest);
      DoubleTailStep(l, allowBreaks, false, start, v, p, spaces, rest);
      if At(v, 0) == d {
        assert Head(v) == [d];
      }
    }
  }

  /** The scanner sees an indicator exactly when the value has one there. */
  lemma IndicatorText(l: Layout, allowBreaks: bool, v: seq<Byte>, p: Pen, spaces: bool, rest: seq<Byte>)
    requires ValidUtf8(v) && Tame(l, p, spaces)
    ensures StartsIndicator(DoubleTail(l, allowBreaks, false, false, v, p, spaces, rest)) <==> ValueIndicator(v)
  {
    hide DoubleTail, ValidUtf8;
    var s := DoubleTail(l, allowBreaks, false, false, v, p, spaces, rest);
    forall d | d == 0x2D || d == 0x2E
      ensures ThreeThenBlank(s, d) <==> ThreeThenSpace(v, d)
    {
      IndicatorRun(l, allowBreaks, v, p, spaces, rest, d);
    }
    assert ThreeThenBlank(s, 0x2D) || ThreeThenBlank(s, 0x2E) <==> StartsIndicator(s);
  }

  predicate ThreeThenBlank(s: seq<Byte>, d: Byte) {
    At(s, 0) == d && At(s, 1) == d && At(s, 2) == d && IsBlankZ(Drop(s, 3))
  }

  predicate ThreeThenSpace(v: seq<Byte>, d: Byte) {
    At(v, 0) == d && At(v, 1) == d && At(v, 2) == d && At(v, 3) == 0x20
  }

  lemma IndicatorRun(l: Layout, allowBreaks: bool, v: seq<Byte>, p: Pen, spaces: bool, rest: seq<Byte>, d: Byte)
    requires ValidUtf8(v) && Tame(l, p, spaces) && (d == 0x2D || d == 0x2E)
    ensures ThreeThenBlank(DoubleTail(l, allowBreaks, false, false, v, p, spaces, rest), d) <==> ThreeThenSpace(v, d)
  {
    hide DoubleTail, ValidUtf8, IsBlankZ;
    var s := DoubleTail(l, allowBreaks, false, false, v, p, spaces, rest);
    IndicatorByte(l, allowBreaks, false, v, p, spaces, rest, d);
    if At(v, 0) == d {
      IndicatorByte(l, allowBreaks, false, v[1..], Moved(p, 1), false, rest, d);
      var s1 := DoubleTail(l, allowBreaks, false, false, v[1..], Moved(p, 1), false, rest);
      if At(v, 1) == d {
        IndicatorByte(l, allowBreaks, false, v[1..][1..], Moved(Moved(p, 1), 1), false, rest, d);
        var s2 := DoubleTail(l, allowBreaks, false, false, v[1..][1..], Moved(Moved(p, 1), 1), false, rest);
        if At(v, 2) == d {
          var v3, p3 := v[1..][1..][1..], Moved(Moved(Moved(p, 1), 1), 1);
          var s3 := DoubleTail(l, allowBreaks, false, false, v3, p3, false, rest);
          assert Drop(s, 3) == s3;
          TailBlank(l, allowBreaks, v3, p3, rest);
        }
      }
    }
  }

  lemma TailBlank(l: Layout, allowBreaks: bool, v: seq<Byte>, p: Pen, rest: seq<Byte>)
    requires ValidUtf8(v) && Tame(l, p, false)
    ensures IsBlankZ(DoubleTail(l, allowBreaks, false, false, v, p, false, rest)) <==> At(v, 0) == 0x20
  {
    hide DoubleBody, DoubleTail;
    if v == [] {
      DoubleTailEnd(l, allowBreaks, false, false, p, false, rest);
    } else {
      DoubleFront(l, allowBreaks, false, false, v, p, false, rest);
    }
  }

  /** A fold takes the scanner into a gap that will be joined to one space. */
  lemma FoldMove(single: bool, l: Layout, p: Pen, s: seq<Byte>, column: nat, text: seq<Byte>)
    requires IndentBreaks(l, p) && (l.indent > 0 || At(s, 0) != 0x0A)
    ensures Resume(single, InText, IndentText(l, p) + s, column, text)
         == Resume(single, InBreaks([0x0A], []), s, IndentColumn(l), text)
  {
    hide InGap, Inside, IsBlankZ, Join;
    var n := IndentColumn(l);
    var after := Spaces(n) + s;
    assert IndentText(l, p) + s == BreakText(l.style) + after;
    BreakEnds(l.style, after) by { assert n > 0 ==> After0(after) == 0x20; assert n == 0 ==> after == s; }
    InsideGap(single, Cursor(BreakText(l.style) + after, column), text);
    GapFirstBreak(single, text, l.style, after, column, []);
    GapIndent(single, text, n, s, 0, [0x0A], []);
  }

  ghost function After0(s: seq<Byte>): Byte { At(s, 0) }

  lemma GapStuck(single: bool, text: seq<Byte>, first: seq<Byte>, more: seq<Byte>, s: seq<Byte>)
    requires !IsBlankZ(s) && StartsIndicator(s)
    ensures Resume(single, InBreaks(first, more), s, 0, text) == Error(DocumentIndicator)
  {
  }

  lemma SpaceMove(single: bool, w: Where, s: seq<Byte>, column: nat, text: seq<Byte>) returns (w': Where, column': nat,
        text': seq<Byte>)
    requires !w.InBreaks? && (w.InEscape? ==> !single)
    ensures Resume(single, w, [0x20] + s, column, text) == Resume(single, w', s, column', text')
    ensures Gathered(w', text') == Gathered(w, text) + [0x20]
    ensures w.InEscape? ==> w'.InText?
    ensures !w.InEscape? ==> w'.InBlanks? && column' > 0
  {
    hide InGap, Inside, Join;
    match w
    case InText =>
      InsideGap(single, Cursor([0x20] + s, column), text);
      GapSpace(single, text, s, column, []);
      w', column', text' := InBlanks([] + [0x20]), column + 1, text;
    case InBlanks(spaces) =>
      GapSpace(single, text, s, column, spaces);
      w', column', text' := InBlanks(spaces + [0x20]), column + 1, text;
      assert text + spaces + [0x20] == text + (spaces + [0x20]);
    case InEscape =>
      assert [0x5C] + ([0x20] + s) == [0x5C, 0x20] + s;
      InsideEscape([0x5C, 0x20], [0x20], s, column, text);
      w', column', text' := InText, column + 2, text + [0x20];
  }

  ghost predicate Outcome(r: Scan, hits: bool, v: seq<Byte>, rest: seq<Byte>) {
    if hits then r == Error(DocumentIndicator) else Yields(r, v, rest)
  }

  lemma EscapeMove(w: Where, c: seq<Byte>, s: seq<Byte>, column: nat, text: seq<Byte>)
    requires IsChar(c) && !w.InEscape? && (w.InText? || column > 0)
    ensures Decode(c) >= 0 && Resume(false, w, EscapeText(Decode(c)) + s, column, text)
            == Resume(false, InText, s, column + |EscapeText(Decode(c))|, Gathered(w, text) + c)
  {
    hide InGap, Inside, Join, Decode, EscapeText, Gathered;
    EncodeInverse(c);
    var e := EscapeText(Decode(c));
    assert At(e + s, 0) == 0x5C;
    Settle(false, w, e + s, column, text);
    EscapeInverse(Decode(c), s);
    InsideEscape(e, c, s, column, Gathered(w, text));
  }

  lemma CharMove(single: bool, w: Where, c: seq<Byte>, s: seq<Byte>, column: nat, text: seq<Byte>)
    requires IsChar(c) && !w.InEscape? && (w.InText? || column > 0 || !StartsIndicator(c + s))
    requires !IsBlankZ(c) && c[0] != Quote(single) && (single || c[0] != 0x5C)
    ensures Resume(single, w, c + s, column, text) == Resume(single, InText, s, column + 1, Gathered(w, text) + c)
  {
    hide InGap, Inside, Join, Gathered;
    RawFront(c, s);
    Settle(single, w, c + s, column, text);
    InsideChar(single, c, s, column, Gathered(w, text));
  }

  /** A turn that does not fold passes the question on. */
  lemma FoldsLater(l: Layout, allowBreaks: bool, bom: bool, start: bool, v: seq<Byte>, p: Pen, spaces: bool)
    requires v != [] && ValidUtf8(v)
    requires NeedsEscape(l, bom, v) || !IsSpace(v) || !DoubleFolds(l, allowBreaks, start, v, p, spaces)
    ensures var t := DoubleTurn(l, allowBreaks, bom, start, v, p, spaces);
            && ValidUtf8(v[|Head(v)|..])
            && FoldsOnIndicator(l, allowBreaks, bom, start, v, p, spaces)
               == FoldsOnIndicator(l, allowBreaks, bom, false, v[|Head(v)|..], t.pen, t.spaces)
  {
    hide DoubleTurn, NeedsEscape, IsChar;
  }

  lemma FoldsNow(l: Layout, allowBreaks: bool, start: bool, v: seq<Byte>, p: Pen, spaces: bool)
    requires v != [] && ValidUtf8(v) && IsSpace(v) && DoubleFolds(l, allowBreaks, start, v, p, spaces)
    ensures !NeedsEscape(l, false, v) && ValidUtf8(v[1..])
    ensures var pen := Moved(IndentPen(l), |Guard(v[1..])|);
            FoldsOnIndicator(l, allowBreaks, false, start, v, p, spaces)
            == ((l.indent <= 0 && ValueIndicator(v[1..])) || FoldsOnIndicator(l, allowBreaks, false, false, v[1..],
                pen, true))
  {
    hide IndentText, ValueIndicator;
  }

  lemma TurnTame(l: Layout, allowBreaks: bool, bom: bool, start: bool, v: seq<Byte>, p: Pen, spaces: bool)
    requires v != [] && ValidUtf8(v) && Tame(l, p, spaces)
    ensures var t := DoubleTurn(l, allowBreaks, bom, start, v, p, spaces); Tame(l, t.pen, t.spaces)
  {
    hide NeedsEscape, IsChar, Decode, IndentText;
  }

  /** The double-quoted writer and the scanner, in step along the value. */
  lemma {:induction false} DoubleMain(l: Layout, allowBreaks: bool, bom: bool, start: bool, v: seq<Byte>, p: Pen,
        spaces: bool,
                                      w: Where, column: nat, text: seq<Byte>, rest: seq<Byte>)
    requires ValidUtf8(v) && Tame(l, p, spaces)
    requires !w.InBreaks?
    requires w.InBlanks? ==> spaces && column > 0
    requires w.InEscape? ==> spaces && !bom && IsSpace(v)
    ensures Outcome(Resume(false, w, DoubleTail(l, allowBreaks, bom, start, v, p, spaces, rest), column, text),
                    FoldsOnIndicator(l, allowBreaks, bom, start, v, p, spaces), Gathered(w, text) + v, rest)
    decreases |v|, 1
  {
    hide Resume, Gathered, IsChar, IsPrintable, DoubleTail, EscapeText, Decode, IndentText, FoldsOnIndicator;
    hide Outcome, Tame;
    if v == [] {
      DoubleEnd(l, allowBreaks, bom, start, p, spaces, w, column, text, rest);
    } else {
      var c, t := Head(v), DoubleTurn(l, allowBreaks, bom, start, v, p, spaces);
      var v', g := v[|c|..], Gathered(w, text);
      if !NeedsEscape(l, bom, v) && IsSpace(v) && DoubleFolds(l, allowBreaks, start, v, p, spaces) {
        DoubleFoldCase(l, allowBreaks, start, v, p, spaces, column, text, rest);
        assert Gathered(InText, text) == text by { GatheredText(text); }
      } else {
        DoubleTailStep(l, allowBreaks, bom, start, v, p, spaces, rest);
        FoldsLater(l, allowBreaks, bom, start, v, p, spaces);
        TurnTame(l, allowBreaks, bom, start, v, p, spaces);
        var tail := DoubleTail(l, allowBreaks, bom, false, v', t.pen, t.spaces, rest);
        var w', column', text';
        if NeedsEscape(l, bom, v) {
          if w.InEscape? { SpaceIsRaw(l, v); }
          EscapeMove(w, c, tail, column, text);
          w', column', text' := InText, column + |t.text|, g + c;
        } else if IsSpace(v) {
          assert c == [0x20];
          w', column', text' := SpaceMove(false, w, tail, column, text);
        } else {
          RawIsPlain(l, bom, v);
          CharMove(false, w, c, tail, column, text);
          w', column', text' := InText, column + 1, g + c;
        }
        GatheredText(g + c);
        DoubleMain(l, allowBreaks, bom, false, v', t.pen, t.spaces, w', column', text', rest);
        assert g + c + v' == g + v;
      }
    }
  }

  lemma GatheredText(text: seq<Byte>)
    ensures Gathered(InText, text) == text
  {
  }

  lemma DoubleEnd(l: Layout, allowBreaks: bool, bom: bool, start: bool, p: Pen, spaces: bool, w: Where, column: nat,
        text: seq<Byte>, rest: seq<Byte>)
    requires !w.InEscape? && (w.InText? || column > 0)
    ensures Outcome(Resume(false, w, DoubleTail(l, allowBreaks, bom, start, [], p, spaces, rest), column, text),
                    FoldsOnIndicator(l, allowBreaks, bom, start, [], p, spaces), Gathered(w, text) + [], rest)
  {
    hide Inside, InGap, Join, Gathered;
    DoubleTailEnd(l, allowBreaks, bom, start, p, spaces, rest);
    Settle(false, w, [0x22] + rest, column, text);
    InsideQuote(false, rest, column, Gathered(w, text));
    assert Gathered(w, text) + [] == Gathered(w, text);
  }

  lemma NotIndicator(s: seq<Byte>)
    requires At(s, 0) == 0x5C || At(s, 0) == 0x20
    ensures !StartsIndicator(s) && !ValueIndicator(s) && (At(s, 0) == 0x5C ==> !IsBlankZ(s))
  {
  }

  lemma SpaceIsRaw(l: Layout, v: seq<Byte>)
    requires IsSpace(v)
    ensures !NeedsEscape(l, false, v)
  {
  }

  lemma RawIsPlain(l: Layout, bom: bool, v: seq<Byte>)
    requires v != [] && ValidUtf8(v) && !NeedsEscape(l, bom, v) && !IsSpace(v)
    ensures var c := Head(v); !IsBlankZ(c) && c[0] != 0x22 && c[0] != 0x5C
  {
    RawFront(Head(v), v[|Head(v)|..]);
  }

  lemma {:induction false} DoubleFoldCase(l: Layout, allowBreaks: bool, start: bool, v: seq<Byte>, p: Pen,
        spaces: bool, column: nat, text: seq<Byte>, rest: seq<Byte>)
    requires ValidUtf8(v) && Tame(l, p, spaces) && IsSpace(v)
    requires DoubleFolds(l, allowBreaks, start, v, p, spaces)
    ensures Outcome(Resume(false, InText, DoubleTail(l, allowBreaks, false, start, v, p, spaces, rest), column, text),
                    FoldsOnIndicator(l, allowBreaks, false, start, v, p, spaces), text + v, rest)
    decreases |v|, 0
  {
    hide InGap, Inside, IsChar, DoubleTail, EscapeText, Decode, IndentText, StartsIndicator, ValueIndicator;
    hide FoldsOnIndicator, NeedsEscape, ValidUtf8;
    FoldsNow(l, allowBreaks, start, v, p, spaces);
    DoubleTailStep(l, allowBreaks, false, start, v, p, spaces, rest);
    assert Head(v) == [0x20];
    var v', n, pen := v[1..], IndentColumn(l), Moved(IndentPen(l), |Guard(v[1..])|);
    var tail := DoubleTail(l, allowBreaks, false, false, v', pen, true, rest);
    var s := Guard(v') + tail;
    assert IndentText(l, p) + Guard(v') + tail == IndentText(l, p) + s;
    DoubleFront(l, allowBreaks, false, false, v', pen, true, rest);
    FoldMove(false, l, p, s, column, text);
    if IsSpace(v') {
      NotIndicator(s);
      NotIndicator(v');
      Settle(false, InBreaks([0x0A], []), s, n, text);
      DoubleMain(l, allowBreaks, false, false, v', pen, true, InEscape, n, text + [0x20], rest);
    } else {
      assert s == tail;
      IndicatorText(l, allowBreaks, v', pen, true, rest);
      if n == 0 && ValueIndicator(v') {
        GapStuck(false, text, [0x0A], [], tail);
      } else {
        Settle(false, InBreaks([0x0A], []), tail, n, text);
        DoubleMain(l, allowBreaks, false, false, v', pen, true, InText, n, text + [0x20], rest);
      }
    }
    assert text + [0x20] + v' == text + v;
  }

  /** Scanning what the double-quoted writer wrote gives the value back, except when a fold lands on an indicator. */
  lemma DoubleRoundTrip(l: Layout, allowBreaks: bool, v: seq<Byte>, p: Pen, column: nat, rest: seq<Byte>)
    requires ValidUtf8(v)
    ensures var r := ScanQuoted(false, Cursor(DoubleQuoted(l, allowBreaks, v, p) + rest, column));
            var hits := FoldsOnIndicator(l, allowBreaks, StartsWithBom(v), true, v, Opened(p), false);
            && (Yields(r, v, rest) <==> !hits)
            && (hits ==> r == Error(DocumentIndicator))
  {
    hide DoubleBody, FoldsOnIndicator, Inside, NonBlank, Content;
    var bom := StartsWithBom(v);
    var s := DoubleTail(l, allowBreaks, bom, true, v, Opened(p), false, rest);
    assert Drop(DoubleQuoted(l, allowBreaks, v, p) + rest, 1) == s;
    assert !IsZ(s) by {
      if v == [] {
        DoubleTailEnd(l, allowBreaks, bom, true, Opened(p), false, rest);
      } else {
        DoubleFront(l, allowBreaks, bom, true, v, Opened(p), false, rest);
        DoubleTailStep(l, allowBreaks, bom, true, v, Opened(p), false, rest);
      }
    }
    TopInside(false, Cursor(s, column + 1), []);
    DoubleMain(l, allowBreaks, bom, true, v, Opened(p), false, InText, column + 1, [], rest);
    assert [] + v == v;
  }

  /** With any indentation at all, no fold can land on an indicator. */
  lemma {:induction false} IndentedFoldsAreSafe(l: Layout, allowBreaks: bool, bom: bool, start: bool, v: seq<Byte>,
        p: Pen, spaces: bool)
    requires l.indent >= 1 && ValidUtf8(v)
    ensures !FoldsOnIndicator(l, allowBreaks, bom, start, v, p, spaces)
    decreases |v|
  {
    if v != [] {
      var t := DoubleTurn(l, allowBreaks, bom, start, v, p, spaces);
      IndentedFoldsAreSafe(l, allowBreaks, bom, false, v[|Head(v)|..], t.pen, t.spaces);
    }
  }

  lemma IndentedDoubleRoundTrip(l: Layout, allowBreaks: bool, v: seq<Byte>, p: Pen, column: nat, rest: seq<Byte>)
    requires l.indent >= 1 && ValidUtf8(v)
    ensures Yields(ScanQuoted(false, Cursor(DoubleQuoted(l, allowBreaks, v, p) + rest, column)), v, rest)
  {
    DoubleRoundTrip(l, allowBreaks, v, p, column, rest);
    IndentedFoldsAreSafe(l, allowBreaks, StartsWithBom(v), true, v, Opened(p), false);
  }

  const DashesInside: seq<Byte> := [0x61, 0x20, 0x2D, 0x2D, 0x2D, 0x20, 0x62]

  lemma DashesFold(l: Layout)
    requires l == Layout(0, 1, true, LN)
    ensures ValidUtf8(DashesInside) && !StartsWithBom(DashesInside)
    ensures FoldsOnIndicator(l, true, false, true, DashesInside, Pen(1, false, false), false)
  {
    hide FoldsOnIndicator, ValidUtf8;
    var v, p := DashesInside, Pen(1, false, false);
    AsciiIsValid(v);
    AsciiIsValid(v[1..]);
    DashesFirst(l, p);
    FoldsNow(l, true, false, v[1..], Moved(p, 1), false);
  }

  /** Its first letter does not fold. */
  lemma DashesFirst(l: Layout, p: Pen)
    requires l == Layout(0, 1, true, LN) && p == Pen(1, false, false) && ValidUtf8(DashesInside)
    requires ValidUtf8(DashesInside[1..])
    ensures FoldsOnIndicator(l, true, false, true, DashesInside, p, false)
         == FoldsOnIndicator(l, true, false, false, DashesInside[1..], Moved(p, 1), false)
  {
    hide FoldsOnIndicator;
    FoldsLater(l, true, false, true, DashesInside, p, false);
    assert Head(DashesInside) == [0x61];
  }

  /** `a --- b`, written with no indentation and a narrow width, cannot be scanned. */
  lemma UnindentedDoubleFails(l: Layout, rest: seq<Byte>)
    requires l == Layout(0, 1, true, LN)
    ensures ValidUtf8(DashesInside)
    ensures ScanQuoted(false, Cursor(DoubleQuoted(l, true, DashesInside, Pen(0, true, true)) + rest, 0))
      == Error(DocumentIndicator)
  {
    hide FoldsOnIndicator, DoubleQuoted, ScanQuoted, ValidUtf8;
    DashesFold(l);
    DoubleRoundTrip(l, true, DashesInside, Pen(0, true, true), 0, rest);
  }

  lemma {:induction false} AsciiIsValid(v: seq<Byte>)
    requires forall i :: 0 <= i < |v| ==> v[i] < 0x80
    ensures ValidUtf8(v)
  {
    if v != [] {
      AsciiIsValid(v[1..]);
      assert v[..1] == [v[0]];
    }
  }
}
