/**
 The single-quoted style: whenever scalar analysis allows it, scanning the text that the
 single-quoted writer puts down gives the value back, unless it writes with no indentation and
 slips on a line that it begins.
 */
module SingleRoundTrip {
  import opened YamlChars
  import opened QuotedScanner
  import opened QuotedWriter
  import opened QuotedRoundTrip

  ghost function SingleTail(l: Layout, allowBreaks: bool, start: bool, v: seq<Byte>, p: Pen, spaces: bool,
        breaks: bool, rest: seq<Byte>): seq<Byte>
    requires ValidUtf8(v)
  {
    SingleBody(l, allowBreaks, start, v, p, spaces, breaks) + ([0x27] + rest)
  }

  lemma SingleTailStep(l: Layout, allowBreaks: bool, start: bool, v: seq<Byte>, p: Pen, spaces: bool, breaks: bool,
        rest: seq<Byte>)
    requires v != [] && ValidUtf8(v)
    ensures ValidUtf8(v[|Head(v)|..])
    ensures var t := SingleTurn(l, allowBreaks, start, v, p, spaces, breaks);
            SingleTail(l, allowBreaks, start, v, p, spaces, breaks, rest)
            == t.text + SingleTail(l, allowBreaks, false, v[|Head(v)|..], t.pen, t.spaces, t.breaks, rest)
  {
    hide SingleTurn, IsChar;
  }

  lemma SingleTailEnd(l: Layout, allowBreaks: bool, start: bool, p: Pen, spaces: bool, breaks: bool, rest: seq<Byte>)
    ensures SingleTail(l, allowBreaks, start, [], p, spaces, breaks, rest) == [0x27] + rest
  {
  }

  // ---------------------------------------------------------------- what goes wrong without indentation

  /** A document indicator inside the value, with a space or a line break behind it. */
  predicate LineIndicator(v: seq<Byte>) {
    ThreeThenGap(v, 0x2D) || ThreeThenGap(v, 0x2E)
  }

  predicate ThreeThenGap(v: seq<Byte>, d: Byte) {
    At(v, 0) == d && At(v, 1) == d && At(v, 2) == d && (IsSpace(Drop(v, 3)) || IsBreak(Drop(v, 3)))
  }

  /**
   With nothing to indent, a line begins with a document indicator, or the first line begun after
   line breaks gets one break too many.
   */
  predicate SlipsNow(l: Layout, allowBreaks: bool, start: bool, v: seq<Byte>, p: Pen, spaces: bool, breaks: bool)
    requires v != []
  {
    l.indent <= 0 &&
    if IsSpace(v) then SingleFolds(l, allowBreaks, start, v, p, spaces) && LineIndicator(v[1..])
    else !IsBreak(v) && breaks && (!p.whitespace || LineIndicator(v))
  }

  predicate Slips(l: Layout, allowBreaks: bool, start: bool, v: seq<Byte>, p: Pen, spaces: bool, breaks: bool)
    requires ValidUtf8(v)
    decreases |v|
  {
    v != [] &&
    (SlipsNow(l, allowBreaks, start, v, p, spaces, breaks) ||
     var t := SingleTurn(l, allowBreaks, start, v, p, spaces, breaks);
     Slips(l, allowBreaks, false, v[|Head(v)|..], t.pen, t.spaces, t.breaks))
  }

  lemma SlipsStep(l: Layout, allowBreaks: bool, start: bool, v: seq<Byte>, p: Pen, spaces: bool, breaks: bool)
    requires v != [] && ValidUtf8(v)
    ensures ValidUtf8(v[|Head(v)|..])
    ensures var t := SingleTurn(l, allowBreaks, start, v, p, spaces, breaks);
      Slips(l, allowBreaks, start, v, p, spaces, breaks) <==>
        || SlipsNow(l, allowBreaks, start, v, p, spaces, breaks)
        || Slips(l, allowBreaks, false, v[|Head(v)|..], t.pen, t.spaces, t.breaks)
  {
    hide SingleTurn, SlipsNow, IsChar;
  }

  /** Only an ordinary character follows the indentation of a line. */
  predicate MidLine(v: seq<Byte>, p: Pen) {
    p.indention ==> v != [] && !IsSpace(v) && !IsBreak(v)
  }

  /** An ordinary byte in the middle of a line is written as it is. */
  lemma LineByte(l: Layout, allowBreaks: bool, start: bool, v: seq<Byte>, p: Pen, spaces: bool, rest: seq<Byte>,
        d: Byte)
    requires (d == 0x2D || d == 0x2E) && ValidUtf8(v) && SingleAllowed(l.unicode, v) && MidLine(v, p)
    ensures var s := SingleTail(l, allowBreaks, start, v, p, spaces, false, rest);
      && (At(s, 0) == d <==> At(v, 0) == d)
      && (At(v, 0) == d ==> ValidUtf8(v[1..]) && SingleAllowed(l.unicode, v[1..]))
      && (At(v, 0) == d ==>
            var q := Pen(p.column + 1, p.whitespace, false);
            s == [d] + SingleTail(l, allowBreaks, false, v[1..], q, false, false, rest))
  {
    hide SingleBody, IsChar, IsPrintable;
    if v == [] {
      SingleTailEnd(l, allowBreaks, start, p, spaces, false, rest);
    } else {
      SingleTailStep(l, allowBreaks, start, v, p, spaces, false, rest);
      if At(v, 0) == d {
        assert Head(v) == [d];
        assert [] + Doubled([d]) == [d];
      } else {
        LineFront(l, allowBreaks, start, v, p, spaces, rest);
      }
    }
  }

  /** What the text in the middle of a line starts with. */
  lemma LineFront(l: Layout, allowBreaks: bool, start: bool, v: seq<Byte>, p: Pen, spaces: bool, rest: seq<Byte>)
    requires v != [] && ValidUtf8(v) && SingleAllowed(l.unicode, v) && MidLine(v, p)
    ensures var s := SingleTail(l, allowBreaks, start, v, p, spaces, false, rest);
      && (IsBlankZ(s) <==> IsSpace(v) || IsBreak(v))
      && (IsSpace(v) || IsBreak(v) || At(s, 0) == v[0])
      && (IsSpace(v) || IsBreak(v) ==> At(s, 0) != 0x2D && At(s, 0) != 0x2E)
  {
    hide SingleTail, SingleAllowed, IsChar, IsBlankZ, IsBreak, BreakText;
    SingleTailStep(l, allowBreaks, start, v, p, spaces, false, rest);
    var c, t := Head(v), SingleTurn(l, allowBreaks, start, v, p, spaces, false);
    var more := SingleTail(l, allowBreaks, false, v[|c|..], t.pen, t.spaces, t.breaks, rest);
    if IsSpace(v) {
      assert c == [0x20];
      BlankFront(l.style, Spaces(IndentColumn(l)), more);
    } else if IsBreak(v) {
      AllowedBreak(l.unicode, v);
      BlankFront(l.style, BreakText(l.style), more);
      if c != [0x0A] {
        SeparatorEnds(c, more);
        SeparatorIsBlank(c, more);
      }
    } else {
      Ordinary(l.unicode, v);
      assert t.text == Doubled(c);
      PlainFront(c, more);
    }
  }

  lemma BlankFront(style: BreakStyle, between: seq<Byte>, more: seq<Byte>)
    ensures var s := BreakText(style) + between + more; IsBlankZ(s) && At(s, 0) != 0x2D && At(s, 0) != 0x2E
    ensures var s := [0x20] + more; IsBlankZ(s) && At(s, 0) == 0x20
  {
    assert At(BreakText(style) + between + more, 0) == BreakText(style)[0];
  }

  lemma SeparatorIsBlank(c: seq<Byte>, more: seq<Byte>)
    requires IsSeparator(c)
    ensures IsBlankZ(c + more) && At(c + more, 0) == 0xE2
  {
    SeparatorEnds(c, more);
  }

  lemma PlainFront(c: seq<Byte>, more: seq<Byte>)
    requires IsChar(c) && !IsBlankZ(c)
    ensures !IsBlankZ(Doubled(c) + more) && At(Doubled(c) + more, 0) == c[0]
  {
    if c[0] != 0x27 {
      RawFront(c, more);
    }
  }

  lemma LineRun(l: Layout, allowBreaks: bool, v: seq<Byte>, p: Pen, spaces: bool, rest: seq<Byte>, d: Byte)
    requires ValidUtf8(v) && SingleAllowed(l.unicode, v) && MidLine(v, p) && (d == 0x2D || d == 0x2E)
    ensures ThreeThenBlank(SingleTail(l, allowBreaks, false, v, p, spaces, false, rest), d) <==> ThreeThenGap(v, d)
  {
    hide SingleTail, ValidUtf8, SingleAllowed, IsBlankZ, IsBreak, IsSpace;
    LineByte(l, allowBreaks, false, v, p, spaces, rest, d);
    if At(v, 0) == d {
      var p1, p2 := Pen(p.column + 1, p.whitespace, false), Pen(p.column + 2, p.whitespace, false);
      var p3 := Pen(p.column + 3, p.whitespace, false);
      LineByte(l, allowBreaks, false, v[1..], p1, false, rest, d);
      if At(v, 1) == d {
        LineByte(l, allowBreaks, false, v[1..][1..], p2, false, rest, d);
        if At(v, 2) == d {
          var v3 := v[1..][1..][1..];
          assert Drop(v, 3) == v3;
          assert Drop(SingleTail(l, allowBreaks, false, v, p, spaces, false, rest), 3)
              == SingleTail(l, allowBreaks, false, v3, p3, false, false, rest);
          LineGap(l, allowBreaks, v3, p3, rest);
        }
      }
    }
  }

  lemma LineGap(l: Layout, allowBreaks: bool, v: seq<Byte>, p: Pen, rest: seq<Byte>)
    requires ValidUtf8(v) && SingleAllowed(l.unicode, v) && !p.indention
    ensures IsBlankZ(SingleTail(l, allowBreaks, false, v, p, false, false, rest)) <==> IsSpace(v) || IsBreak(v)
  {
    hide SingleTail, SingleAllowed;
    if v == [] {
      SingleTailEnd(l, allowBreaks, false, p, false, false, rest);
    } else {
      LineFront(l, allowBreaks, false, v, p, false, rest);
    }
  }

  /** At the beginning of a line the scanner sees an indicator exactly when the value has one there. */
  lemma LineText(l: Layout, allowBreaks: bool, v: seq<Byte>, p: Pen, spaces: bool, rest: seq<Byte>)
    requires ValidUtf8(v) && SingleAllowed(l.unicode, v) && MidLine(v, p)
    ensures StartsIndicator(SingleTail(l, allowBreaks, false, v, p, spaces, false, rest)) <==> LineIndicator(v)
  {
    hide SingleTail, ValidUtf8, ThreeThenGap;
    var s := SingleTail(l, allowBreaks, false, v, p, spaces, false, rest);
    LineRun(l, allowBreaks, v, p, spaces, rest, 0x2D);
    LineRun(l, allowBreaks, v, p, spaces, rest, 0x2E);
    assert ThreeThenBlank(s, 0x2D) || ThreeThenBlank(s, 0x2E) <==> StartsIndicator(s);
  }

  /** Where writer and scanner are relative to each other between two turns. */
  ghost predicate InStep(v: seq<Byte>, p: Pen, spaces: bool, breaks: bool, w: Where, column: nat) {
    && (breaks <==> w.InBreaks?)
    && (w.InBreaks? ==> p.column == 0 && p.indention && column == 0 && !IsSpace(v) && w.first != []
                        && (w.first[0] == 0x0A ==> w.more != []))
    && (w.InBlanks? ==> spaces && column > 0 && !IsBreak(v))
    && (p.indention && !breaks ==> v != [] && !IsSpace(v) && !IsBreak(v))
    && !w.InEscape?
  }

  /** An ordinary character of an allowed value. */
  lemma Ordinary(unicode: bool, v: seq<Byte>)
    requires v != [] && ValidUtf8(v) && SingleAllowed(unicode, v) && !IsSpace(v) && !IsBreak(v)
    ensures !IsBlankZ(Head(v))
  {
    RawFront(Head(v), v[|Head(v)|..]);
  }

  /** A line break of an allowed value: LF, LS or PS. */
  lemma AllowedBreak(unicode: bool, v: seq<Byte>)
    requires v != [] && ValidUtf8(v) && SingleAllowed(unicode, v) && IsBreak(v)
    ensures Head(v) == [0x0A] || Head(v) == [0xE2, 0x80, 0xA8] || Head(v) == [0xE2, 0x80, 0xA9]
  {
  }

  /** In the middle of line breaks, LF only comes from the writer's own line break text. */
  lemma AfterBreakFront(l: Layout, allowBreaks: bool, v: seq<Byte>, p: Pen, spaces: bool, rest: seq<Byte>)
    requires ValidUtf8(v) && SingleAllowed(l.unicode, v) && !IsSpace(v) && p.column == 0 && p.indention
    ensures l.style == CR ==> At(SingleTail(l, allowBreaks, false, v, p, spaces, true, rest), 0) != 0x0A
  {
    hide SingleBody, IsChar, IsPrintable;
    if v == [] {
      SingleTailEnd(l, allowBreaks, false, p, spaces, true, rest);
    } else {
      SingleTailStep(l, allowBreaks, false, v, p, spaces, true, rest);
      if IsBreak(v) {
        AllowedBreak(l.unicode, v);
      }
    }
  }

  predicate IsSeparator(c: seq<Byte>) { c == [0xE2, 0x80, 0xA8] || c == [0xE2, 0x80, 0xA9] }

  lemma SeparatorEnds(c: seq<Byte>, s: seq<Byte>)
    requires IsSeparator(c)
    ensures var t := c + s; IsBreak(t) && !IsBlank(t) && LineBreak(t) == (c, 3) && Drop(t, 3) == s
  {
    var t := c + s;
    assert At(t, 0) == c[0] && At(t, 1) == c[1] && At(t, 2) == c[2];
  }

  lemma GapSeparator(text: seq<Byte>, c: seq<Byte>, s: seq<Byte>, column: nat, first: seq<Byte>, more: seq<Byte>)
    requires IsSeparator(c)
    ensures InGap(true, text, Gap(Cursor(c + s, column), false, [], [], []))
         == InGap(true, text, Gap(Cursor(s, 0), true, [], c, []))
    ensures InGap(true, text, Gap(Cursor(c + s, column), true, [], first, more))
         == InGap(true, text, Gap(Cursor(s, 0), true, [], first, more + c))
  {
    hide Content, LineBreak, IsBreak, IsBlank, IsSeparator, Join;
    SeparatorEnds(c, s);
    assert [] + c == c;
  }

  lemma SeparatorMove(w: Where, c: seq<Byte>, s: seq<Byte>, column: nat, text: seq<Byte>) returns (w': Where)
    requires IsSeparator(c)
    requires w.InText? || (w.InBreaks? && w.first != [] && (w.first[0] == 0x0A ==> w.more != []))
    ensures Resume(true, w, c + s, column, text) == Resume(true, w', s, 0, text)
    ensures w'.InBreaks? && w'.first != [] && (w'.first[0] == 0x0A ==> w'.more != [])
    ensures Gathered(w', text) == Gathered(w, text) + c
  {
    hide InGap, Inside, IsBreak, IsBlank;
    match w
    case InText =>
      SeparatorEnds(c, s);
      InsideGap(true, Cursor(c + s, column), text);
      GapSeparator(text, c, s, column, [], []);
      w' := InBreaks(c, []);
      assert text + c + [] == text + c;
    case InBreaks(first, more) =>
      GapSeparator(text, c, s, column, first, more);
      w' := InBreaks(first, more + c);
      assert text + first + more + c == text + first + (more + c);
      assert text + more + c == text + (more + c);
  }

  lemma NewlineMove(w: Where, style: BreakStyle, s: seq<Byte>, column: nat, text: seq<Byte>) returns (w': Where)
    requires style == CR ==> At(s, 0) != 0x0A
    requires w.InText? || (w.InBreaks? && w.first != [] && (w.first[0] == 0x0A ==> w.more != []))
    ensures Resume(true, w, (if w.InText? then BreakText(style) else []) + BreakText(style) + s, column, text)
         == Resume(true, w', s, 0, text)
    ensures w'.InBreaks? && w'.first != [] && (w'.first[0] == 0x0A ==> w'.more != [])
    ensures Gathered(w', text) == Gathered(w, text) + [0x0A]
  {
    hide InGap, Inside, IsBreak, IsBlank;
    var b := BreakText(style);
    match w
    case InText =>
      assert b + b + s == b + (b + s);
      BreakEnds(style, b + s);
      InsideGap(true, Cursor(b + (b + s), column), text);
      GapFirstBreak(true, text, style, b + s, column, []);
      GapNextBreak(true, text, style, s, 0, [0x0A], []);
      assert [] + [0x0A] == [0x0A];
      w' := InBreaks([0x0A], [0x0A]);
    case InBreaks(first, more) =>
      assert [] + b + s == b + s;
      GapNextBreak(true, text, style, s, column, first, more);
      w' := InBreaks(first, more + [0x0A]);
      assert text + first + more + [0x0A] == text + first + (more + [0x0A]);
      assert text + more + [0x0A] == text + (more + [0x0A]);
  }

  /** Indentation after line breaks, then one ordinary character with a quote doubled. */
  lemma OrdinaryMove(l: Layout, p: Pen, w: Where, c: seq<Byte>, s: seq<Byte>, column: nat,
        text: seq<Byte>) returns (column': nat)
    requires IsChar(c) && !IsBlankZ(c) && !w.InEscape?
    requires w.InBreaks? ==> p.column == 0 && p.indention && column == 0
    requires w.InBreaks? ==> l.indent >= 1 || (p.whitespace && !StartsIndicator(Doubled(c) + s))
    requires w.InBlanks? ==> column > 0
    ensures Resume(true, w, (if w.InBreaks? then IndentText(l, p) else []) + Doubled(c) + s, column, text)
         == Resume(true, InText, s, column', Gathered(w, text) + c)
  {
    hide InGap, Inside, Gathered, Resume, Doubled, IsChar, StartsIndicator;
    var column1 := if w.InBreaks? then IndentColumn(l) else column;
    IndentMove(l, p, w, Doubled(c), s, column, text);
    column' := DoubledMove(w, c, s, column1, text);
  }

  /** The indentation after line breaks is passed over. */
  lemma IndentMove(l: Layout, p: Pen, w: Where, front: seq<Byte>, s: seq<Byte>, column: nat, text: seq<Byte>)
    requires w.InBreaks? ==> p.column == 0 && p.indention && column == 0 && (l.indent >= 1 || p.whitespace)
    ensures Resume(true, w, (if w.InBreaks? then IndentText(l, p) else []) + front + s, column, text)
         == Resume(true, w, front + s, if w.InBreaks? then IndentColumn(l) else column, text)
  {
    hide InGap, Inside;
    var d, n := front + s, IndentColumn(l);
    if w.InBreaks? {
      assert IndentText(l, p) == Spaces(n);
      assert IndentText(l, p) + front + s == Spaces(n) + d;
      GapIndent(true, text, n, d, 0, w.first, w.more);
    } else {
      assert [] + front + s == d;
    }
  }

  lemma DoubledMove(w: Where, c: seq<Byte>, s: seq<Byte>, column: nat, text: seq<Byte>) returns (column': nat)
    requires IsChar(c) && !IsBlankZ(c) && !w.InEscape?
    requires w.InBlanks? || w.InBreaks? ==> column > 0 || !StartsIndicator(Doubled(c) + s)
    ensures Resume(true, w, Doubled(c) + s, column, text) == Resume(true, InText, s, column', Gathered(w, text) + c)
  {
    hide InGap, Inside, Gathered;
    if c[0] == 0x27 {
      var d := [0x27, 0x27] + s;
      assert c == [0x27] && Doubled(c) + s == d;
      Settle(true, w, d, column, text);
      InsideDoubledQuote(s, column, Gathered(w, text));
      column' := column + 2;
    } else {
      CharMove(true, w, c, s, column, text);
      column' := column + 1;
    }
  }

  /** The single-quoted writer and the scanner, in step along the value. */
  lemma {:induction false} SingleMain(l: Layout, allowBreaks: bool, start: bool, v: seq<Byte>, p: Pen, spaces: bool,
        breaks: bool,
                                      w: Where, column: nat, text: seq<Byte>, rest: seq<Byte>)
    requires ValidUtf8(v) && SingleAllowed(l.unicode, v) && At(rest, 0) != 0x27
    requires InStep(v, p, spaces, breaks, w, column)
    ensures var r := Resume(true, w, SingleTail(l, allowBreaks, start, v, p, spaces, breaks, rest), column, text);
      Yields(r, Gathered(w, text) + v, rest) <==> !Slips(l, allowBreaks, start, v, p, spaces, breaks)
    decreases |v|
  {
    hide Resume, Gathered, IsChar, IsPrintable, SingleTail, IndentText, Yields, SingleBreak, Doubled, IsBreak;
    hide SlipsNow, Slips, SingleTurn, SingleAllowed;
    if v == [] {
      SingleEnd(l, allowBreaks, start, p, spaces, breaks, w, column, text, rest);
    } else {
      SlipsStep(l, allowBreaks, start, v, p, spaces, breaks);
      if SlipsNow(l, allowBreaks, start, v, p, spaces, breaks) {
        SlipFails(l, allowBreaks, start, v, p, spaces, breaks, w, column, text, rest);
      } else {
        SingleTailStep(l, allowBreaks, start, v, p, spaces, breaks, rest);
        var c, t := Head(v), SingleTurn(l, allowBreaks, start, v, p, spaces, breaks);
        var v', g := v[|c|..], Gathered(w, text);
        AllowedTail(l.unicode, v);
        var w', column', text' := SingleMove(l, allowBreaks, start, v, p, spaces, breaks, w, column, text, rest);
        SingleMain(l, allowBreaks, false, v', t.pen, t.spaces, t.breaks, w', column', text', rest);
        assert g + c + v' == g + v;
      }
    }
  }

  lemma AllowedTail(unicode: bool, v: seq<Byte>)
    requires v != [] && ValidUtf8(v) && SingleAllowed(unicode, v)
    ensures SingleAllowed(unicode, v[|Head(v)|..])
  {
    hide IsChar, IsPrintable, IsBreak;
  }

  lemma SingleEnd(l: Layout, allowBreaks: bool, start: bool, p: Pen, spaces: bool, breaks: bool,
                  w: Where, column: nat, text: seq<Byte>, rest: seq<Byte>)
    requires !w.InEscape? && At(rest, 0) != 0x27
    ensures Yields(Resume(true, w, SingleTail(l, allowBreaks, start, [], p, spaces, breaks, rest), column, text),
                   Gathered(w, text) + [], rest)
    ensures !Slips(l, allowBreaks, start, [], p, spaces, breaks)
  {
    hide Inside, InGap, Gathered;
    SingleTailEnd(l, allowBreaks, start, p, spaces, breaks, rest);
    Settle(true, w, [0x27] + rest, column, text);
    InsideQuote(true, rest, column, Gathered(w, text));
    assert Gathered(w, text) + [] == Gathered(w, text);
  }

  /** One turn of the writer, and the scanner over the text that it wrote. */
  lemma SingleMove(l: Layout, allowBreaks: bool, start: bool, v: seq<Byte>, p: Pen, spaces: bool, breaks: bool,
                   w: Where, column: nat, text: seq<Byte>, rest: seq<Byte>)
    returns (w': Where, column': nat, text': seq<Byte>)
    requires v != [] && ValidUtf8(v) && SingleAllowed(l.unicode, v)
    requires InStep(v, p, spaces, breaks, w, column) && !SlipsNow(l, allowBreaks, start, v, p, spaces, breaks)
    ensures var t := SingleTurn(l, allowBreaks, start, v, p, spaces, breaks);
            && ValidUtf8(v[|Head(v)|..])
            && InStep(v[|Head(v)|..], t.pen, t.spaces, t.breaks, w', column')
            && Gathered(w', text') == Gathered(w, text) + Head(v)
            && var tail := SingleTail(l, allowBreaks, false, v[|Head(v)|..], t.pen, t.spaces, t.breaks, rest);
               Resume(true, w, t.text + tail, column, text) == Resume(true, w', tail, column', text')
  {
    hide Resume, Gathered, IsChar, IsPrintable, SingleTail, IndentText, IsBreak;
    var c, t := Head(v), SingleTurn(l, allowBreaks, start, v, p, spaces, breaks);
    var v' := v[|c|..];
    var tail := SingleTail(l, allowBreaks, false, v', t.pen, t.spaces, t.breaks, rest);
    if IsSpace(v) {
      assert c == [0x20];
      if SingleFolds(l, allowBreaks, start, v, p, spaces) {
        SingleFoldMove(l, allowBreaks, v', p, breaks, column, text, rest);
        w', column', text' := InText, IndentColumn(l), text + [0x20];
        GatheredText(text);
        GatheredText(text + [0x20]);
      } else {
        w', column', text' := SpaceMove(true, w, tail, column, text);
      }
    } else if IsBreak(v) {
      AllowedBreak(l.unicode, v);
      AfterBreakFront(l, allowBreaks, v', t.pen, t.spaces, rest);
      if c == [0x0A] {
        w' := NewlineMove(w, l.style, tail, column, text);
      } else {
        w' := SeparatorMove(w, c, tail, column, text);
      }
      column', text' := 0, text;
    } else {
      Ordinary(l.unicode, v);
      if breaks && l.indent <= 0 {
        LineBegins(l, allowBreaks, start, v, p, spaces, rest);
      }
      column' := OrdinaryMove(l, p, w, c, tail, column, text);
      w', text' := InText, Gathered(w, text) + c;
      GatheredText(text');
    }
  }

  lemma SingleFoldMove(l: Layout, allowBreaks: bool, v: seq<Byte>, p: Pen, breaks: bool, column: nat, text: seq<Byte>,
        rest: seq<Byte>)
    requires v != [] && ValidUtf8(v) && SingleAllowed(l.unicode, v) && !breaks
    requires !IsSpace(v) && !IsBreak(v) && !p.indention && (l.indent <= 0 ==> !LineIndicator(v))
    ensures var tail := SingleTail(l, allowBreaks, false, v, IndentPen(l), true, breaks, rest);
            Resume(true, InText, IndentText(l, p) + tail, column, text)
            == Resume(true, InText, tail, IndentColumn(l), text + [0x20])
  {
    hide Inside, InGap, SingleTail, IndentText, IsChar, LineIndicator, StartsIndicator;
    var tail := SingleTail(l, allowBreaks, false, v, IndentPen(l), true, breaks, rest);
    FoldToLine(l, allowBreaks, v, p, column, text, rest);
    LineText(l, allowBreaks, v, IndentPen(l), true, rest);
    Settle(true, InBreaks([0x0A], []), tail, IndentColumn(l), text);
  }

  /** A fold takes the scanner to the beginning of the next line. */
  lemma FoldToLine(l: Layout, allowBreaks: bool, v: seq<Byte>, p: Pen, column: nat, text: seq<Byte>, rest: seq<Byte>)
    requires v != [] && ValidUtf8(v) && SingleAllowed(l.unicode, v) && !IsSpace(v) && !IsBreak(v) && !p.indention
    ensures var tail := SingleTail(l, allowBreaks, false, v, IndentPen(l), true, false, rest);
      && !IsBlankZ(tail)
      && Resume(true, InText, IndentText(l, p) + tail, column, text)
         == Resume(true, InBreaks([0x0A], []), tail, IndentColumn(l), text)
  {
    hide Inside, InGap, SingleTail, IndentText, IsChar;
    var tail := SingleTail(l, allowBreaks, false, v, IndentPen(l), true, false, rest);
    LineFront(l, allowBreaks, false, v, IndentPen(l), true, rest);
    assert IndentBreaks(l, p);
    FoldMove(true, l, p, tail, column, text);
  }

  /** The line that is begun after line breaks, with nothing to indent. */
  lemma LineBegins(l: Layout, allowBreaks: bool, start: bool, v: seq<Byte>, p: Pen, spaces: bool, rest: seq<Byte>)
    requires v != [] && ValidUtf8(v) && SingleAllowed(l.unicode, v) && !IsSpace(v) && !IsBreak(v)
    ensures var t := SingleTurn(l, allowBreaks, start, v, p, spaces, true);
      && ValidUtf8(v[|Head(v)|..])
      && var s := Doubled(Head(v)) + SingleTail(l, allowBreaks, false, v[|Head(v)|..], t.pen, t.spaces, t.breaks, rest);
         !IsBlankZ(s) && (StartsIndicator(s) <==> LineIndicator(v))
  {
    hide SingleBody, IsChar, IsPrintable, SingleAllowed, IndentText, LineIndicator, StartsIndicator, IsBlankZ;
    hide IsBreak, IsSpace;
    SingleTailStep(l, allowBreaks, false, v, IndentPen(l), spaces, false, rest);
    assert [] + Doubled(Head(v)) == Doubled(Head(v));
    LineText(l, allowBreaks, v, IndentPen(l), spaces, rest);
    LineFront(l, allowBreaks, false, v, IndentPen(l), spaces, rest);
  }

  // ---------------------------------------------------------------- slips fail

  lemma {:induction false} NonBlankGrows(single: bool, at: Cursor, text: seq<Byte>)
    ensures var r := NonBlank(single, at, text); r.Run? ==> text <= r.text
    decreases |at.rest|
  {
    hide Unescape, IsBreak, LineBreak;
    var s := at.rest;
    if !IsBlankZ(s) {
      if single && At(s, 0) == 0x27 && At(s, 1) == 0x27 {
        NonBlankGrows(single, Advance(at, 2, 2), text + [0x27]);
      } else if At(s, 0) != Quote(single) {
        if !single && At(s, 0) == 0x5C {
          if !IsBreak(s[1..]) && Unescape(s).Take? {
            NonBlankGrows(single, Advance(at, Unescape(s).length, Unescape(s).length), text + Unescape(s).bytes);
          }
        } else {
          var w := Width(s[0]);
          if w != 0 && w <= |s| {
            NonBlankGrows(single, Advance(at, w, 1), text + s[..w]);
          }
        }
      }
    }
  }

  /** Whatever a scan gives, it has kept the text that it had. */
  lemma {:induction false} ContentGrows(single: bool, at: Cursor, text: seq<Byte>)
    ensures var r := Content(single, at, text); r.Token? ==> text <= r.value
    decreases |at.rest|
  {
    hide NonBlank, Blanks, StartsIndicator;
    if !(at.column == 0 && StartsIndicator(at.rest)) && !IsZ(at.rest) {
      NonBlankGrows(single, at, text);
      match NonBlank(single, at, text)
      case Bad(_) =>
      case Run(at1, text1, leading) =>
        if At(at1.rest, 0) != Quote(single) {
          var g := Blanks(Gap(at1, leading, [], [], []));
          ContentGrows(single, g.at, Join(text1, g));
        }
    }
  }

  /** A line break after line breaks is one more in the value. */
  lemma ExtraBreak(l: Layout, w: Where, s: seq<Byte>, text: seq<Byte>)
    requires w.InBreaks? && w.first != [] && (w.first[0] == 0x0A ==> w.more != []) && !IsBlankZ(s)
    ensures var r := Resume(true, w, BreakText(l.style) + s, 0, text);
      r.Token? ==> Gathered(w, text) + [0x0A] <= r.value
  {
    hide Content, IsBlankZ, IsBreak, BreakText;
    var g := Gap(Cursor(s, 0), true, [], w.first, w.more + [0x0A]);
    NotLineFeed(s);
    GapNextBreak(true, text, l.style, s, 0, w.first, w.more);
    NoMoreBlanks(g);
    ContentGrows(true, Cursor(s, 0), Join(text, g));
    assert Join(text, g) == Gathered(w, text) + [0x0A];
  }

  lemma NotLineFeed(s: seq<Byte>)
    requires !IsBlankZ(s)
    ensures At(s, 0) != 0x0A
  {
  }

  lemma NoMoreBlanks(g: Gap)
    requires !IsBlankZ(g.at.rest)
    ensures Blanks(g) == g
  {
  }

  lemma SlipFails(l: Layout, allowBreaks: bool, start: bool, v: seq<Byte>, p: Pen, spaces: bool, breaks: bool,
                  w: Where, column: nat, text: seq<Byte>, rest: seq<Byte>)
    requires v != [] && ValidUtf8(v) && SingleAllowed(l.unicode, v)
    requires InStep(v, p, spaces, breaks, w, column) && SlipsNow(l, allowBreaks, start, v, p, spaces, breaks)
    ensures var r := Resume(true, w, SingleTail(l, allowBreaks, start, v, p, spaces, breaks, rest), column, text);
      !Yields(r, Gathered(w, text) + v, rest)
  {
    hide Resume, Gathered, IsChar, IsPrintable, SingleTail, IndentText, LineIndicator, StartsIndicator;
    SingleTailStep(l, allowBreaks, start, v, p, spaces, breaks, rest);
    var c, t := Head(v), SingleTurn(l, allowBreaks, start, v, p, spaces, breaks);
    var tail := SingleTail(l, allowBreaks, false, v[|c|..], t.pen, t.spaces, t.breaks, rest);
    if IsSpace(v) {
      assert c == [0x20];
      FoldToLine(l, allowBreaks, v[1..], p, column, text, rest);
      LineText(l, allowBreaks, v[1..], IndentPen(l), true, rest);
      GapStuck(true, text, [0x0A], [], tail);
    } else {
      LineBegins(l, allowBreaks, start, v, p, spaces, rest);
      var s := Doubled(c) + tail;
      if p.whitespace {
        assert IndentText(l, p) + Doubled(c) + tail == s by {
          NothingToIndent(l, p);
          assert [] + Doubled(c) + tail == s;
        }
        GapStuck(true, text, w.first, w.more, s);
      } else {
        assert IndentText(l, p) + Doubled(c) + tail == BreakText(l.style) + s by { OneBreak(l, p); }
        ExtraBreak(l, w, s, text);
        NotTheBreak(Gathered(w, text), v, l.unicode);
      }
    }
  }

  lemma NothingToIndent(l: Layout, p: Pen)
    requires l.indent <= 0 && p == Pen(0, true, true)
    ensures IndentText(l, p) == []
  {
  }

  lemma OneBreak(l: Layout, p: Pen)
    requires l.indent <= 0 && p == Pen(0, false, true)
    ensures IndentText(l, p) == BreakText(l.style)
  {
  }

  lemma NotTheBreak(g: seq<Byte>, v: seq<Byte>, unicode: bool)
    requires v != [] && ValidUtf8(v) && SingleAllowed(unicode, v) && !IsSpace(v) && !IsBreak(v)
    ensures !(g + [0x0A] <= g + v)
  {
    assert (g + v)[|g|] == v[0] && (g + [0x0A])[|g|] == 0x0A;
  }

  /** Scanning what the single-quoted writer wrote gives the value back if and only if it did not slip. */
  lemma SingleRoundTrip(l: Layout, allowBreaks: bool, v: seq<Byte>, p: Pen, column: nat, rest: seq<Byte>)
    requires ValidUtf8(v) && SingleAllowed(l.unicode, v) && At(rest, 0) != 0x27
    ensures Yields(ScanQuoted(true, Cursor(SingleQuoted(l, allowBreaks, v, p) + rest, column)), v, rest)
       <==> !Slips(l, allowBreaks, true, v, Opened(p), false, false)
  {
    hide SingleBody, Inside, NonBlank, Content, IsPrintable, Slips;
    var s := SingleTail(l, allowBreaks, true, v, Opened(p), false, false, rest);
    assert Drop(SingleQuoted(l, allowBreaks, v, p) + rest, 1) == s;
    assert !IsZ(s) by { SingleNotZ(l, allowBreaks, v, Opened(p), rest); }
    TopInside(true, Cursor(s, column + 1), []);
    SingleMain(l, allowBreaks, true, v, Opened(p), false, false, InText, column + 1, [], rest);
    assert [] + v == v;
  }

  lemma {:induction false} IndentedNeverSlips(l: Layout, allowBreaks: bool, start: bool, v: seq<Byte>, p: Pen,
        spaces: bool, breaks: bool)
    requires l.indent >= 1 && ValidUtf8(v)
    ensures !Slips(l, allowBreaks, start, v, p, spaces, breaks)
    decreases |v|
  {
    if v != [] {
      var t := SingleTurn(l, allowBreaks, start, v, p, spaces, breaks);
      IndentedNeverSlips(l, allowBreaks, false, v[|Head(v)|..], t.pen, t.spaces, t.breaks);
    }
  }

  /** With any indentation at all, the value always comes back. */
  lemma IndentedSingleRoundTrip(l: Layout, allowBreaks: bool, v: seq<Byte>, p: Pen, column: nat, rest: seq<Byte>)
    requires l.indent >= 1 && ValidUtf8(v) && SingleAllowed(l.unicode, v) && At(rest, 0) != 0x27
    ensures Yields(ScanQuoted(true, Cursor(SingleQuoted(l, allowBreaks, v, p) + rest, column)), v, rest)
  {
    SingleRoundTrip(l, allowBreaks, v, p, column, rest);
    IndentedNeverSlips(l, allowBreaks, true, v, Opened(p), false, false);
  }

  const TwoLines: seq<Byte> := [0x61, 0x0A, 0x62]

  lemma TwoLinesAllowed(unicode: bool)
    ensures var v := TwoLines;
      && ValidUtf8(v) && SingleAllowed(unicode, v) && ValidUtf8(v[1..]) && ValidUtf8(v[2..])
      && Head(v) == [0x61] && Head(v[1..]) == [0x0A] && v[1..][1..] == v[2..]
  {
    hide SingleAllowed, ValidUtf8, Head;
    var v := TwoLines;
    assert v[2..] == [0x62] && v[1..] == [0x0A] + v[2..] && v == [0x61] + v[1..];
    AsciiIsValid([]);
    NothingLeft();
    OneMoreAllowed(unicode, 0x62, []);
    assert [0x62] + [] == v[2..];
    OneMoreAllowed(unicode, 0x0A, v[2..]);
    OneMoreAllowed(unicode, 0x61, v[1..]);
  }

  /** A letter or a line break in front of a value. */
  lemma OneMoreAllowed(unicode: bool, b: Byte, v: seq<Byte>)
    requires b == 0x61 || b == 0x62 || b == 0x0A
    requires ValidUtf8(v) && SingleAllowed(unicode, v) && !IsSpace(v)
    ensures var w := [b] + v; ValidUtf8(w) && SingleAllowed(unicode, w) && !IsSpace(w) && Head(w) == [b] && w[1..] == v
  {
    hide SingleAllowed;
    var w := [b] + v;
    assert w[1..] == v && w[..1] == [b] && Width(w[0]) == 1;
    FrontFlags(unicode, w);
  }

  /** `a`, a line break and `b`, written with no indentation, come back with two line breaks. */
  lemma UnindentedSingleFails(l: Layout, rest: seq<Byte>)
    requires l.indent <= 0 && At(rest, 0) != 0x27
    ensures ValidUtf8(TwoLines) && SingleAllowed(l.unicode, TwoLines)
    ensures var text := SingleQuoted(l, true, TwoLines, Pen(0, true, true));
      !Yields(ScanQuoted(true, Cursor(text + rest, 0)), TwoLines, rest)
  {
    hide ScanQuoted, SingleQuoted, Slips;
    var v, p := TwoLines, Opened(Pen(0, true, true));
    TwoLinesAllowed(l.unicode);
    SlipsStep(l, true, true, v, p, false, false);
    SlipsStep(l, true, false, v[1..], Pen(p.column + 1, false, false), false, false);
    SlipsStep(l, true, false, v[2..], Pen(0, false, true), false, true);
    SingleRoundTrip(l, true, v, Pen(0, true, true), 0, rest);
  }

  lemma SingleNotZ(l: Layout, allowBreaks: bool, v: seq<Byte>, p: Pen, rest: seq<Byte>)
    requires ValidUtf8(v) && SingleAllowed(l.unicode, v)
    ensures !IsZ(SingleTail(l, allowBreaks, true, v, p, false, false, rest))
  {
    hide SingleBody, IsChar;
    if v == [] {
      SingleTailEnd(l, allowBreaks, true, p, false, false, rest);
    } else {
      SingleTailStep(l, allowBreaks, true, v, p, false, false, rest);
    }
  }
}
