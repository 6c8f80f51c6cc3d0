/**
 Where the writers of quoted scalars fold their lines, said of the text alone.

 `ColumnAfter` counts the columns of a text without looking at the writer. A line ends only
 where it is already wider than the preferred width, and a space that stands further right
 than that is one that the writers never fold at.
 */
module QuotedWidth {
  import opened YamlChars
  import opened QuotedWriter
  import opened QuotedRoundTrip
  import SingleRoundTrip

  /** The text ends with a line break. */
  predicate EndsLine(t: seq<Byte>) {
    var n := |t|;
    || (n >= 1 && (t[n - 1] == 0x0A || t[n - 1] == 0x0D))
    || (n >= 2 && t[n - 2] == 0xC2 && t[n - 1] == 0x85)
    || (n >= 3 && t[n - 3] == 0xE2 && t[n - 2] == 0x80 && (t[n - 1] == 0xA8 || t[n - 1] == 0xA9))
  }

  /** The column after a text that starts at column `c0`: one for each character since the last line break. */
  function ColumnAfter(c0: int, t: seq<Byte>): int {
    if t == [] then c0
    else if EndsLine(t) then 0
    else ColumnAfter(c0, t[..|t| - 1]) + (if IsTail(t[|t| - 1]) then 0 else 1)
  }

  // ---------------------------------------------------------------- columns of what is written

  lemma ColumnAscii(c0: int, t: seq<Byte>, b: Byte)
    requires b < 0x80 && b != 0x0A && b != 0x0D
    ensures ColumnAfter(c0, t + [b]) == ColumnAfter(c0, t) + 1
  {
    assert (t + [b])[..|t|] == t;
  }

  lemma ColumnTail(c0: int, t: seq<Byte>, b: Byte)
    requires IsTail(b) && !EndsLine(t + [b])
    ensures ColumnAfter(c0, t + [b]) == ColumnAfter(c0, t)
  {
    assert (t + [b])[..|t|] == t;
  }

  lemma ColumnLead(c0: int, t: seq<Byte>, b: Byte)
    requires b >= 0xC0
    ensures ColumnAfter(c0, t + [b]) == ColumnAfter(c0, t) + 1
  {
    assert (t + [b])[..|t|] == t;
  }

  predicate Ascii(e: seq<Byte>) { forall i :: 0 <= i < |e| ==> e[i] < 0x80 && e[i] != 0x0A && e[i] != 0x0D }

  lemma {:induction false} ColumnText(c0: int, t: seq<Byte>, e: seq<Byte>)
    requires Ascii(e)
    ensures ColumnAfter(c0, t + e) == ColumnAfter(c0, t) + |e|
    decreases |e|
  {
    hide ColumnAfter;
    if e == [] {
      assert t + e == t;
    } else {
      var n := |e| - 1;
      assert t + e == t + e[..n] + [e[n]];
      ColumnText(c0, t, e[..n]);
      ColumnAscii(c0, t + e[..n], e[n]);
    }
  }

  lemma ColumnChar(c0: int, t: seq<Byte>, c: seq<Byte>)
    requires IsChar(c)
    ensures ColumnAfter(c0, t + c) == if IsBreak(c) then 0 else ColumnAfter(c0, t) + 1
  {
    hide ColumnAfter;
    if IsBreak(c) {
      assert ColumnAfter(c0, t + c) == 0 by { ColumnBreak(c0, t, c); }
    } else if |c| == 1 {
      ColumnAscii(c0, t, c[0]);
      assert c == [c[0]];
    } else {
      ColumnWide(c0, t, c);
    }
  }

  lemma ColumnBreak(c0: int, t: seq<Byte>, c: seq<Byte>)
    requires IsChar(c) && IsBreak(c)
    ensures ColumnAfter(c0, t + c) == 0
  {
    var s := t + c;
    assert forall i :: 0 <= i < |c| ==> s[|t| + i] == c[i];
  }

  lemma ColumnWide(c0: int, t: seq<Byte>, c: seq<Byte>)
    requires IsChar(c) && |c| >= 2 && !IsBreak(c)
    ensures ColumnAfter(c0, t + c) == ColumnAfter(c0, t) + 1
  {
    hide ColumnAfter;
    ColumnLead(c0, t, c[0]);
    ColumnTail(c0, t + [c[0]], c[1]);
    assert t + [c[0]] + [c[1]] == t + c[..2];
    if |c| >= 3 {
      ColumnTail(c0, t + c[..2], c[2]);
      assert t + c[..2] + [c[2]] == t + c[..3];
    }
    if |c| >= 4 {
      ColumnTail(c0, t + c[..3], c[3]);
      assert t + c[..3] + [c[3]] == t + c[..4];
    }
    assert c[..|c|] == c;
  }

  lemma ColumnIndent(c0: int, t: seq<Byte>, style: BreakStyle, n: nat)
    ensures ColumnAfter(c0, t + BreakText(style) + Spaces(n)) == n
  {
    var s := t + BreakText(style);
    assert s[|s| - 1] == BreakText(style)[|BreakText(style)| - 1];
    assert ColumnAfter(c0, s) == 0;
    ColumnText(c0, s, Spaces(n));
  }

  // ---------------------------------------------------------------- double quotes

  /** A line break starts at `k`; the LF of CR LF starts none. */
  predicate BreakAt(s: seq<Byte>, k: nat) {
    k < |s| && (s[k] == 0x0D || (s[k] == 0x0A && !(k > 0 && s[k - 1] == 0x0D)))
  }

  /** The line that opens at `k` is indented, and does not start with a space of the value. */
  predicate IndentedAt(l: Layout, s: seq<Byte>, k: nat) {
    var t := BreakText(l.style) + Spaces(IndentColumn(l));
    k + |t| < |s| && s[k..k + |t|] == t && s[k + |t|] != 0x20
  }

  predicate IsEdge(b: Byte) { b == 0x20 || b == 0x5C || b == 0x0A || b == 0x0D }

  /** A space between two characters of the value where a line may end. */
  predicate FoldableAt(s: seq<Byte>, k: nat) {
    0 < k < |s| - 1 && s[k] == 0x20 && !IsEdge(s[k - 1])
  }

  /** At `k` there is a line break only if the line is too wide, and a foldable space only if it is not. */
  predicate WellFolded(l: Layout, allowBreaks: bool, c0: int, s: seq<Byte>, k: nat)
    requires k <= |s|
  {
    var column := ColumnAfter(c0, s[..k]);
    && (BreakAt(s, k) ==> allowBreaks && column > l.bestWidth && k > 0 && IndentedAt(l, s, k))
    && (FoldableAt(s, k) ==> !allowBreaks || column <= l.bestWidth)
  }

  predicate AllFolded(l: Layout, allowBreaks: bool, c0: int, s: seq<Byte>, from: nat, to: nat)
    requires to <= |s|
  {
    forall k: nat :: from <= k < to ==> WellFolded(l, allowBreaks, c0, s, k)
  }

  /** What the writer knows of the text `done` that it has written. */
  ghost predicate DoubleSo(l: Layout, c0: int, done: seq<Byte>, start: bool, p: Pen, spaces: bool) {
    && Tame(l, p, spaces) && p.column == ColumnAfter(c0, done) && start == (done == [])
    && (spaces ==> done != [] && IsEdge(done[|done| - 1]))
  }

  predicate NoGaps(t: seq<Byte>) { forall i :: 0 <= i < |t| ==> t[i] != 0x20 && t[i] != 0x0A && t[i] != 0x0D }

  lemma TextFolded(l: Layout, allowBreaks: bool, c0: int, done: seq<Byte>, t: seq<Byte>, after: seq<Byte>)
    requires NoGaps(t)
    ensures var s := done + t + after;
            AllFolded(l, allowBreaks, c0, s, |done|, |done| + |t|)
  {
    hide ColumnAfter, IndentedAt;
    var s := done + t + after;
    forall k: nat | |done| <= k < |done| + |t|
      ensures WellFolded(l, allowBreaks, c0, s, k)
    {
      assert s[k] == t[k - |done|];
    }
  }

  lemma EscapeHasNoGaps(v: nat)
    ensures NoGaps(EscapeText(v)) && Ascii(EscapeText(v))
  {
    HexHasNoGaps(v, HexLength(v));
  }

  lemma {:induction false} HexHasNoGaps(v: nat, n: nat)
    ensures NoGaps(HexText(v, n)) && Ascii(HexText(v, n))
  {
    if n > 0 {
      HexHasNoGaps(v, n - 1);
    }
  }

  lemma CharHasNoGaps(c: seq<Byte>)
    requires IsChar(c) && !IsSpace(c) && !IsBreak(c)
    ensures NoGaps(c) && c != []
  {
  }

  lemma SpaceFolded(l: Layout, allowBreaks: bool, c0: int, done: seq<Byte>, start: bool, v: seq<Byte>, p: Pen,
        spaces: bool, after: seq<Byte>)
    requires DoubleSo(l, c0, done, start, p, spaces) && !DoubleFolds(l, allowBreaks, start, v, p, spaces)
    requires |v| <= 1 ==> after == []
    ensures WellFolded(l, allowBreaks, c0, done + [0x20] + after, |done|)
  {
    hide ColumnAfter, IndentedAt, Tame;
    var s := done + [0x20] + after;
    assert s[..|done|] == done && s[|done|] == 0x20;
    if done != [] {
      assert s[|done| - 1] == done[|done| - 1];
    }
  }

  lemma BreakFolded(l: Layout, allowBreaks: bool, c0: int, done: seq<Byte>, after: seq<Byte>)
    requires allowBreaks && done != [] && ColumnAfter(c0, done) > l.bestWidth && after != [] && after[0] != 0x20
    ensures var t := BreakText(l.style) + Spaces(IndentColumn(l));
            var s := done + t + after;
            AllFolded(l, allowBreaks, c0, s, |done|, |done| + |t|)
  {
    hide ColumnAfter;
    var b := BreakText(l.style);
    var t := b + Spaces(IndentColumn(l));
    var s := done + t + after;
    forall k: nat | |done| <= k < |done| + |t|
      ensures WellFolded(l, allowBreaks, c0, s, k)
    {
      assert s[k] == t[k - |done|];
      if k == |done| {
        assert s[..k] == done && s[k..k + |t|] == t && s[k + |t|] == after[0];
      } else {
        assert s[k - 1] == t[k - 1 - |done|];
      }
    }
  }

  lemma FoldFolded(l: Layout, allowBreaks: bool, c0: int, done: seq<Byte>, v: seq<Byte>, p: Pen, spaces: bool,
        after: seq<Byte>)
    requires DoubleSo(l, c0, done, false, p, spaces) && DoubleFolds(l, allowBreaks, false, v, p, spaces)
    requires !IsSpace(v[1..]) ==> after != [] && after[0] != 0x20
    ensures var t := IndentText(l, p) + Guard(v[1..]);
            AllFolded(l, allowBreaks, c0, done + t + after, |done|, |done| + |t|)
  {
    hide WellFolded, ColumnAfter, BreakText;
    var g, u := Guard(v[1..]), BreakText(l.style) + Spaces(IndentColumn(l));
    var t := IndentText(l, p) + g;
    assert IndentText(l, p) == u;
    var s := done + t + after;
    assert s == done + u + (g + after) && s == done + u + g + after;
    GuardHasNoGaps(v[1..]);
    BreakFolded(l, allowBreaks, c0, done, g + after);
    TextFolded(l, allowBreaks, c0, done + u, g, after);
    forall k: nat | |done| <= k < |done| + |t|
      ensures WellFolded(l, allowBreaks, c0, s, k)
    {
      if k >= |done + u| {
        assert |done + u| <= k < |done + u| + |g|;
      }
    }
  }

  /** The text of one turn is well folded, whatever comes after it. */
  lemma TurnFolded(l: Layout, allowBreaks: bool, bom: bool, c0: int, done: seq<Byte>, start: bool, v: seq<Byte>, p: Pen,
        spaces: bool, after: seq<Byte>)
    requires v != [] && ValidUtf8(v) && DoubleSo(l, c0, done, start, p, spaces)
    requires |v| <= 1 ==> after == []
    requires IsSpace(v) && |v| > 1 && !IsSpace(v[1..]) ==> after != [] && after[0] != 0x20
    ensures var t := DoubleTurn(l, allowBreaks, bom, start, v, p, spaces).text;
            AllFolded(l, allowBreaks, c0, done + t + after, |done|, |done| + |t|)
  {
    hide WellFolded, EscapeText, IsChar, Decode, NoGaps, IsPrintable, ColumnAfter;
    var c := Head(v);
    RawFront(c, v[|c|..]);
    var t := DoubleTurn(l, allowBreaks, bom, start, v, p, spaces).text;
    if NeedsEscape(l, bom, v) {
      EncodeInverse(c);
      EscapeHasNoGaps(Decode(c));
      TextFolded(l, allowBreaks, c0, done, t, after);
    } else if !IsSpace(v) {
      assert !IsSpace(c) && !IsBreak(c);
      CharHasNoGaps(c);
      TextFolded(l, allowBreaks, c0, done, t, after);
    } else if DoubleFolds(l, allowBreaks, start, v, p, spaces) {
      FoldFolded(l, allowBreaks, c0, done, v, p, spaces, after);
    } else {
      assert c == [0x20];
      SpaceFolded(l, allowBreaks, c0, done, start, v, p, spaces, after);
    }
  }

  lemma GuardHasNoGaps(v: seq<Byte>)
    ensures NoGaps(Guard(v)) && Ascii(Guard(v))
  {
  }

  lemma TurnSo(l: Layout, allowBreaks: bool, bom: bool, c0: int, done: seq<Byte>, start: bool, v: seq<Byte>, p: Pen,
        spaces: bool)
    requires v != [] && ValidUtf8(v) && DoubleSo(l, c0, done, start, p, spaces)
    ensures var t := DoubleTurn(l, allowBreaks, bom, start, v, p, spaces);
            DoubleSo(l, c0, done + t.text, false, t.pen, t.spaces)
  {
    hide EscapeText, IsChar, Decode, IsPrintable, ColumnAfter, Ascii, Tame;
    TurnTame(l, allowBreaks, bom, start, v, p, spaces);
    var c := Head(v);
    RawFront(c, v[|c|..]);
    var t := DoubleTurn(l, allowBreaks, bom, start, v, p, spaces).text;
    if NeedsEscape(l, bom, v) {
      EncodeInverse(c);
      EscapeHasNoGaps(Decode(c));
      ColumnText(c0, done, t);
    } else if IsSpace(v) && DoubleFolds(l, allowBreaks, start, v, p, spaces) {
      FoldSo(l, c0, done, v, p, spaces);
    } else {
      ColumnChar(c0, done, c);
    }
  }

  lemma FoldSo(l: Layout, c0: int, done: seq<Byte>, v: seq<Byte>, p: Pen, spaces: bool)
    requires Tame(l, p, spaces) && !spaces && v != []
    ensures var g := Guard(v[1..]);
            var t := IndentText(l, p) + g;
            && t != [] && IsEdge(t[|t| - 1]) && ColumnAfter(c0, done + t) == IndentColumn(l) + |g|
  {
    hide ColumnAfter, Ascii;
    var g, u := Guard(v[1..]), BreakText(l.style) + Spaces(IndentColumn(l));
    assert IndentText(l, p) == u && IsEdge(u[|u| - 1]);
    ColumnIndent(c0, done, l.style, IndentColumn(l));
    GuardHasNoGaps(v[1..]);
    ColumnText(c0, done + u, g);
    assert done + BreakText(l.style) + Spaces(IndentColumn(l)) == done + u && done + u + g == done + (u + g);
  }

  lemma BodyFront(l: Layout, allowBreaks: bool, bom: bool, v: seq<Byte>, p: Pen, spaces: bool)
    requires v != [] && ValidUtf8(v) && !IsSpace(v)
    ensures var b := DoubleBody(l, allowBreaks, bom, false, v, p, spaces); b != [] && b[0] != 0x20
  {
    hide EscapeText, IsChar, Decode, IsPrintable;
    var c := Head(v);
  }

  lemma {:induction false} DoubleFolded(l: Layout, allowBreaks: bool, bom: bool, c0: int, done: seq<Byte>, start: bool,
        v: seq<Byte>, p: Pen, spaces: bool)
    requires ValidUtf8(v) && DoubleSo(l, c0, done, start, p, spaces)
    ensures var s := done + DoubleBody(l, allowBreaks, bom, start, v, p, spaces);
            AllFolded(l, allowBreaks, c0, s, |done|, |s|)
    decreases |v|
  {
    hide WellFolded, DoubleTurn, DoubleSo, IsChar;
    if v != [] {
      var t := DoubleTurn(l, allowBreaks, bom, start, v, p, spaces);
      var v' := v[|Head(v)|..];
      var after := DoubleBody(l, allowBreaks, bom, false, v', t.pen, t.spaces);
      var s := done + DoubleBody(l, allowBreaks, bom, start, v, p, spaces);
      assert s == done + t.text + after;
      if IsSpace(v) && v' != [] && !IsSpace(v') {
        BodyFront(l, allowBreaks, bom, v', t.pen, t.spaces);
      }
      TurnSo(l, allowBreaks, bom, c0, done, start, v, p, spaces);
      TurnFolded(l, allowBreaks, bom, c0, done, start, v, p, spaces, after);
      DoubleFolded(l, allowBreaks, bom, c0, done + t.text, false, v', t.pen, t.spaces);
    }
  }

  /** The column of the first character of a scalar. */
  function FirstColumn(p: Pen): int { p.column + (if p.whitespace then 1 else 2) }

  /** What stands between the quotes is well folded. */
  lemma DoubleWidth(l: Layout, allowBreaks: bool, v: seq<Byte>, p: Pen)
    requires ValidUtf8(v)
    ensures var t := DoubleQuoted(l, allowBreaks, v, p);
            var s := t[1..|t| - 1];
            AllFolded(l, allowBreaks, FirstColumn(p), s, 0, |s|)
  {
    hide DoubleBody, WellFolded;
    var body := DoubleBody(l, allowBreaks, StartsWithBom(v), true, v, Opened(p), false);
    var t := DoubleQuoted(l, allowBreaks, v, p);
    assert t[1..|t| - 1] == body && [] + body == body;
    DoubleFolded(l, allowBreaks, StartsWithBom(v), FirstColumn(p), [], true, v, Opened(p), false);
  }

  lemma TurnGrows(l: Layout, bom: bool, start: bool, v: seq<Byte>, p: Pen, spaces: bool)
    requires v != [] && ValidUtf8(v)
    ensures DoubleTurn(l, false, bom, start, v, p, spaces).pen.column > p.column
  {
    hide IsChar, IsPrintable, Decode, IndentText;
    EncodeInverse(Head(v));
  }

  /** Without line breaks every turn moves to the right. */
  lemma {:induction false} UnfoldedGrows(l: Layout, bom: bool, c0: int, done: seq<Byte>, start: bool, v: seq<Byte>,
        p: Pen, spaces: bool)
    requires ValidUtf8(v) && DoubleSo(l, c0, done, start, p, spaces)
    ensures ColumnAfter(c0, done) <= ColumnAfter(c0, done + DoubleBody(l, false, bom, start, v, p, spaces))
    decreases |v|
  {
    hide ColumnAfter, IsChar, Tame, DoubleTurn;
    if v == [] {
      assert done + DoubleBody(l, false, bom, start, v, p, spaces) == done;
    } else {
      var t := DoubleTurn(l, false, bom, start, v, p, spaces);
      var v' := v[|Head(v)|..];
      TurnGrows(l, bom, start, v, p, spaces);
      TurnSo(l, false, bom, c0, done, start, v, p, spaces);
      UnfoldedGrows(l, bom, c0, done + t.text, false, v', t.pen, t.spaces);
      assert done + DoubleBody(l, false, bom, start, v, p, spaces)
          == done + t.text + DoubleBody(l, false, bom, false, v', t.pen, t.spaces);
    }
  }

  lemma {:induction false} NarrowBody(l: Layout, bom: bool, c0: int, done: seq<Byte>, start: bool, v: seq<Byte>,
        p: Pen, spaces: bool)
    requires ValidUtf8(v) && DoubleSo(l, c0, done, start, p, spaces)
    requires ColumnAfter(c0, done + DoubleBody(l, false, bom, start, v, p, spaces)) <= l.bestWidth
    ensures DoubleBody(l, true, bom, start, v, p, spaces) == DoubleBody(l, false, bom, start, v, p, spaces)
    decreases |v|
  {
    hide ColumnAfter, IsChar, Tame, IsPrintable, EscapeText, IndentText, Decode;
    if v != [] {
      var t := DoubleTurn(l, false, bom, start, v, p, spaces);
      var v' := v[|Head(v)|..];
      UnfoldedGrows(l, bom, c0, done, start, v, p, spaces);
      assert DoubleTurn(l, true, bom, start, v, p, spaces) == t;
      TurnSo(l, false, bom, c0, done, start, v, p, spaces);
      assert done + DoubleBody(l, false, bom, start, v, p, spaces)
          == done + t.text + DoubleBody(l, false, bom, false, v', t.pen, t.spaces);
      NarrowBody(l, bom, c0, done + t.text, false, v', t.pen, t.spaces);
    }
  }

  /** A value that fits on the line is written on it. */
  lemma NarrowDouble(l: Layout, v: seq<Byte>, p: Pen)
    requires ValidUtf8(v)
    requires var t := DoubleQuoted(l, false, v, p); ColumnAfter(FirstColumn(p), t[1..|t| - 1]) <= l.bestWidth
    ensures DoubleQuoted(l, true, v, p) == DoubleQuoted(l, false, v, p)
  {
    hide DoubleBody, ColumnAfter;
    var body := DoubleBody(l, false, StartsWithBom(v), true, v, Opened(p), false);
    var t := DoubleQuoted(l, false, v, p);
    assert t[1..|t| - 1] == body && [] + body == body;
    assert ColumnAfter(FirstColumn(p), []) == FirstColumn(p) by { ColumnNone(FirstColumn(p)); }
    NarrowBody(l, StartsWithBom(v), FirstColumn(p), [], true, v, Opened(p), false);
  }

  lemma ColumnNone(c0: int)
    ensures ColumnAfter(c0, []) == c0
  {
  }

  // ---------------------------------------------------------------- single quotes

  /** A line break that stands alone: the breaks of the value are written at least two at a time. */
  predicate LoneBreakAt(s: seq<Byte>, k: nat) {
    && BreakAt(s, k) && !EndsLine(s[..k])
    && !IsBreak(s[k + (if s[k] == 0x0D && At(s, k + 1) == 0x0A then 2 else 1)..])
  }

  /** A space of the value with other characters of the value on both sides. */
  predicate InnerSpaceAt(s: seq<Byte>, k: nat) {
    0 < k < |s| - 1 && s[k] == 0x20 && s[k - 1] != 0x20 && !EndsLine(s[..k]) && s[k + 1] != 0x20
  }

  predicate WellFoldedSingle(l: Layout, allowBreaks: bool, c0: int, s: seq<Byte>, k: nat)
    requires k <= |s|
  {
    var column := ColumnAfter(c0, s[..k]);
    && (LoneBreakAt(s, k) ==> allowBreaks && column > l.bestWidth && k > 0)
    && (InnerSpaceAt(s, k) ==> !allowBreaks || column <= l.bestWidth)
  }

  predicate AllFoldedSingle(l: Layout, allowBreaks: bool, c0: int, s: seq<Byte>, from: nat, to: nat)
    requires to <= |s|
  {
    forall k: nat :: from <= k < to ==> WellFoldedSingle(l, allowBreaks, c0, s, k)
  }

  /** What the writer knows of the text `done` that it has written. */
  ghost predicate SingleSo(c0: int, done: seq<Byte>, start: bool, v: seq<Byte>, p: Pen, spaces: bool, breaks: bool) {
    && p.column == ColumnAfter(c0, done) && start == (done == [])
    && (spaces ==> done != [] && (done[|done| - 1] == 0x20 || EndsLine(done)))
    && (breaks ==> EndsLine(done) && !IsSpace(v) && p.indention)
    && (!breaks && !spaces ==> !p.indention)
  }

  lemma TextFoldedSingle(l: Layout, allowBreaks: bool, c0: int, done: seq<Byte>, t: seq<Byte>, after: seq<Byte>)
    requires NoGaps(t)
    ensures var s := done + t + after;
            AllFoldedSingle(l, allowBreaks, c0, s, |done|, |done| + |t|)
  {
    hide ColumnAfter, IsBreak, EndsLine;
    var s := done + t + after;
    forall k: nat | |done| <= k < |done| + |t|
      ensures WellFoldedSingle(l, allowBreaks, c0, s, k)
    {
      assert s[k] == t[k - |done|];
    }
  }

  /** Text put right after a line break, made of line breaks and then spaces. */
  lemma LinesFoldedSingle(l: Layout, allowBreaks: bool, c0: int, done: seq<Byte>, t: seq<Byte>, after: seq<Byte>)
    requires EndsLine(done)
    requires forall i :: 0 <= i < |t| ==> t[i] == 0x20 || t[i] == 0x0A || t[i] == 0x0D
    requires forall i :: 0 < i < |t| && t[i] != 0x20 ==> t[i - 1] != 0x20
    ensures var s := done + t + after;
            AllFoldedSingle(l, allowBreaks, c0, s, |done|, |done| + |t|)
  {
    hide ColumnAfter, IsBreak;
    var s := done + t + after;
    forall k: nat | |done| <= k < |done| + |t|
      ensures WellFoldedSingle(l, allowBreaks, c0, s, k)
    {
      assert s[k] == t[k - |done|];
      if k == |done| {
        assert s[..k] == done;
      } else {
        assert s[k - 1] == t[k - 1 - |done|] && s[..k][k - 1] == s[k - 1];
      }
    }
  }

  lemma FoldFoldedSingle(l: Layout, allowBreaks: bool, c0: int, done: seq<Byte>, after: seq<Byte>)
    requires allowBreaks && done != [] && ColumnAfter(c0, done) > l.bestWidth
    ensures var t := BreakText(l.style) + Spaces(IndentColumn(l));
            AllFoldedSingle(l, allowBreaks, c0, done + t + after, |done|, |done| + |t|)
  {
    hide ColumnAfter, IsBreak;
    var t := BreakText(l.style) + Spaces(IndentColumn(l));
    var s := done + t + after;
    forall k: nat | |done| <= k < |done| + |t|
      ensures WellFoldedSingle(l, allowBreaks, c0, s, k)
    {
      assert s[k] == t[k - |done|];
      if k == |done| {
        assert s[..k] == done;
      } else {
        assert s[k - 1] == t[k - 1 - |done|] && s[..k][k - 1] == s[k - 1];
      }
    }
  }

  lemma FirstBreakSingle(l: Layout, allowBreaks: bool, c0: int, done: seq<Byte>, after: seq<Byte>)
    ensures var b := BreakText(l.style);
            AllFoldedSingle(l, allowBreaks, c0, done + b + (b + after), |done|, |done| + |b|)
  {
    hide ColumnAfter, EndsLine;
    var b := BreakText(l.style);
    var s := done + b + (b + after);
    forall k: nat | |done| <= k < |done| + |b|
      ensures WellFoldedSingle(l, allowBreaks, c0, s, k)
    {
      assert s[k] == b[k - |done|];
      if k == |done| {
        assert s[k + |b|..] == b + after && s[k + |b|] == b[0];
      } else {
        assert s[k - 1] == b[0];
      }
    }
  }

  lemma ValueBreakSingle(l: Layout, allowBreaks: bool, c0: int, done: seq<Byte>, c: seq<Byte>, breaks: bool,
        after: seq<Byte>)
    requires c == [0x0A] || c == [0xE2, 0x80, 0xA8] || c == [0xE2, 0x80, 0xA9]
    requires breaks ==> EndsLine(done)
    ensures var t := SingleBreak(l, c, breaks);
            && AllFoldedSingle(l, allowBreaks, c0, done + t + after, |done|, |done| + |t|)
            && done + t != [] && EndsLine(done + t) && ColumnAfter(c0, done + t) == 0
  {
    hide WellFoldedSingle;
    var t, b := SingleBreak(l, c, breaks), BreakText(l.style);
    var s := done + t + after;
    if c != [0x0A] {
      TextFoldedSingle(l, allowBreaks, c0, done, t, after);
      assert (done + t)[|done|..] == t;
    } else {
      assert b[|b| - 1] == 0x0A || b[|b| - 1] == 0x0D;
      if breaks {
        LinesFoldedSingle(l, allowBreaks, c0, done, t, after);
      } else {
        assert t == b + b && s == done + b + (b + after) && s == done + b + b + after;
        FirstBreakSingle(l, allowBreaks, c0, done, after);
        LinesFoldedSingle(l, allowBreaks, c0, done + b, b, after);
      }
    }
  }

  lemma OrdinarySingle(l: Layout, allowBreaks: bool, c0: int, done: seq<Byte>, c: seq<Byte>, p: Pen, breaks: bool,
        after: seq<Byte>)
    requires IsChar(c) && !IsSpace(c) && !IsBreak(c) && p.column == ColumnAfter(c0, done)
    requires breaks ==> EndsLine(done) && p.indention
    ensures var q := if breaks then IndentPen(l) else p;
            var t := (if breaks then IndentText(l, p) else []) + Doubled(c);
            && AllFoldedSingle(l, allowBreaks, c0, done + t + after, |done|, |done| + |t|)
            && ColumnAfter(c0, done + t) == q.column + (if c[0] == 0x27 then 2 else 1)
  {
    hide WellFoldedSingle, ColumnAfter, IsChar, EndsLine;
    var u := if breaks then IndentText(l, p) else [];
    var d := Doubled(c);
    var t := u + d;
    var s := done + t + after;
    assert s == done + u + (d + after) && s == done + u + d + after && done + t == done + u + d;
    CharHasNoGaps(c);
    TextFoldedSingle(l, allowBreaks, c0, done + u, d, after);
    if breaks {
      assert ColumnAfter(c0, done) == 0 by { LineStarts(c0, done); }
      IndentFoldedSingle(l, allowBreaks, c0, done, p, d + after);
    } else {
      assert done + u == done;
    }
    if c[0] == 0x27 {
      assert c == [0x27] by { QuoteIsOne(c); }
      ColumnAscii(c0, done + u, 0x27);
      assert done + u + d == done + u + [0x27] + c;
      ColumnChar(c0, done + u + [0x27], c);
    } else {
      ColumnChar(c0, done + u, c);
    }
  }

  lemma QuoteIsOne(c: seq<Byte>)
    requires IsChar(c) && c[0] == 0x27
    ensures c == [0x27]
  {
  }

  lemma LineStarts(c0: int, done: seq<Byte>)
    requires EndsLine(done)
    ensures ColumnAfter(c0, done) == 0
  {
  }

  lemma IndentFoldedSingle(l: Layout, allowBreaks: bool, c0: int, done: seq<Byte>, p: Pen, after: seq<Byte>)
    requires EndsLine(done) && p.column == ColumnAfter(c0, done) == 0 && p.indention
    ensures var t := IndentText(l, p);
            && AllFoldedSingle(l, allowBreaks, c0, done + t + after, |done|, |done| + |t|)
            && ColumnAfter(c0, done + t) == IndentColumn(l)
  {
    hide WellFoldedSingle, ColumnAfter, EndsLine;
    var t := IndentText(l, p);
    LinesFoldedSingle(l, allowBreaks, c0, done, t, after);
    if IndentBreaks(l, p) {
      ColumnIndent(c0, done, l.style, IndentColumn(l));
      assert done + BreakText(l.style) + Spaces(IndentColumn(l)) == done + t;
    } else {
      ColumnText(c0, done, t);
    }
  }

  lemma SingleFoldTurn(l: Layout, allowBreaks: bool, c0: int, done: seq<Byte>, p: Pen, after: seq<Byte>)
    requires allowBreaks && done != [] && p.column == ColumnAfter(c0, done) && p.column > l.bestWidth && !p.indention
    ensures var t := IndentText(l, p);
            && AllFoldedSingle(l, allowBreaks, c0, done + t + after, |done|, |done| + |t|)
            && ColumnAfter(c0, done + t) == IndentColumn(l)
            && t != [] && (t[|t| - 1] == 0x20 || EndsLine(done + t))
  {
    hide WellFoldedSingle, ColumnAfter;
    var b, n := BreakText(l.style), IndentColumn(l);
    assert IndentText(l, p) == b + Spaces(n);
    FoldFoldedSingle(l, allowBreaks, c0, done, after);
    ColumnIndent(c0, done, l.style, n);
    assert done + b + Spaces(n) == done + (b + Spaces(n));
    if n == 0 {
      assert done + (b + Spaces(n)) == done + b && (done + b)[|done + b| - 1] == b[|b| - 1];
    }
  }

  lemma SingleSpaceTurn(l: Layout, allowBreaks: bool, c0: int, done: seq<Byte>, start: bool, v: seq<Byte>, p: Pen,
        spaces: bool, after: seq<Byte>)
    requires SingleSo(c0, done, start, v, p, spaces, false) && !SingleFolds(l, allowBreaks, start, v, p, spaces)
    requires v != [] && (|v| <= 1 ==> after == [])
    requires |v| > 1 && IsSpace(v[1..]) ==> after != [] && after[0] == 0x20
    ensures AllFoldedSingle(l, allowBreaks, c0, done + [0x20] + after, |done|, |done| + 1)
    ensures ColumnAfter(c0, done + [0x20]) == p.column + 1
  {
    hide ColumnAfter, EndsLine, IsBreak;
    var s := done + [0x20] + after;
    assert s[..|done|] == done && s[|done|] == 0x20 && s[|done| + 1..] == after;
    if done != [] {
      assert s[|done| - 1] == done[|done| - 1];
    }
    if after != [] {
      assert s[|done| + 1] == after[0];
    }
    assert WellFoldedSingle(l, allowBreaks, c0, s, |done|);
    ColumnAscii(c0, done, 0x20);
  }

  lemma SpaceIsOne(v: seq<Byte>)
    requires v != [] && ValidUtf8(v) && IsSpace(v)
    ensures Head(v) == [0x20]
  {
  }

  lemma DoubledNotEmpty(c: seq<Byte>)
    requires IsChar(c)
    ensures Doubled(c) != []
  {
  }

  /** One turn of the single-quoted writer. */
  lemma TurnFoldedSingle(l: Layout, allowBreaks: bool, c0: int, done: seq<Byte>, start: bool, v: seq<Byte>, p: Pen,
        spaces: bool, breaks: bool, after: seq<Byte>)
    requires v != [] && ValidUtf8(v) && SingleAllowed(l.unicode, v)
    requires SingleSo(c0, done, start, v, p, spaces, breaks)
    requires |v| <= 1 ==> after == []
    requires IsSpace(v) && |v| > 1 && IsSpace(v[1..]) ==> after != [] && after[0] == 0x20
    ensures var t := SingleTurn(l, allowBreaks, start, v, p, spaces, breaks);
            && AllFoldedSingle(l, allowBreaks, c0, done + t.text + after, |done|, |done| + |t.text|)
            && SingleSo(c0, done + t.text, false, v[|Head(v)|..], t.pen, t.spaces, t.breaks)
  {
    hide WellFoldedSingle, ColumnAfter, IsChar, IsPrintable, EndsLine, IsBreak, SingleBreak, Doubled, IndentText;
    var c := Head(v);
    assert IsBreak(v) == IsBreak(c) && IsSpace(v) == IsSpace(c) by { RawFront(c, v[|c|..]); }
    if IsSpace(v) {
      if SingleFolds(l, allowBreaks, start, v, p, spaces) {
        SingleFoldTurn(l, allowBreaks, c0, done, p, after);
      } else {
        assert c == [0x20] by { SpaceIsOne(v); }
        SingleSpaceTurn(l, allowBreaks, c0, done, start, v, p, spaces, after);
      }
    } else if IsBreak(v) {
      SingleRoundTrip.AllowedBreak(l.unicode, v);
      ValueBreakSingle(l, allowBreaks, c0, done, c, breaks, after);
    } else {
      OrdinarySingle(l, allowBreaks, c0, done, c, p, breaks, after);
      assert Doubled(c) != [] by { DoubledNotEmpty(c); }
    }
  }

  lemma SpaceFrontSingle(l: Layout, allowBreaks: bool, v: seq<Byte>, p: Pen, breaks: bool)
    requires v != [] && ValidUtf8(v) && IsSpace(v)
    ensures var b := SingleBody(l, allowBreaks, false, v, p, true, breaks); b != [] && b[0] == 0x20
  {
    hide IsChar;
    SpaceIsOne(v);
  }

  lemma {:induction false} SingleFolded(l: Layout, allowBreaks: bool, c0: int, done: seq<Byte>, start: bool,
        v: seq<Byte>, p: Pen, spaces: bool, breaks: bool)
    requires ValidUtf8(v) && SingleAllowed(l.unicode, v) && SingleSo(c0, done, start, v, p, spaces, breaks)
    ensures var s := done + SingleBody(l, allowBreaks, start, v, p, spaces, breaks);
            AllFoldedSingle(l, allowBreaks, c0, s, |done|, |s|)
    decreases |v|
  {
    hide WellFoldedSingle, SingleTurn, SingleSo, IsChar, IsPrintable, IsBreak;
    if v != [] {
      var t := SingleTurn(l, allowBreaks, start, v, p, spaces, breaks);
      var v' := v[|Head(v)|..];
      var after := SingleBody(l, allowBreaks, false, v', t.pen, t.spaces, t.breaks);
      var s := done + SingleBody(l, allowBreaks, start, v, p, spaces, breaks);
      assert s == done + t.text + after;
      if IsSpace(v) && v' != [] && IsSpace(v') {
        assert t.spaces by { SpaceTurn(l, allowBreaks, start, v, p, spaces, breaks); }
        SpaceFrontSingle(l, allowBreaks, v', t.pen, t.breaks);
      }
      TurnFoldedSingle(l, allowBreaks, c0, done, start, v, p, spaces, breaks, after);
      SingleFolded(l, allowBreaks, c0, done + t.text, false, v', t.pen, t.spaces, t.breaks);
    }
  }

  lemma SpaceTurn(l: Layout, allowBreaks: bool, start: bool, v: seq<Byte>, p: Pen, spaces: bool, breaks: bool)
    requires v != [] && ValidUtf8(v) && IsSpace(v)
    ensures SingleTurn(l, allowBreaks, start, v, p, spaces, breaks).spaces
  {
    hide IsChar, IndentText;
  }

  /** What stands between the single quotes is well folded, up to the line breaks of the value. */
  lemma SingleWidth(l: Layout, allowBreaks: bool, v: seq<Byte>, p: Pen)
    requires ValidUtf8(v) && SingleAllowed(l.unicode, v)
    ensures var t := SingleQuoted(l, allowBreaks, v, p);
            var s := t[1..|t| - 1];
            AllFoldedSingle(l, allowBreaks, FirstColumn(p), s, 0, |s|)
  {
    hide SingleBody, WellFoldedSingle, SingleAllowed;
    var body := SingleBody(l, allowBreaks, true, v, Opened(p), false, false);
    var t := SingleQuoted(l, allowBreaks, v, p);
    assert t[1..|t| - 1] == body && [] + body == body;
    SingleFolded(l, allowBreaks, FirstColumn(p), [], true, v, Opened(p), false, false);
  }

  /** No line of the text is wider than `w`. */
  predicate Narrow(c0: int, s: seq<Byte>, w: int) { forall k :: 0 <= k <= |s| ==> ColumnAfter(c0, s[..k]) <= w }

  lemma {:induction false} NarrowSingleBody(l: Layout, c0: int, done: seq<Byte>, start: bool, v: seq<Byte>, p: Pen,
        spaces: bool, breaks: bool)
    requires ValidUtf8(v) && SingleAllowed(l.unicode, v) && SingleSo(c0, done, start, v, p, spaces, breaks)
    requires Narrow(c0, done + SingleBody(l, false, start, v, p, spaces, breaks), l.bestWidth)
    ensures SingleBody(l, true, start, v, p, spaces, breaks) == SingleBody(l, false, start, v, p, spaces, breaks)
    decreases |v|
  {
    hide WellFoldedSingle, SingleTurn, SingleSo, IsChar, IsPrintable, IsBreak, ColumnAfter, SingleAllowed;
    if v != [] {
      var t := SingleTurn(l, false, start, v, p, spaces, breaks);
      var v' := v[|Head(v)|..];
      var after := SingleBody(l, false, false, v', t.pen, t.spaces, t.breaks);
      var s := done + SingleBody(l, false, start, v, p, spaces, breaks);
      assert s == done + t.text + after && s[..|done|] == done;
      assert SingleTurn(l, true, start, v, p, spaces, breaks) == t by {
        assert p.column <= l.bestWidth by { SoColumn(c0, done, start, v, p, spaces, breaks); }
        NarrowTurn(l, start, v, p, spaces, breaks);
      }
      if IsSpace(v) && v' != [] && IsSpace(v') {
        assert t.spaces by { SpaceTurn(l, false, start, v, p, spaces, breaks); }
        SpaceFrontSingle(l, false, v', t.pen, t.breaks);
      }
      TurnFoldedSingle(l, false, c0, done, start, v, p, spaces, breaks, after);
      assert SingleAllowed(l.unicode, v') by { SingleRoundTrip.AllowedTail(l.unicode, v); }
      NarrowSingleBody(l, c0, done + t.text, false, v', t.pen, t.spaces, t.breaks);
    }
  }

  lemma SoColumn(c0: int, done: seq<Byte>, start: bool, v: seq<Byte>, p: Pen, spaces: bool, breaks: bool)
    requires SingleSo(c0, done, start, v, p, spaces, breaks)
    ensures p.column == ColumnAfter(c0, done)
  {
  }

  lemma NarrowTurn(l: Layout, start: bool, v: seq<Byte>, p: Pen, spaces: bool, breaks: bool)
    requires v != [] && ValidUtf8(v) && p.column <= l.bestWidth
    ensures SingleTurn(l, true, start, v, p, spaces, breaks) == SingleTurn(l, false, start, v, p, spaces, breaks)
  {
    hide IsChar, IndentText, IsBreak;
  }

  /** A value whose lines fit is written with its own line breaks only. */
  lemma NarrowSingle(l: Layout, v: seq<Byte>, p: Pen)
    requires ValidUtf8(v) && SingleAllowed(l.unicode, v)
    requires var t := SingleQuoted(l, false, v, p); Narrow(FirstColumn(p), t[1..|t| - 1], l.bestWidth)
    ensures SingleQuoted(l, true, v, p) == SingleQuoted(l, false, v, p)
  {
    hide SingleBody, Narrow, SingleAllowed;
    var body := SingleBody(l, false, true, v, Opened(p), false, false);
    var t := SingleQuoted(l, false, v, p);
    assert t[1..|t| - 1] == body && [] + body == body;
    NarrowSingleBody(l, FirstColumn(p), [], true, v, Opened(p), false, false);
  }
}
