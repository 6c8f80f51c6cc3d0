/**
 The scanner of quoted scalars reads exactly the texts of `QuotedGrammar`, and reads them as
 what they stand for there: `QuotedReads` is one direction and `QuotedMeans` the other.
 */
module QuotedMeaning {
  import opened YamlChars
  import opened QuotedScanner
  import opened QuotedRoundTrip
  import opened QuotedGrammar

  // ---------------------------------------------------------------- digits

  lemma DigitRead(d: Digit)
    requires d.value < 16
    ensures IsHex(DigitByte(d)) && AsHex(DigitByte(d)) == d.value
  {
  }

  lemma NumberSnoc(ds: seq<Digit>, d: Digit)
    ensures Number(ds + [d]) == 16 * Number(ds) + d.value
  {
    assert (ds + [d])[..|ds|] == ds;
  }

  /** Digits in any mix of cases are read as their number. */
  lemma {:induction false} DigitsRead(done: seq<Digit>, ds: seq<Digit>, tail: seq<Byte>)
    requires GoodDigits(ds)
    ensures HexValue(DigitBytes(ds) + tail, |ds|, Number(done)) == Number(done + ds)
    decreases |ds|
  {
    hide AsHex, IsHex, DigitByte, Number;
    if ds == [] {
      assert done + ds == done;
    } else {
      var s := DigitBytes(ds) + tail;
      assert s[0] == DigitByte(ds[0]) && Drop(s, 1) == DigitBytes(ds[1..]) + tail;
      DigitRead(ds[0]);
      NumberSnoc(done, ds[0]);
      DigitsRead(done + [ds[0]], ds[1..], tail);
      assert done + [ds[0]] + ds[1..] == done + ds;
    }
  }

  lemma HexIsDigit(b: Byte) returns (d: Digit)
    requires IsHex(b)
    ensures d.value < 16 && DigitByte(d) == b
  {
    d := Digit(AsHex(b), b <= 0x46);
  }

  lemma HexStep(s: seq<Byte>, n: nat, acc: nat)
    requires n > 0 && HexValue(s, n, acc) != -1
    ensures s != [] && IsHex(s[0]) && AsHex(s[0]) >= 0
    ensures HexValue(s[1..], n - 1, acc * 16 + AsHex(s[0])) != -1
  {
  }

  lemma DigitsCons(d: Digit, ds: seq<Digit>)
    requires d.value < 16 && GoodDigits(ds)
    ensures GoodDigits([d] + ds) && DigitBytes([d] + ds) == [DigitByte(d)] + DigitBytes(ds)
  {
    hide DigitByte;
    assert ([d] + ds)[1..] == ds;
  }

  lemma {:induction false} HexIsDigits(s: seq<Byte>, n: nat, acc: nat) returns (ds: seq<Digit>)
    requires HexValue(s, n, acc) != -1
    ensures |ds| == n && GoodDigits(ds) && |s| >= n && s == DigitBytes(ds) + s[n..]
    decreases n
  {
    hide AsHex, IsHex, DigitByte, HexValue, GoodDigits, DigitBytes;
    if n == 0 {
      ds := [];
      NoDigits(s);
    } else {
      HexStep(s, n, acc);
      var d := HexIsDigit(s[0]);
      var more := HexIsDigits(s[1..], n - 1, acc * 16 + AsHex(s[0]));
      ds := [d] + more;
      DigitsCons(d, more);
      assert s == [s[0]] + s[1..] && s[1..][n - 1..] == s[n..];
    }
  }

  lemma NoDigits(s: seq<Byte>)
    ensures GoodDigits([]) && DigitBytes([]) + s[0..] == s
  {
  }

  // ---------------------------------------------------------------- escapes

  lemma ShortOctet(k: nat)
    requires k < 18
    ensures EscapeOf(Octet(LETTERS[k])) == Text(Encode(CODES[k]))
    ensures Octet(LETTERS[k]) < 0x80 && Octet(LETTERS[k]) != 0x0A && Octet(LETTERS[k]) != 0x0D
  {
    hide EscapeOf, Octet, Encode;
    if k < 6 {
      LowShortOctet(k);
    } else if k < 12 {
      MiddleShortOctet(k);
    } else {
      HighShortOctet(k);
    }
  }

  lemma LowShortOctet(k: nat)
    requires k < 6
    ensures EscapeOf(Octet(LETTERS[k])) == Text(Encode(CODES[k]))
    ensures Octet(LETTERS[k]) < 0x80 && Octet(LETTERS[k]) != 0x0A && Octet(LETTERS[k]) != 0x0D
  {
  }

  lemma MiddleShortOctet(k: nat)
    requires 6 <= k < 12
    ensures EscapeOf(Octet(LETTERS[k])) == Text(Encode(CODES[k]))
    ensures Octet(LETTERS[k]) < 0x80 && Octet(LETTERS[k]) != 0x0A && Octet(LETTERS[k]) != 0x0D
  {
  }

  lemma HighShortOctet(k: nat)
    requires 12 <= k < 18
    ensures EscapeOf(Octet(LETTERS[k])) == Text(Encode(CODES[k]))
    ensures Octet(LETTERS[k]) < 0x80 && Octet(LETTERS[k]) != 0x0A && Octet(LETTERS[k]) != 0x0D
  {
  }

  lemma ShortRead(k: nat, tail: seq<Byte>)
    requires k < 18
    ensures var e := [0x5C, Octet(LETTERS[k])];
            !IsBreak(e[1..] + tail) && Unescape(e + tail) == Take(Encode(CODES[k]), 2)
  {
    hide HexValue, EscapeOf, Octet, Encode;
    ShortOctet(k);
    var e := [0x5C, Octet(LETTERS[k])];
    assert (e + tail)[1] == Octet(LETTERS[k]) && (e[1..] + tail)[0] == Octet(LETTERS[k]);
  }

  lemma NumericRead(ds: seq<Digit>, tail: seq<Byte>)
    requires GoodPiece(Numeric(ds), false)
    ensures var e := Bytes(Numeric(ds), false);
            |e| == 2 + |ds| && !IsBreak(e[1..] + tail) && Unescape(e + tail) == Take(Encode(Number(ds)), |e|)
  {
    hide HexValue, DigitBytes, Encode;
    var e := Bytes(Numeric(ds), false);
    var s := e + tail;
    assert s[1] == e[1] && (e[1..] + tail)[0] == e[1];
    assert Drop(s, 2) == DigitBytes(ds) + tail;
    DigitsRead([], ds, tail);
    assert [] + ds == ds;
  }

  /** An escape that is taken is one of the list or a number. */
  lemma EscapeMeans(s: seq<Byte>) returns (p: Piece)
    requires At(s, 0) == 0x5C && Unescape(s).Take?
    ensures GoodPiece(p, false) && SideAfter(p) == Inner && !IsGap(p)
    ensures |Bytes(p, false)| == Unescape(s).length && |s| >= Unescape(s).length
    ensures s == Bytes(p, false) + s[Unescape(s).length..] && Meaning(p, false) == Unescape(s).bytes
  {
    hide HexValue, Number, DigitBytes;
    assert |s| > 1;
    var e := EscapeOf(s[1]);
    if e.Text? {
      var k := ShortIndex(s[1]);
      p := Short(k);
      assert Bytes(p, false) == s[..2];
    } else {
      var ds := HexIsDigits(s[2..], e.length, 0);
      assert Drop(s, 2) == s[2..];
      p := Numeric(ds);
      assert Number([]) == 0 by { EmptyNumber(); }
      DigitsRead([], ds, s[2..][|ds|..]);
      assert [] + ds == ds;
      assert Bytes(p, false) == s[..2] + DigitBytes(ds);
      assert s[2..][|ds|..] == s[2 + |ds|..];
      assert s == s[..2] + s[2..];
    }
  }

  lemma EmptyNumber()
    ensures Number([]) == 0
  {
  }

  lemma ShortIndex(b: Byte) returns (k: nat)
    requires EscapeOf(b).Text?
    ensures k < 18 && Octet(LETTERS[k]) == b && Encode(CODES[k]) == EscapeOf(b).bytes
  {
    k := if b == 0x30 then 0 else if b == 0x61 then 1 else if b == 0x62 then 2 else if b == 0x74 then 3
         else if b == 0x09 then 4 else if b == 0x6E then 5 else if b == 0x76 then 6 else if b == 0x66 then 7
         else if b == 0x72 then 8 else if b == 0x65 then 9 else if b == 0x20 then 10 else if b == 0x22 then 11
         else if b == 0x27 then 12 else if b == 0x5C then 13 else if b == 0x4E then 14 else if b == 0x5F then 15
         else if b == 0x4C then 16 else 17;
  }

  // ---------------------------------------------------------------- gaps

  lemma {:induction false} BlanksRead(b: seq<Byte>, rest: seq<Byte>, column: nat, leading: bool, spaces: seq<Byte>,
        first: seq<Byte>, more: seq<Byte>)
    requires AllBlank(b)
    ensures Blanks(Gap(Cursor(b + rest, column), leading, spaces, first, more))
         == Blanks(Gap(Cursor(rest, column + |b|), leading, if leading then spaces else spaces + b, first, more))
    decreases |b|
  {
    hide IsBreak;
    if b == [] {
      assert b + rest == rest && spaces + b == spaces;
    } else {
      var s := b + rest;
      assert s[0] == b[0] && Drop(s, 1) == b[1..] + rest && spaces + [b[0]] + b[1..] == spaces + b;
      BlanksRead(b[1..], rest, column + 1, leading, if leading then spaces else spaces + [b[0]], first, more);
    }
  }

  lemma BreakRead(b: Break, rest: seq<Byte>)
    requires b.LoneCr? ==> At(rest, 0) != 0x0A
    ensures var s := BreakBytes(b) + rest;
            && IsBreak(s) && !IsBlank(s) && LineBreak(s) == (ReadAs(b), |BreakBytes(b)|)
            && Drop(s, |BreakBytes(b)|) == rest
  {
    var s := BreakBytes(b) + rest;
    assert s[|BreakBytes(b)|..] == rest;
    if b.LoneCr? {
      assert At(s, 1) == At(rest, 0);
    }
  }

  /** What follows a line break, seen from the break: LF only if the next line is ended by LF at once. */
  lemma LineFront(lines: seq<Line>, rest: seq<Byte>)
    requires lines != [] && GoodLines(lines) && !IsBreak(rest)
    ensures var next := lines[0].indent + LineBytes(lines[1..]) + rest;
            lines[0].end.LoneCr? ==> At(next, 0) != 0x0A
  {
    var more := LineBytes(lines[1..]);
    var next := lines[0].indent + more + rest;
    if lines[0].indent != [] {
      assert next[0] == lines[0].indent[0];
    } else if |lines| == 1 {
      assert next == rest;
    } else {
      assert next[0] == BreakBytes(lines[1].end)[0];
    }
  }

  lemma LineRead(line: Line, after: seq<Byte>, column: nat, spaces: seq<Byte>, first: seq<Byte>, more: seq<Byte>)
    requires AllBlank(line.indent) && (line.end.LoneCr? ==> At(line.indent + after, 0) != 0x0A)
    ensures var s := BreakBytes(line.end) + (line.indent + after);
            && Blanks(Gap(Cursor(s, column), true, spaces, first, more))
            == Blanks(Gap(Cursor(after, |line.indent|), true, spaces, first, more + ReadAs(line.end)))
            && Blanks(Gap(Cursor(s, column), false, spaces, [], []))
            == Blanks(Gap(Cursor(after, |line.indent|), true, [], ReadAs(line.end), []))
  {
    hide IsBreak, IsBlank, LineBreak, BreakBytes, ReadAs, AllBlank;
    BreakRead(line.end, line.indent + after);
    assert [] + ReadAs(line.end) == ReadAs(line.end);
    BlanksRead(line.indent, after, 0, true, spaces, first, more + ReadAs(line.end));
    BlanksRead(line.indent, after, 0, true, [], ReadAs(line.end), []);
  }

  lemma LinesSplit(lines: seq<Line>, rest: seq<Byte>)
    requires lines != [] && GoodLines(lines) && !IsBreak(rest)
    ensures var line, after := lines[0], LineBytes(lines[1..]) + rest;
            && LineBytes(lines) + rest == BreakBytes(line.end) + (line.indent + after) && GoodLines(lines[1..])
            && AllBlank(line.indent) && (line.end.LoneCr? ==> At(line.indent + after, 0) != 0x0A)
  {
    hide IsBreak, BreakBytes, AllBlank;
    var line, after := lines[0], LineBytes(lines[1..]) + rest;
    LineFront(lines, rest);
    assert line.indent + LineBytes(lines[1..]) + rest == line.indent + after;
    assert LineBytes(lines) + rest == BreakBytes(line.end) + (line.indent + after);
  }

  lemma {:induction false} LinesRead(lines: seq<Line>, rest: seq<Byte>, column: nat, spaces: seq<Byte>,
        first: seq<Byte>, more: seq<Byte>)
    requires GoodLines(lines) && !IsBreak(rest)
    ensures Blanks(Gap(Cursor(LineBytes(lines) + rest, column), true, spaces, first, more))
         == Blanks(Gap(Cursor(rest, if lines == [] then column else |lines[|lines| - 1].indent|), true, spaces, first,
                       more + Breaks(lines)))
    decreases |lines|
  {
    hide IsBreak, Blanks, ReadAs, AllBlank, GoodLines;
    if lines == [] {
      assert LineBytes(lines) + rest == rest && more + Breaks(lines) == more;
    } else {
      var line, after := lines[0], LineBytes(lines[1..]) + rest;
      LinesSplit(lines, rest);
      LineRead(line, after, column, spaces, first, more);
      LinesRead(lines[1..], rest, |line.indent|, spaces, first, more + ReadAs(line.end));
      assert more + ReadAs(line.end) + Breaks(lines[1..]) == more + Breaks(lines);
    }
  }

  /** The first line break of a gap is set aside. */
  lemma FirstLineRead(lines: seq<Line>, rest: seq<Byte>, column: nat, spaces: seq<Byte>)
    requires lines != [] && GoodLines(lines) && !IsBreak(rest)
    ensures Blanks(Gap(Cursor(LineBytes(lines) + rest, column), false, spaces, [], []))
         == Blanks(Gap(Cursor(rest, |lines[|lines| - 1].indent|), true, [], ReadAs(lines[0].end), Breaks(lines[1..])))
  {
    hide IsBreak, Blanks, ReadAs, AllBlank, GoodLines;
    var line, after := lines[0], LineBytes(lines[1..]) + rest;
    LinesSplit(lines, rest);
    LineRead(line, after, column, spaces, [], []);
    LinesRead(lines[1..], rest, |line.indent|, [], ReadAs(line.end), []);
    assert [] + Breaks(lines[1..]) == Breaks(lines[1..]);
  }

  // ---------------------------------------------------------------- reading what is written

  /** The column after a piece that starts at `column`. */
  ghost function ColumnAfter(p: Piece, column: nat): nat {
    match p
    case Plain(_) => column + 1
    case TwoQuotes => column + 2
    case Short(_) => column + 2
    case Numeric(ds) => column + 2 + |ds|
    case Spacing(b) => column + |b|
    case Folded(b, lines) => if lines == [] then column else |lines[|lines| - 1].indent|
    case Joined(lines) => if lines == [] then column else |lines[|lines| - 1].indent|
  }

  ghost function EndColumn(ps: seq<Piece>, column: nat): nat {
    if ps == [] then column else EndColumn(ps[1..], ColumnAfter(ps[0], column))
  }

  lemma GapStops(rest: seq<Byte>, column: nat, leading: bool, spaces: seq<Byte>, first: seq<Byte>, more: seq<Byte>)
    requires !IsBlank(rest) && !IsBreak(rest)
    ensures var g := Gap(Cursor(rest, column), leading, spaces, first, more); Blanks(g) == g
  {
  }

  lemma SpacingRead(b: seq<Byte>, single: bool, rest: seq<Byte>, column: nat, text: seq<Byte>)
    requires GoodPiece(Spacing(b), single) && !IsBlank(rest) && !IsBreak(rest)
    ensures Inside(single, Cursor(b + rest, column), text)
         == Content(single, Cursor(rest, column + |b|), text + b)
  {
    hide IsBreak, Content, NonBlank, Blanks, AllBlank;
    assert IsBlank(b + rest) by {
      assert (b + rest)[0] == b[0];
      assert AllBlank(b) && (b[0] == 0x20 || b[0] == 0x09) by { FirstBlank(b); }
    }
    InsideGap(single, Cursor(b + rest, column), text);
    BlanksRead(b, rest, column, false, [], [], []);
    assert [] + b == b;
    GapStops(rest, column + |b|, false, b, [], []);
  }

  lemma FirstBlank(b: seq<Byte>)
    requires b != [] && AllBlank(b)
    ensures b[0] == 0x20 || b[0] == 0x09
  {
  }

  lemma FoldedRead(b: seq<Byte>, lines: seq<Line>, single: bool, rest: seq<Byte>, column: nat, text: seq<Byte>)
    requires GoodPiece(Folded(b, lines), single) && !IsBlank(rest) && !IsBreak(rest)
    ensures Inside(single, Cursor(b + LineBytes(lines) + rest, column), text)
         == Content(single, Cursor(rest, |lines[|lines| - 1].indent|), text + Meaning(Folded(b, lines), single))
  {
    hide IsBreak, IsBlank, Content, NonBlank, LineBytes, Blanks, ReadAs, GoodLines, AllBlank;
    assert b + LineBytes(lines) + rest == b + (LineBytes(lines) + rest);
    FoldedFront(b, lines, rest);
    InsideGap(single, Cursor(b + LineBytes(lines) + rest, column), text);
    BlanksRead(b, LineBytes(lines) + rest, column, false, [], [], []);
    FirstLineRead(lines, rest, column + |b|, [] + b);
    var first, more := ReadAs(lines[0].end), Breaks(lines[1..]);
    GapStops(rest, |lines[|lines| - 1].indent|, true, [], first, more);
    JoinLines(text, lines, Gap(Cursor(rest, |lines[|lines| - 1].indent|), true, [], first, more));
  }

  lemma FoldedFront(b: seq<Byte>, lines: seq<Line>, rest: seq<Byte>)
    requires AllBlank(b) && lines != []
    ensures var s := b + (LineBytes(lines) + rest); IsBlank(s) || IsBreak(s)
  {
    hide AllBlank, LineBytes;
    var s := b + (LineBytes(lines) + rest);
    if b != [] {
      FirstBlank(b);
      assert s[0] == b[0];
    } else {
      LinesCons(lines);
      var after := lines[0].indent + LineBytes(lines[1..]) + rest;
      assert s == BreakBytes(lines[0].end) + after;
      BreakFront(lines[0].end, after);
    }
  }

  lemma BreakFront(b: Break, after: seq<Byte>)
    ensures IsBreak(BreakBytes(b) + after)
  {
  }

  lemma JoinLines(text: seq<Byte>, lines: seq<Line>, g: Gap)
    requires lines != [] && g.leading && g.first == ReadAs(lines[0].end) && g.more == Breaks(lines[1..])
    ensures Join(text, g) == text + (if KeepsForm(lines[0].end) then Breaks(lines)
                                     else if |lines| == 1 then [0x20]
                                     else Breaks(lines[1..]))
  {
    if KeepsForm(lines[0].end) {
      assert text + g.first + g.more == text + Breaks(lines);
    } else if |lines| > 1 {
      assert Breaks(lines[1..])[0] == ReadAs(lines[1].end)[0];
    }
  }

  lemma LinesCons(lines: seq<Line>)
    requires lines != []
    ensures LineBytes(lines) == BreakBytes(lines[0].end) + (lines[0].indent + LineBytes(lines[1..]))
  {
  }

  /** A backslash before a line break: the break and the blanks after it vanish. */
  lemma JoinedRead(lines: seq<Line>, rest: seq<Byte>, column: nat, text: seq<Byte>)
    requires GoodPiece(Joined(lines), false) && !IsBlank(rest) && !IsBreak(rest)
    ensures Inside(false, Cursor(Bytes(Joined(lines), false) + rest, column), text)
         == Content(false, Cursor(rest, ColumnAfter(Joined(lines), column)), text + Meaning(Joined(lines), false))
  {
    hide IsBreak, IsBlank, Content, NonBlank, LineBytes, Blanks, ReadAs, GoodLines, AllBlank, LineBreak;
    var line, after := lines[0], LineBytes(lines[1..]) + rest;
    LinesSplit(lines, rest);
    var s := [0x5C] + (BreakBytes(line.end) + (line.indent + after));
    assert Bytes(Joined(lines), false) + rest == s;
    BreakRead(line.end, line.indent + after);
    JoinStep(s, BreakBytes(line.end), line.indent + after, column, text);
    BlanksRead(line.indent, after, 0, true, [], [], []);
    LinesRead(lines[1..], rest, |line.indent|, [], [], []);
    assert [] + Breaks(lines[1..]) == Breaks(lines[1..]);
    GapStops(rest, |lines[|lines| - 1].indent|, true, [], [], Breaks(lines[1..]));
    assert text + [] + Breaks(lines[1..]) == text + Breaks(lines[1..]);
  }

  lemma JoinStep(s: seq<Byte>, b: seq<Byte>, after: seq<Byte>, column: nat, text: seq<Byte>)
    requires s == [0x5C] + (b + after) && IsBreak(b + after) && LineBreak(b + after).1 == |b|
    ensures Inside(false, Cursor(s, column), text) == InGap(false, text, Gap(Cursor(after, 0), true, [], [], []))
  {
    hide InGap, LineBreak, IsBreak, Unescape;
    assert s[1..] == b + after && Drop(b + after, |b|) == after;
    assert !IsBlankZ(s) by { BackslashIsText(s); }
    if At(after, 0) == 0x22 {
      var g := Gap(Cursor(after, 0), true, [], [], []);
      assert after == [0x22] + after[1..];
      QuoteIsText(after);
      GapEnd(false, text, g);
      assert Join(text, g) == text;
      InsideQuote(false, after[1..], 0, text);
      assert Drop(after, 1) == after[1..];
    }
  }

  lemma QuoteIsText(s: seq<Byte>)
    requires At(s, 0) == 0x22 || At(s, 0) == 0x27
    ensures !IsBlankZ(s) && !StartsIndicator(s)
  {
  }

  lemma BackslashIsText(s: seq<Byte>)
    requires At(s, 0) == 0x5C
    ensures !IsBlankZ(s)
  {
  }

  lemma PlainFront(c: seq<Byte>, rest: seq<Byte>)
    requires c != [] && |c| == Width(c[0])
    ensures IsBlankZ(c + rest) == IsBlankZ(c) && (c + rest)[0] == c[0]
  {
    assert forall i :: 0 <= i < |c| ==> (c + rest)[i] == c[i];
  }

  lemma PlainRead(c: seq<Byte>, single: bool, rest: seq<Byte>, column: nat, text: seq<Byte>)
    requires GoodPiece(Plain(c), single)
    ensures Inside(single, Cursor(c + rest, column), text) == Inside(single, Cursor(rest, column + 1), text + c)
  {
    hide InGap, Unescape, IsBlankZ, IsBreak;
    var s := c + rest;
    PlainFront(c, rest);
    assert s[..|c|] == c && Drop(s, |c|) == rest;
  }

  ghost function Ahead(single: bool, side: Side, at: Cursor, text: seq<Byte>): Scan {
    if side == Inner then Inside(single, at, text) else Content(single, at, text)
  }

  lemma EscapeRead(p: Piece, rest: seq<Byte>, column: nat, text: seq<Byte>)
    requires GoodPiece(p, false) && (p.Short? || p.Numeric?)
    ensures Inside(false, Cursor(Bytes(p, false) + rest, column), text)
         == Inside(false, Cursor(rest, ColumnAfter(p, column)), text + Meaning(p, false))
  {
    hide Inside, Unescape, IsBreak, DigitBytes, Encode, Number, GoodDigits;
    if p.Short? {
      ShortRead(p.k, rest);
    } else {
      NumericRead(p.digits, rest);
    }
    InsideEscape(Bytes(p, false), Meaning(p, false), rest, column, text);
  }

  lemma PieceRead(p: Piece, single: bool, rest: seq<Byte>, column: nat, text: seq<Byte>)
    requires GoodPiece(p, single) && (SideAfter(p) != Inner ==> !IsBlank(rest) && !IsBreak(rest))
    ensures Inside(single, Cursor(Bytes(p, single) + rest, column), text)
         == Ahead(single, SideAfter(p), Cursor(rest, ColumnAfter(p, column)), text + Meaning(p, single))
  {
    hide Inside, Content, IsBreak, LineBytes, DigitBytes, GoodLines, AllBlank, Encode, Number, GoodDigits;
    match p {
      case Plain(c) => PlainRead(c, single, rest, column, text);
      case TwoQuotes => InsideDoubledQuote(rest, column, text);
      case Short(k) => EscapeRead(p, rest, column, text);
      case Numeric(ds) => EscapeRead(p, rest, column, text);
      case Spacing(b) => SpacingRead(b, single, rest, column, text);
      case Folded(b, lines) => FoldedRead(b, lines, single, rest, column, text);
      case Joined(lines) => JoinedRead(lines, rest, column, text);
    }
  }

  /** The text after a side: the pieces, the closing quote and what follows it. */
  ghost function Left(ps: seq<Piece>, single: bool, side: Side, tail: seq<Byte>): seq<Byte>
    requires Proper(ps, single, side)
  {
    AllBytes(ps, single, side) + ([Quote(single)] + tail)
  }

  lemma LeftCons(ps: seq<Piece>, single: bool, side: Side, tail: seq<Byte>)
    requires Proper(ps, single, side) && ps != []
    ensures Left(ps, single, side, tail) == Bytes(ps[0], single) + Left(ps[1..], single, SideAfter(ps[0]), tail)
  {
    hide Bytes;
  }

  lemma PieceFront(p: Piece, single: bool, rest: seq<Byte>)
    requires GoodPiece(p, single) && !IsGap(p)
    ensures var s := Bytes(p, single) + rest;
            && !IsBlankZ(s)
            && (s[0] == 0x2D || s[0] == 0x2E ==> p == Plain([s[0]]))
  {
    hide LineBytes, DigitBytes, GoodLines, IsBreak;
    var s := Bytes(p, single) + rest;
    if p.Plain? {
      PlainFront(p.octets, rest);
      assert |p.octets| == 1 ==> p.octets == [s[0]];
    } else {
      assert s[0] == Bytes(p, single)[0];
      TextFront(s);
    }
  }

  lemma TextFront(s: seq<Byte>)
    requires At(s, 0) == 0x5C || At(s, 0) == 0x27 || At(s, 0) == 0x22
    ensures !IsBlankZ(s)
  {
  }

  lemma LeftFront(ps: seq<Piece>, single: bool, side: Side, tail: seq<Byte>)
    requires Proper(ps, single, side)
    ensures var s := Left(ps, single, side, tail);
            && (IsBlankZ(s) ==> ps != [] && IsGap(ps[0]))
            && (At(s, 0) == 0x2D || At(s, 0) == 0x2E ==> ps != [] && (ps[0] == Plain([At(s, 0)]) || IsGap(ps[0])))
  {
    hide IsBlankZ, Bytes, GoodPiece;
    var s := Left(ps, single, side, tail);
    if ps == [] {
      assert s == [Quote(single)] + tail;
      TextFront(s);
    } else if !IsGap(ps[0]) {
      LeftCons(ps, single, side, tail);
      PieceFront(ps[0], single, Left(ps[1..], single, SideAfter(ps[0]), tail));
    }
  }

  lemma GapFront(p: Piece, single: bool, rest: seq<Byte>)
    requires GoodPiece(p, single) && IsGap(p)
    ensures var s := Bytes(p, single) + rest; IsBlankZ(s) && At(s, 0) != 0x2D && At(s, 0) != 0x2E && !IsZ(s)
  {
    hide LineBytes, AllBlank, IsBreak, GoodLines;
    var s := Bytes(p, single) + rest;
    if p.Spacing? {
      FirstBlank(p.blanks);
      assert s[0] == p.blanks[0];
    } else {
      assert s == p.blanks + (LineBytes(p.lines) + rest);
      FoldedFront(p.blanks, p.lines, rest);
    }
    BlankFront(s);
  }

  lemma BlankFront(s: seq<Byte>)
    requires IsBlank(s) || IsBreak(s)
    ensures IsBlankZ(s) && At(s, 0) != 0x2D && At(s, 0) != 0x2E && !IsZ(s)
  {
  }

  /** A dash or a dot at the front is a piece of its own. */
  lemma DashFront(ps: seq<Piece>, single: bool, side: Side, tail: seq<Byte>)
    requires Proper(ps, single, side)
    requires var s := Left(ps, single, side, tail); At(s, 0) == 0x2D || At(s, 0) == 0x2E
    ensures var s := Left(ps, single, side, tail);
            ps != [] && ps[0] == Plain([At(s, 0)]) && Proper(ps[1..], single, Inner)
            && Drop(s, 1) == Left(ps[1..], single, Inner, tail)
  {
    hide IsBlankZ, Bytes, GoodPiece, Left;
    LeftFront(ps, single, side, tail);
    LeftCons(ps, single, side, tail);
    var rest := Left(ps[1..], single, SideAfter(ps[0]), tail);
    if IsGap(ps[0]) {
      GapFront(ps[0], single, rest);
    } else {
      var d := At(Left(ps, single, side, tail), 0);
      assert Bytes(Plain([d]), single) == [d] by { PlainBytes(d, single); }
      assert Drop([d] + rest, 1) == rest;
    }
  }

  lemma PlainBytes(d: Byte, single: bool)
    requires GoodPiece(Plain([d]), single)
    ensures Bytes(Plain([d]), single) == [d]
  {
  }

  /** At the margin, only a mark of the document looks like one. */
  lemma MarginIsText(ps: seq<Piece>, single: bool, tail: seq<Byte>)
    requires Proper(ps, single, Margin)
    ensures !StartsIndicator(Left(ps, single, Margin, tail))
  {
    hide IsBlankZ, Bytes, GoodPiece, Left;
    var s := Left(ps, single, Margin, tail);
    if StartsIndicator(s) {
      ThreeAlike(s);
      DashFront(ps, single, Margin, tail);
      DashFront(ps[1..], single, Inner, tail);
      DashFront(ps[1..][1..], single, Inner, tail);
      LeftFront(ps[1..][1..][1..], single, Inner, tail);
    }
  }

  lemma ThreeAlike(s: seq<Byte>)
    requires StartsIndicator(s)
    ensures At(Drop(s, 1), 0) == At(s, 0) && At(Drop(Drop(s, 1), 1), 0) == At(s, 0)
    ensures Drop(Drop(Drop(s, 1), 1), 1) == Drop(s, 3) && IsBlankZ(Drop(s, 3))
    ensures At(s, 0) == 0x2D || At(s, 0) == 0x2E
  {
  }

  lemma {:induction false} Reads(ps: seq<Piece>, single: bool, side: Side, column: nat, text: seq<Byte>,
        tail: seq<Byte>)
    requires Proper(ps, single, side) && (side == Margin || column > 0) && (single ==> At(tail, 0) != 0x27)
    ensures Ahead(single, side, Cursor(Left(ps, single, side, tail), column), text)
         == Token(text + AllMeaning(ps, single, side), Cursor(tail, EndColumn(ps, column) + 1))
    decreases |ps|
  {
    hide Inside, Content, Bytes, Meaning, GoodPiece, IsBlankZ, Left, StartsIndicator, IsMarker;
    var s := Left(ps, single, side, tail);
    if side != Inner {
      LeftFront(ps, single, side, tail);
      if side == Margin {
        MarginIsText(ps, single, tail);
      }
      assert !IsZ(s) by { TextIsNotZ(s); }
      TopInside(single, Cursor(s, column), text);
    }
    if ps == [] {
      assert s == [Quote(single)] + tail by { LeftNil(single, side, tail); }
      InsideQuote(single, tail, column, text);
      assert text + AllMeaning(ps, single, side) == text;
    } else {
      var next := SideAfter(ps[0]);
      var rest := Left(ps[1..], single, next, tail);
      LeftCons(ps, single, side, tail);
      LeftFront(ps[1..], single, next, tail);
      if next != Inner {
        TextIsNotZ(rest);
      }
      PieceRead(ps[0], single, rest, column, text);
      ColumnGrows(ps[0], single, column);
      Reads(ps[1..], single, next, ColumnAfter(ps[0], column), text + Meaning(ps[0], single), tail);
      assert text + Meaning(ps[0], single) + AllMeaning(ps[1..], single, next) == text + AllMeaning(ps, single, side);
    }
  }

  lemma LeftNil(single: bool, side: Side, tail: seq<Byte>)
    ensures Left([], single, side, tail) == [Quote(single)] + tail
  {
  }

  lemma TextIsNotZ(s: seq<Byte>)
    requires !IsBlankZ(s)
    ensures !IsZ(s) && !IsBlank(s) && !IsBreak(s)
  {
  }

  lemma ColumnGrows(p: Piece, single: bool, column: nat)
    requires GoodPiece(p, single)
    ensures SideAfter(p) == Margin || ColumnAfter(p, column) > 0
  {
  }

  /** A quoted scalar is read as what its pieces stand for, and the scan stops behind the closing quote. */
  lemma QuotedReads(ps: seq<Piece>, single: bool, column: nat, tail: seq<Byte>)
    requires Proper(ps, single, Inner) && (single ==> At(tail, 0) != 0x27)
    ensures ScanQuoted(single, Cursor([Quote(single)] + AllBytes(ps, single, Inner) + [Quote(single)] + tail, column))
         == Token(AllMeaning(ps, single, Inner), Cursor(tail, EndColumn(ps, column + 1) + 1))
  {
    hide Content, Inside, Proper, AllBytes, AllMeaning, EndColumn;
    var q := Quote(single);
    var s := [q] + AllBytes(ps, single, Inner) + [q] + tail;
    assert Drop(s, 1) == Left(ps, single, Inner, tail);
    var at := Cursor(Drop(s, 1), column + 1);
    if ps != [] && IsGap(ps[0]) {
      GapFirst(ps, single, column, tail);
    } else {
      LeftFront(ps, single, Inner, tail);
      TextIsNotZ(at.rest);
      TopInside(single, at, []);
    }
    Reads(ps, single, Inner, column + 1, [], tail);
    assert [] + AllMeaning(ps, single, Inner) == AllMeaning(ps, single, Inner);
  }

  lemma GapFirst(ps: seq<Piece>, single: bool, column: nat, tail: seq<Byte>)
    requires Proper(ps, single, Inner) && ps != [] && IsGap(ps[0])
    ensures var at := Cursor(Left(ps, single, Inner, tail), column + 1);
            Content(single, at, []) == Inside(single, at, [])
  {
    hide Content, Inside, Bytes, Left, IsBlankZ, IsBreak, LineBytes;
    var s := Left(ps, single, Inner, tail);
    var rest := Left(ps[1..], single, SideAfter(ps[0]), tail);
    LeftCons(ps, single, Inner, tail);
    GapFront(ps[0], single, rest);
    TopInside(single, Cursor(s, column + 1), []);
  }

  // ---------------------------------------------------------------- what is read was written so

  lemma {:induction false} SplitBlanks(s: seq<Byte>) returns (b: seq<Byte>, rest: seq<Byte>)
    ensures AllBlank(b) && s == b + rest && !IsBlank(rest)
    decreases |s|
  {
    if IsBlank(s) {
      b, rest := SplitBlanks(s[1..]);
      b := [s[0]] + b;
    } else {
      b, rest := [], s;
    }
  }

  lemma SplitBreak(s: seq<Byte>) returns (b: Break, rest: seq<Byte>)
    requires IsBreak(s)
    ensures s == BreakBytes(b) + rest && (b.LoneCr? ==> At(rest, 0) != 0x0A)
  {
    if s[0] == 0x0A {
      b := Lf;
    } else if s[0] == 0xC2 {
      b := Nel;
    } else if s[0] == 0xE2 {
      b := if s[2] == 0xA8 then Ls else Ps;
    } else {
      b := if At(s, 1) == 0x0A then CrLf else LoneCr;
    }
    rest := s[|BreakBytes(b)|..];
    assert s[..|BreakBytes(b)|] == BreakBytes(b);
  }

  lemma {:induction false} SplitLines(s: seq<Byte>) returns (lines: seq<Line>, rest: seq<Byte>)
    requires !IsBlank(s)
    ensures GoodLines(lines) && s == LineBytes(lines) + rest && !IsBlank(rest) && !IsBreak(rest)
    decreases |s|
  {
    hide IsBreak, IsBlank, BreakBytes, AllBlank;
    if IsBreak(s) {
      var b, after := SplitBreak(s);
      var indent, next := SplitBlanks(after);
      var more;
      more, rest := SplitLines(next);
      lines := [Line(b, indent)] + more;
      assert lines[1..] == more;
      LineFollows(b, indent, more, rest);
      assert s == LineBytes(lines) + rest;
    } else {
      lines, rest := [], s;
    }
  }

  lemma LineFollows(b: Break, indent: seq<Byte>, more: seq<Line>, rest: seq<Byte>)
    requires b.LoneCr? ==> At(indent + (LineBytes(more) + rest), 0) != 0x0A
    ensures !(b.LoneCr? && indent == [] && more != [] && more[0].end.Lf?)
  {
  }

  /** The gap at the front of a text. */
  lemma SplitGap(s: seq<Byte>, single: bool) returns (p: Piece, rest: seq<Byte>)
    requires IsBlank(s) || IsBreak(s)
    ensures GoodPiece(p, single) && IsGap(p) && s == Bytes(p, single) + rest && |rest| < |s|
    ensures !IsBlank(rest) && !IsBreak(rest)
  {
    hide IsBreak, LineBytes, AllBlank, GoodLines;
    var b, after := SplitBlanks(s);
    var lines;
    lines, rest := SplitLines(after);
    p := if lines == [] then Spacing(b) else Folded(b, lines);
    if lines == [] {
      assert LineBytes(lines) + rest == rest by { NoLines(rest); }
      assert s == b + rest;
    } else {
      LinesCons(lines);
      assert s == b + LineBytes(lines) + rest;
    }
  }

  lemma NoLines(rest: seq<Byte>)
    ensures LineBytes([]) + rest == rest
  {
  }

  lemma SplitJoined(s: seq<Byte>) returns (p: Piece, rest: seq<Byte>)
    requires At(s, 0) == 0x5C && IsBreak(s[1..])
    ensures GoodPiece(p, false) && p.Joined? && s == Bytes(p, false) + rest && |rest| < |s|
    ensures !IsBlank(rest) && !IsBreak(rest)
  {
    hide IsBreak, LineBytes, AllBlank, GoodLines;
    assert !IsBlank(s[1..]) by { BreakIsNoBlank(s[1..]); }
    var lines;
    lines, rest := SplitLines(s[1..]);
    if lines == [] {
      NoLines(rest);
    }
    p := Joined(lines);
    assert s == [0x5C] + s[1..];
    assert s == [0x5C] + LineBytes(lines) + rest;
  }

  lemma BreakIsNoBlank(s: seq<Byte>)
    requires IsBreak(s)
    ensures !IsBlank(s)
  {
  }

  lemma ZFails(single: bool, at: Cursor, text: seq<Byte>)
    requires IsZ(at.rest)
    ensures Inside(single, at, text).Error?
  {
  }

  /** A scan that succeeds takes a piece, unless it is at the closing quote. */
  lemma NextPiece(single: bool, at: Cursor, text: seq<Byte>) returns (p: Piece, rest: seq<Byte>)
    requires Inside(single, at, text).Token?
    requires !(At(at.rest, 0) == Quote(single) && !(single && At(at.rest, 1) == 0x27))
    ensures GoodPiece(p, single) && at.rest == Bytes(p, single) + rest && |rest| < |at.rest|
    ensures SideAfter(p) != Inner ==> !IsBlank(rest) && !IsBreak(rest)
  {
    hide IsBreak, Unescape, InGap, LineBytes, DigitBytes, GoodLines, AllBlank, Number, GoodDigits;
    var s := at.rest;
    if IsZ(s) {
      ZFails(single, at, text);
    } else if IsBlank(s) || IsBreak(s) {
      p, rest := SplitGap(s, single);
    } else if single && s[0] == 0x27 {
      p, rest := TwoQuotes, s[2..];
      assert s == [0x27, 0x27] + rest;
    } else if !single && s[0] == 0x5C {
      if IsBreak(s[1..]) {
        p, rest := SplitJoined(s);
      } else {
        p := EscapeMeans(s);
        rest := s[Unescape(s).length..];
      }
    } else {
      p, rest := Plain(s[..Width(s[0])]), s[Width(s[0])..];
      PlainFront(s[..Width(s[0])], rest);
      assert s[..Width(s[0])] + rest == s;
    }
  }

  lemma MarkerIsIndicator(ps: seq<Piece>, single: bool, tail: seq<Byte>)
    requires Proper(ps, single, Inner) && IsMarker(ps)
    ensures StartsIndicator(Left(ps, single, Inner, tail))
  {
    hide Bytes, GoodPiece, IsBlankZ, Left;
    var p1, p2, p3 := ps[1..], ps[1..][1..], ps[1..][1..][1..];
    var d := ps[0].octets[0];
    assert Bytes(ps[0], single) == [d] by { PlainBytes(d, single); }
    LeftCons(ps, single, Inner, tail);
    LeftCons(p1, single, Inner, tail);
    LeftCons(p2, single, Inner, tail);
    LeftCons(p3, single, Inner, tail);
    var rest := Left(p3, single, Inner, tail);
    var s := Left(ps, single, Inner, tail);
    assert s == [d, d, d] + rest && Drop(s, 3) == rest;
    GapFront(p3[0], single, Left(p3[1..], single, SideAfter(p3[0]), tail));
  }

  lemma {:induction false} InsideMeans(single: bool, at: Cursor, text: seq<Byte>) returns (ps: seq<Piece>)
    requires Inside(single, at, text).Token?
    ensures var r := Inside(single, at, text);
            && Proper(ps, single, Inner) && at.rest == Left(ps, single, Inner, r.at.rest)
            && r.value == text + AllMeaning(ps, single, Inner) && (single ==> At(r.at.rest, 0) != 0x27)
    decreases |at.rest|, 0
  {
    hide Inside, Content, GoodPiece, Bytes, Meaning, Left, IsBreak, SideAfter, ColumnAfter;
    if At(at.rest, 0) == Quote(single) && !(single && At(at.rest, 1) == 0x27) {
      ps := [];
      var tail := at.rest[1..];
      assert at.rest == [Quote(single)] + tail && At(tail, 0) == At(at.rest, 1);
      InsideQuote(single, tail, at.column, text);
      LeftNil(single, Inner, tail);
      assert text + AllMeaning([], single, Inner) == text;
    } else {
      var p, rest := NextPiece(single, at, text);
      var side, column, text' := SideAfter(p), ColumnAfter(p, at.column), text + Meaning(p, single);
      PieceRead(p, single, rest, at.column, text);
      MarginColumn(p, at.column);
      var more := AheadMeans(single, side, Cursor(rest, column), text');
      ps := [p] + more;
      assert ps[1..] == more;
      var r := Inside(single, at, text);
      assert Proper(ps, single, Inner);
      LeftCons(ps, single, Inner, r.at.rest);
      assert text' + AllMeaning(more, single, side) == text + AllMeaning(ps, single, Inner);
    }
  }

  lemma {:induction false} AheadMeans(single: bool, side: Side, at: Cursor, text: seq<Byte>)
    returns (ps: seq<Piece>)
    requires Ahead(single, side, at, text).Token?
    requires side != Inner ==> !IsBlank(at.rest) && !IsBreak(at.rest)
    requires side == Margin ==> at.column == 0
    ensures var r := Ahead(single, side, at, text);
            && Proper(ps, single, side) && at.rest == Left(ps, single, side, r.at.rest)
            && r.value == text + AllMeaning(ps, single, side) && (single ==> At(r.at.rest, 0) != 0x27)
    decreases |at.rest|, 1
  {
    hide Inside, Content, GoodPiece, Left, IsBreak, Proper, AllMeaning, StartsIndicator;
    if side == Inner {
      ps := InsideMeans(single, at, text);
    } else {
      ContentChecks(single, at, text);
      TopInside(single, at, text);
      ps := InsideMeans(single, at, text);
      SideOf(ps, single, side, Inside(single, at, text).at.rest);
    }
  }

  lemma MarginColumn(p: Piece, column: nat)
    ensures SideAfter(p) == Margin ==> ColumnAfter(p, column) == 0
  {
  }

  lemma ContentChecks(single: bool, at: Cursor, text: seq<Byte>)
    requires Content(single, at, text).Token?
    ensures !IsZ(at.rest) && (at.column > 0 || !StartsIndicator(at.rest))
  {
  }

  /** What is proper inside text is proper after a gap, if it does not start as a gap or a mark. */
  lemma SideOf(ps: seq<Piece>, single: bool, side: Side, tail: seq<Byte>)
    requires Proper(ps, single, Inner)
    requires var s := Left(ps, single, Inner, tail);
             !IsBlank(s) && !IsBreak(s) && (side == Margin ==> !StartsIndicator(s))
    ensures Proper(ps, single, side) && Left(ps, single, side, tail) == Left(ps, single, Inner, tail)
    ensures AllMeaning(ps, single, side) == AllMeaning(ps, single, Inner)
  {
    hide Bytes, GoodPiece, IsBreak, StartsIndicator, Meaning, IsMarker;
    if ps != [] && IsGap(ps[0]) {
      LeftCons(ps, single, Inner, tail);
      GapFront(ps[0], single, Left(ps[1..], single, SideAfter(ps[0]), tail));
    }
    if side == Margin && IsMarker(ps) {
      MarkerIsIndicator(ps, single, tail);
    }
  }

  /** Whatever is read is a text of the grammar, read as it says. */
  lemma QuotedMeans(single: bool, at: Cursor) returns (ps: seq<Piece>)
    requires At(at.rest, 0) == Quote(single) && ScanQuoted(single, at).Token?
    ensures var r := ScanQuoted(single, at);
            && Proper(ps, single, Inner) && r.value == AllMeaning(ps, single, Inner)
            && at.rest == [Quote(single)] + AllBytes(ps, single, Inner) + [Quote(single)] + r.at.rest
            && (single ==> At(r.at.rest, 0) != 0x27)
  {
    hide Content, Inside, Proper, AllBytes, AllMeaning;
    var after := Advance(at, 1, 1);
    ContentChecks(single, after, []);
    TopInside(single, after, []);
    ps := InsideMeans(single, after, []);
    assert [] + AllMeaning(ps, single, Inner) == AllMeaning(ps, single, Inner);
    assert at.rest == [Quote(single)] + after.rest;
  }

  ghost predicate Written(s: seq<Byte>, single: bool, ps: seq<Piece>, tail: seq<Byte>) {
    && Proper(ps, single, Inner) && (single ==> At(tail, 0) != 0x27)
    && s == [Quote(single)] + AllBytes(ps, single, Inner) + [Quote(single)] + tail
  }

  /** A scan succeeds if and only if the input starts with a scalar of the grammar. */
  lemma QuotedIff(single: bool, at: Cursor)
    requires At(at.rest, 0) == Quote(single)
    ensures ScanQuoted(single, at).Token? <==> exists ps, tail :: Written(at.rest, single, ps, tail)
  {
    hide Proper, AllBytes, AllMeaning, ScanQuoted, EndColumn;
    if ScanQuoted(single, at).Token? {
      var ps := QuotedMeans(single, at);
      assert Written(at.rest, single, ps, ScanQuoted(single, at).at.rest);
    }
    if exists ps, tail :: Written(at.rest, single, ps, tail) {
      var ps, tail :| Written(at.rest, single, ps, tail);
      QuotedReads(ps, single, at.column, tail);
    }
  }
}
