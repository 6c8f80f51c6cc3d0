/**
 Writing of quoted scalars: the single- and double-quoted writers, `write_indent`,
 `write_indicator` and the part of `analyze_scalar` that decides whether the single-quoted
 style may be used (gopkg.in/yaml.v2/emitterc.go).

 `DoubleBody` and `SingleBody` give the text between the quotes, character by character from
 the front of the value; class `Writer` runs the source's index loops and is proved to
 produce that text.
 */
module QuotedWriter {
  import opened YamlChars

  datatype BreakStyle = CR | LN | CRLN

  /** The emitter settings that a scalar writer reads. */
  datatype Layout = Layout(indent: int, bestWidth: int, unicode: bool, style: BreakStyle)

  /** The emitter fields that a scalar writer reads and changes. */
  datatype Pen = Pen(column: int, whitespace: bool, indention: bool)

  function BreakText(style: BreakStyle): (t: seq<Byte>)
    ensures |t| >= 1
  {
    match style
    case CR => [0x0D]
    case LN => [0x0A]
    case CRLN => [0x0D, 0x0A]
  }

  function Spaces(n: int): (t: seq<Byte>)
    ensures |t| == if n < 0 then 0 else n
    ensures forall i :: 0 <= i < |t| ==> t[i] == 0x20
  {
    if n <= 0 then [] else [0x20] + Spaces(n - 1)
  }

  lemma SpacesSnoc(n: nat)
    ensures Spaces(n + 1) == Spaces(n) + [0x20]
  {
  }

  function IndentColumn(l: Layout): nat { if l.indent < 0 then 0 else l.indent }

  predicate IndentBreaks(l: Layout, p: Pen) {
    !p.indention || p.column > IndentColumn(l) || (p.column == IndentColumn(l) && !p.whitespace)
  }

  /** What `write_indent` writes. */
  function IndentText(l: Layout, p: Pen): seq<Byte> {
    if IndentBreaks(l, p) then BreakText(l.style) + Spaces(IndentColumn(l))
    else Spaces(IndentColumn(l) - p.column)
  }

  /** Where `write_indent` leaves the pen. */
  function IndentPen(l: Layout): Pen { Pen(IndentColumn(l), true, true) }

  // ---------------------------------------------------------------- double quotes

  function HexDigit(d: int): Byte
    requires 0 <= d < 16
  {
    if d < 10 then d + 0x30 else d + 0x41 - 10
  }

  function Pow16(k: nat): (p: nat)
    ensures p >= 1
  {
    if k == 0 then 1 else 16 * Pow16(k - 1)
  }

  /** The last `n` hexadecimal digits of `v`, most significant first. */
  function HexText(v: nat, n: nat): (t: seq<Byte>)
    ensures |t| == n
  {
    if n == 0 then [] else [HexDigit(v / Pow16(n - 1) % 16)] + HexText(v, n - 1)
  }

  /** The letter of a one-letter escape (section 5.7 of YAML 1.2), 0 when there is none. */
  function EscapeLetter(v: int): Byte {
    match v
    case 0x00 => 0x30
    case 0x07 => 0x61
    case 0x08 => 0x62
    case 0x09 => 0x74
    case 0x0A => 0x6E
    case 0x0B => 0x76
    case 0x0C => 0x66
    case 0x0D => 0x72
    case 0x1B => 0x65
    case 0x22 => 0x22
    case 0x5C => 0x5C
    case 0x85 => 0x4E
    case 0xA0 => 0x5F
    case 0x2028 => 0x4C
    case 0x2029 => 0x50
    case _ => 0
  }

  /** The number of hexadecimal digits that an escape needs. */
  function HexLength(v: int): nat {
    if EscapeLetter(v) != 0 then 0 else if v <= 0xFF then 2 else if v <= 0xFFFF then 4 else 8
  }

  function EscapeMark(v: int): Byte {
    match HexLength(v)
    case 0 => EscapeLetter(v)
    case 2 => 0x78
    case 4 => 0x75
    case _ => 0x55
  }

  function EscapeText(v: nat): (t: seq<Byte>)
    ensures |t| == 2 + HexLength(v) && t[0] == 0x5C
  {
    [0x5C, EscapeMark(v)] + HexText(v, HexLength(v))
  }

  predicate NeedsEscape(l: Layout, bom: bool, v: seq<Byte>) {
    || !IsPrintable(v) || (!l.unicode && !IsAscii(v)) || bom || IsBreak(v)
    || At(v, 0) == 0x22 || At(v, 0) == 0x5C
  }

  /** The guard under which a space is replaced by a line break. */
  predicate DoubleFolds(l: Layout, allowBreaks: bool, start: bool, v: seq<Byte>, p: Pen, spaces: bool) {
    allowBreaks && !spaces && p.column > l.bestWidth && !start && |v| > 1
  }

  /** The protecting backslash in front of a space that would follow the indentation. */
  function Guard(v: seq<Byte>): seq<Byte> {
    if IsSpace(v) then [0x5C] else []
  }

  function Moved(p: Pen, n: int): Pen { p.(column := p.column + n) }

  /** What one turn of a writer's loop writes, and the state that it leaves. */
  datatype Turn = Turn(text: seq<Byte>, pen: Pen, spaces: bool, breaks: bool)

  function DoubleTurn(l: Layout, allowBreaks: bool, bom: bool, start: bool, v: seq<Byte>, p: Pen, spaces: bool): Turn
    requires v != [] && ValidUtf8(v)
  {
    var c := Head(v);
    if NeedsEscape(l, bom, v) then
      EncodeInverse(c);
      var e := EscapeText(Decode(c));
      Turn(e, Moved(p, |e|), false, false)
    else if IsSpace(v) && DoubleFolds(l, allowBreaks, start, v, p, spaces) then
      Turn(IndentText(l, p) + Guard(v[1..]), Moved(IndentPen(l), |Guard(v[1..])|), true, false)
    else
      Turn(c, Moved(p, 1), IsSpace(v), false)
  }

  /** The text for `v`, the part of the value still to be written. */
  function DoubleBody(l: Layout, allowBreaks: bool, bom: bool, start: bool, v: seq<Byte>, p: Pen,
        spaces: bool): seq<Byte>
    requires ValidUtf8(v)
    decreases |v|
  {
    if v == [] then []
    else
      var t := DoubleTurn(l, allowBreaks, bom, start, v, p, spaces);
      t.text + DoubleBody(l, allowBreaks, bom, false, v[|Head(v)|..], t.pen, t.spaces)
  }

  // ---------------------------------------------------------------- single quotes

  predicate SingleFolds(l: Layout, allowBreaks: bool, start: bool, v: seq<Byte>, p: Pen, spaces: bool) {
    allowBreaks && !spaces && p.column > l.bestWidth && !start && |v| > 1 && !IsSpace(v[1..])
  }

  /** What a line break of the value becomes; the first LF of a run is written twice. */
  function SingleBreak(l: Layout, c: seq<Byte>, breaks: bool): seq<Byte> {
    if At(c, 0) == 0x0A then (if breaks then [] else BreakText(l.style)) + BreakText(l.style) else c
  }

  function Doubled(c: seq<Byte>): seq<Byte> {
    if At(c, 0) == 0x27 then [0x27] + c else c
  }

  function SingleTurn(l: Layout, allowBreaks: bool, start: bool, v: seq<Byte>, p: Pen, spaces: bool, breaks: bool): Turn
    requires v != [] && ValidUtf8(v)
  {
    var c := Head(v);
    if IsSpace(v) then
      if SingleFolds(l, allowBreaks, start, v, p, spaces) then Turn(IndentText(l, p), IndentPen(l), true, breaks)
      else Turn(c, Moved(p, 1), true, breaks)
    else if IsBreak(v) then
      Turn(SingleBreak(l, c, breaks), Pen(0, p.whitespace, true), spaces, true)
    else
      var q := if breaks then IndentPen(l) else p;
      Turn((if breaks then IndentText(l, p) else []) + Doubled(c),
           Pen(q.column + (if At(v, 0) == 0x27 then 2 else 1), q.whitespace, false), false, false)
  }

  function SingleBody(l: Layout, allowBreaks: bool, start: bool, v: seq<Byte>, p: Pen, spaces: bool,
        breaks: bool): seq<Byte>
    requires ValidUtf8(v)
    decreases |v|
  {
    if v == [] then []
    else
      var t := SingleTurn(l, allowBreaks, start, v, p, spaces, breaks);
      t.text + SingleBody(l, allowBreaks, false, v[|Head(v)|..], t.pen, t.spaces, t.breaks)
  }

  /** `single_quoted_allowed`: only plain characters, and no space next to a line break. */
  predicate SingleAllowed(unicode: bool, v: seq<Byte>)
    requires ValidUtf8(v)
    decreases |v|
  {
    v == [] ||
    (var rest := v[|Head(v)|..];
     && IsPrintable(v) && (unicode || IsAscii(v))
     && !(IsSpace(v) && IsBreak(rest)) && !(IsBreak(v) && IsSpace(rest))
     && SingleAllowed(unicode, rest))
  }

  // ---------------------------------------------------------------- whole scalars

  /** The space that separates the scalar from what was written before it. */
  function Lead(p: Pen): seq<Byte> { if p.whitespace then [] else [0x20] }

  function Opened(p: Pen): Pen { Pen(p.column + |Lead(p)| + 1, false, false) }

  function DoubleQuoted(l: Layout, allowBreaks: bool, v: seq<Byte>, p: Pen): seq<Byte>
    requires ValidUtf8(v)
  {
    [0x22] + DoubleBody(l, allowBreaks, StartsWithBom(v), true, v, Opened(p), false) + [0x22]
  }

  function SingleQuoted(l: Layout, allowBreaks: bool, v: seq<Byte>, p: Pen): seq<Byte>
    requires ValidUtf8(v)
  {
    [0x27] + SingleBody(l, allowBreaks, true, v, Opened(p), false, false) + [0x27]
  }

  // ---------------------------------------------------------------- the emitter itself

  lemma ValidSuffix(v: seq<Byte>, i: nat)
    requires i < |v| && ValidUtf8(v[i..])
    ensures var w := Width(v[i]);
            && 1 <= w && i + w <= |v| && Head(v[i..]) == v[i..i + w]
            && v[i..][w..] == v[i + w..] && ValidUtf8(v[i + w..])
  {
    var w := Width(v[i]);
    assert v[i..][..w] == v[i..i + w];
    assert v[i..][w..] == v[i + w..];
  }

  /** `done` and what is still to be written from `i` on make up `body`. */
  ghost predicate DoubleLeft(body: seq<Byte>, done: seq<Byte>, l: Layout, allowBreaks: bool, bom: bool, start: bool,
        v: seq<Byte>, i: nat, p: Pen, spaces: bool) {
    i <= |v| && ValidUtf8(v[i..]) && body == done + DoubleBody(l, allowBreaks, bom, start, v[i..], p, spaces)
  }

  lemma DoubleUnroll(body: seq<Byte>, done: seq<Byte>, l: Layout, allowBreaks: bool, bom: bool, start: bool,
        v: seq<Byte>, i: nat, p: Pen, spaces: bool)
    requires i < |v| && DoubleLeft(body, done, l, allowBreaks, bom, start, v, i, p, spaces)
    ensures ValidUtf8(v[i..])
    ensures var t := DoubleTurn(l, allowBreaks, bom, start, v[i..], p, spaces);
            DoubleLeft(body, done + t.text, l, allowBreaks, bom, false, v, i + |Head(v[i..])|, t.pen, t.spaces)
  {
    hide DoubleTurn, IsChar;
    ValidSuffix(v, i);
  }

  ghost predicate SingleLeft(body: seq<Byte>, done: seq<Byte>, l: Layout, allowBreaks: bool, start: bool, v: seq<Byte>,
        i: nat, p: Pen, spaces: bool, breaks: bool) {
    i <= |v| && ValidUtf8(v[i..]) && body == done + SingleBody(l, allowBreaks, start, v[i..], p, spaces, breaks)
  }

  lemma SingleUnroll(body: seq<Byte>, done: seq<Byte>, l: Layout, allowBreaks: bool, start: bool, v: seq<Byte>, i: nat,
        p: Pen, spaces: bool, breaks: bool)
    requires i < |v| && SingleLeft(body, done, l, allowBreaks, start, v, i, p, spaces, breaks)
    ensures ValidUtf8(v[i..])
    ensures var t := SingleTurn(l, allowBreaks, start, v[i..], p, spaces, breaks);
            SingleLeft(body, done + t.text, l, allowBreaks, false, v, i + |Head(v[i..])|, t.pen, t.spaces, t.breaks)
  {
    hide SingleTurn, IsChar;
    ValidSuffix(v, i);
  }

  lemma Assemble(before: seq<Byte>, lead: seq<Byte>, q: Byte, body: seq<Byte>)
    ensures before + lead + [q] + body + [q] == before + lead + ([q] + body + [q])
  {
  }

  predicate HasBreak(v: seq<Byte>)
    requires ValidUtf8(v)
    decreases |v|
  {
    v != [] && (IsBreak(v) || HasBreak(v[|Head(v)|..]))
  }

  /** The flags of `analyze_scalar` that concern line breaks and the single-quoted style. */
  method AnalyzeScalar(unicode: bool, v: seq<Byte>) returns (multiline: bool, singleQuotedAllowed: bool)
    requires ValidUtf8(v)
    ensures multiline <==> HasBreak(v)
    ensures singleQuotedAllowed <==> SingleAllowed(unicode, v)
  {
    hide IsPrintable, IsBreak, IsSpace, HasBreak, SingleAllowed, ValidUtf8;
    var lineBreaks, special, breakSpace, spaceBreak := false, false, false, false;
    var previousSpace, previousBreak := false, false;
    var i := 0;
    assert v[0..] == v;
    NothingLeft();
    while i < |v|
      invariant 0 <= i <= |v| && ValidUtf8(v[i..])
      invariant HasBreak(v) <==> lineBreaks || HasBreak(v[i..])
      invariant SingleAllowed(unicode, v) <==>
                && !special && !breakSpace && !spaceBreak && SingleAllowed(unicode, v[i..])
                && !(previousSpace && IsBreak(v[i..])) && !(previousBreak && IsSpace(v[i..]))
    {
      ValidSuffix(v, i);
      FrontFlags(unicode, v[i..]);
      if !IsPrintable(v[i..]) || (!IsAscii(v[i..]) && !unicode) {
        special := true;
      }
      if IsSpace(v[i..]) {
        if previousBreak {
          breakSpace := true;
        }
        previousSpace, previousBreak := true, false;
      } else if IsBreak(v[i..]) {
        lineBreaks := true;
        if previousSpace {
          spaceBreak := true;
        }
        previousSpace, previousBreak := false, true;
      } else {
        previousSpace, previousBreak := false, false;
      }
      i := i + Width(v[i]);
    }
    assert v[i..] == [];
    multiline := lineBreaks;
    singleQuotedAllowed := !breakSpace && !spaceBreak && !special;
  }

  lemma NothingLeft()
    ensures ValidUtf8([]) && !HasBreak([]) && SingleAllowed(false, []) && SingleAllowed(true, []) && !IsBreak([])
    ensures !IsSpace([])
  {
  }

  /** What the first character adds to the flags of the rest. */
  lemma FrontFlags(unicode: bool, v: seq<Byte>)
    requires v != [] && ValidUtf8(v)
    ensures ValidUtf8(v[|Head(v)|..]) && !(IsSpace(v) && IsBreak(v))
    ensures HasBreak(v) <==> IsBreak(v) || HasBreak(v[|Head(v)|..])
    ensures SingleAllowed(unicode, v) <==>
      && IsPrintable(v) && (unicode || IsAscii(v)) && SingleAllowed(unicode, v[|Head(v)|..])
      && !(IsSpace(v) && IsBreak(v[|Head(v)|..])) && !(IsBreak(v) && IsSpace(v[|Head(v)|..]))
  {
    hide IsPrintable, IsChar;
  }

  class Writer {
    const layout: Layout
    var out: seq<Byte>
    var column: int
    var whitespace: bool
    var indention: bool

    constructor (layout: Layout, p: Pen)
      ensures this.layout == layout && out == [] && Now() == p
    {
      this.layout := layout;
      out, column, whitespace, indention := [], p.column, p.whitespace, p.indention;
    }

    function Now(): Pen
      reads this
    {
      Pen(column, whitespace, indention)
    }

    method Put(b: Byte)
      modifies this
      ensures out == old(out) + [b] && Now() == Moved(old(Now()), 1)
    {
      out := out + [b];
      column := column + 1;
    }

    method PutBreak()
      modifies this
      ensures out == old(out) + BreakText(layout.style) && Now() == old(Now()).(column := 0)
    {
      match layout.style {
        case CR => out := out + [0x0D];
        case LN => out := out + [0x0A];
        case CRLN => out := out + [0x0D, 0x0A];
      }
      column := 0;
    }

    /** `write`: copies the character at `i`. */
    method WriteChar(v: seq<Byte>, i: nat) returns (j: nat)
      requires i < |v| && ValidUtf8(v[i..])
      modifies this
      ensures j == i + Width(v[i]) && i < j <= |v| && ValidUtf8(v[j..])
      ensures out == old(out) + Head(v[i..]) && Now() == Moved(old(Now()), 1)
    {
      ValidSuffix(v, i);
      j := i + Width(v[i]);
      out := out + v[i..j];
      column := column + 1;
    }

    method WriteIndent()
      modifies this
      ensures out == old(out) + IndentText(layout, old(Now())) && Now() == IndentPen(layout)
    {
      var indent := if layout.indent < 0 then 0 else layout.indent;
      if !indention || column > indent || (column == indent && !whitespace) {
        PutBreak();
      }
      ghost var before, from := out, column;
      while column < indent
        invariant from <= column <= indent
        invariant out == before + Spaces(column - from)
      {
        SpacesSnoc(column - from);
        Put(0x20);
      }
      whitespace := true;
      indention := true;
    }

    method WriteQuote(q: Byte, needWhitespace: bool)
      modifies this
      ensures out == old(out) + (if needWhitespace then Lead(old(Now())) else []) + [q]
      ensures Now() == Pen(old(column) + (if needWhitespace then |Lead(old(Now()))| else 0) + 1, false, false)
    {
      if needWhitespace && !whitespace {
        Put(0x20);
      }
      Put(q);
      whitespace := false;
      indention := false;
    }

    method WriteHex(v: nat, n: nat)
      modifies this
      ensures out == old(out) + HexText(v, n) && Now() == Moved(old(Now()), n)
    {
      var k := n;
      while k > 0
        invariant 0 <= k <= n
        invariant out + HexText(v, k) == old(out) + HexText(v, n)
        invariant Now() == Moved(old(Now()), n - k)
      {
        k := k - 1;
        Put(HexDigit(v / Pow16(k) % 16));
      }
    }

    method WriteEscape(v: nat)
      modifies this
      ensures out == old(out) + EscapeText(v) && Now() == Moved(old(Now()), |EscapeText(v)|)
    {
      hide HexText;
      Put(0x5C);
      Put(EscapeMark(v));
      WriteHex(v, HexLength(v));
    }

    /** One turn of the double-quoted loop. */
    method DoubleStep(v: seq<Byte>, i: nat, allowBreaks: bool, bom: bool, spaces: bool) returns (j: nat, spaces': bool)
      requires i < |v| && ValidUtf8(v[i..])
      modifies this
      ensures var t := DoubleTurn(layout, allowBreaks, bom, i == 0, v[i..], old(Now()), spaces);
              j == i + |Head(v[i..])| && out == old(out) + t.text && Now() == t.pen && spaces' == t.spaces
    {
      hide NeedsEscape, EscapeText, IsChar, Decode, IndentText;
      ValidSuffix(v, i);
      if NeedsEscape(layout, bom, v[i..]) {
        var c := v[i..i + Width(v[i])];
        EncodeInverse(c);
        WriteEscape(Decode(c));
        j, spaces' := i + |c|, false;
      } else if IsSpace(v[i..]) {
        if allowBreaks && !spaces && column > layout.bestWidth && i > 0 && i < |v| - 1 {
          WriteIndent();
          assert v[i..][1..] == v[i + 1..];
          if IsSpace(v[i + 1..]) {
            Put(0x5C);
          }
          j := i + 1;
        } else {
          j := WriteChar(v, i);
        }
        spaces' := true;
      } else {
        j := WriteChar(v, i);
        spaces' := false;
      }
    }

    method WriteDoubleBody(v: seq<Byte>, allowBreaks: bool)
      requires ValidUtf8(v)
      modifies this
      ensures out == old(out) + DoubleBody(layout, allowBreaks, StartsWithBom(v), true, v, old(Now()), false)
    {
      hide DoubleTurn, ValidUtf8, StartsWithBom, Head;
      var bom, spaces, i := StartsWithBom(v), false, 0;
      ghost var body, done := DoubleBody(layout, allowBreaks, bom, true, v, Now(), false), [];
      assert v[0..] == v;
      while i < |v|
        invariant i <= |v| && out == old(out) + done
        invariant DoubleLeft(body, done, layout, allowBreaks, bom, i == 0, v, i, Now(), spaces)
      {
        hide DoubleLeft;
        DoubleUnroll(body, done, layout, allowBreaks, bom, i == 0, v, i, Now(), spaces);
        done := done + DoubleTurn(layout, allowBreaks, bom, i == 0, v[i..], Now(), spaces).text;
        i, spaces := DoubleStep(v, i, allowBreaks, bom, spaces);
      }
      assert v[i..] == [] && done == body;
    }

    method WriteDoubleQuoted(v: seq<Byte>, allowBreaks: bool)
      requires ValidUtf8(v)
      modifies this
      ensures out == old(out) + Lead(old(Now())) + DoubleQuoted(layout, allowBreaks, v, old(Now()))
      ensures !whitespace && !indention
    {
      hide DoubleBody;
      WriteQuote(0x22, true);
      ghost var body := DoubleBody(layout, allowBreaks, StartsWithBom(v), true, v, Now(), false);
      WriteDoubleBody(v, allowBreaks);
      WriteQuote(0x22, false);
      Assemble(old(out), Lead(old(Now())), 0x22, body);
    }

    /** The line break at `i`, doubled when it is the first LF of a run. */
    method WriteSingleBreak(v: seq<Byte>, i: nat, breaks: bool) returns (j: nat)
      requires i < |v| && ValidUtf8(v[i..]) && IsBreak(v[i..])
      modifies this
      ensures j == i + |Head(v[i..])| && out == old(out) + SingleBreak(layout, Head(v[i..]), breaks)
      ensures Now() == Pen(0, old(whitespace), true)
    {
      ValidSuffix(v, i);
      if !breaks && v[i] == 0x0A {
        PutBreak();
      }
      if v[i] == 0x0A {
        PutBreak();
        j := i + 1;
      } else {
        j := WriteChar(v, i);
        column := 0;
      }
      indention := true;
    }

    /** The ordinary character at `i`, with a quote doubled. */
    method WriteDoubled(v: seq<Byte>, i: nat) returns (j: nat)
      requires i < |v| && ValidUtf8(v[i..])
      modifies this
      ensures j == i + |Head(v[i..])| && out == old(out) + Doubled(Head(v[i..]))
      ensures Now() == Pen(old(column) + (if v[i] == 0x27 then 2 else 1), old(whitespace), false)
    {
      if v[i] == 0x27 {
        Put(0x27);
      }
      j := WriteChar(v, i);
      indention := false;
    }

    /** One turn of the single-quoted loop. */
    method SingleStep(v: seq<Byte>, i: nat, allowBreaks: bool, spaces: bool, breaks: bool) returns (j: nat,
          spaces': bool, breaks': bool)
      requires i < |v| && ValidUtf8(v[i..])
      modifies this
      ensures var t := SingleTurn(layout, allowBreaks, i == 0, v[i..], old(Now()), spaces, breaks);
              && j == i + |Head(v[i..])| && out == old(out) + t.text && Now() == t.pen
              && spaces' == t.spaces && breaks' == t.breaks
    {
      hide IsChar, IndentText, SingleBreak, Doubled, Head;
      ValidSuffix(v, i);
      spaces', breaks' := spaces, breaks;
      if IsSpace(v[i..]) {
        if allowBreaks && !spaces && column > layout.bestWidth && i > 0 && i < |v| - 1 && !IsSpace(v[i + 1..]) {
          WriteIndent();
          j := i + 1;
        } else {
          j := WriteChar(v, i);
        }
        spaces' := true;
      } else if IsBreak(v[i..]) {
        j := WriteSingleBreak(v, i, breaks);
        breaks' := true;
      } else {
        if breaks {
          WriteIndent();
        }
        j := WriteDoubled(v, i);
        spaces' := false;
        breaks' := false;
      }
    }

    method WriteSingleBody(v: seq<Byte>, allowBreaks: bool)
      requires ValidUtf8(v)
      modifies this
      ensures out == old(out) + SingleBody(layout, allowBreaks, true, v, old(Now()), false, false)
    {
      hide SingleTurn, ValidUtf8, Head;
      var spaces, breaks, i := false, false, 0;
      ghost var body, done := SingleBody(layout, allowBreaks, true, v, Now(), false, false), [];
      assert v[0..] == v;
      while i < |v|
        invariant i <= |v| && out == old(out) + done
        invariant SingleLeft(body, done, layout, allowBreaks, i == 0, v, i, Now(), spaces, breaks)
      {
        hide SingleLeft;
        SingleUnroll(body, done, layout, allowBreaks, i == 0, v, i, Now(), spaces, breaks);
        done := done + SingleTurn(layout, allowBreaks, i == 0, v[i..], Now(), spaces, breaks).text;
        i, spaces, breaks := SingleStep(v, i, allowBreaks, spaces, breaks);
      }
      assert v[i..] == [] && done == body;
    }

    method WriteSingleQuoted(v: seq<Byte>, allowBreaks: bool)
      requires ValidUtf8(v)
      modifies this
      ensures out == old(out) + Lead(old(Now())) + SingleQuoted(layout, allowBreaks, v, old(Now()))
      ensures !whitespace && !indention
    {
      hide SingleBody;
      WriteQuote(0x27, true);
      ghost var body := SingleBody(layout, allowBreaks, true, v, Now(), false, false);
      WriteSingleBody(v, allowBreaks);
      WriteQuote(0x27, false);
      Assemble(old(out), Lead(old(Now())), 0x27, body);
    }
  }
}
