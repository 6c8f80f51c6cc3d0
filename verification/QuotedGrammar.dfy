/**
 What a quoted scalar may hold between its quotes, and what each part of it stands for:
 sections 5.4, 5.7, 6.5 and 7.3 of YAML 1.2, as far as gopkg.in/yaml.v2 follows them. The
 escape of a solidus is the one that it does not know.

 Nothing here looks at the scanner: escapes are two lists, digits are positions in an
 alphabet, and line folding is stated on whole runs of line breaks.
 */
module QuotedGrammar {
  import opened YamlChars

  datatype Break = CrLf | LoneCr | Lf | Nel | Ls | Ps

  function BreakBytes(b: Break): (t: seq<Byte>)
    ensures |t| >= 1
  {
    match b
    case CrLf => [0x0D, 0x0A]
    case LoneCr => [0x0D]
    case Lf => [0x0A]
    case Nel => [0xC2, 0x85]
    case Ls => [0xE2, 0x80, 0xA8]
    case Ps => [0xE2, 0x80, 0xA9]
  }

  /** Line breaks are read as LF, except the two that keep their meaning. */
  predicate KeepsForm(b: Break) { b.Ls? || b.Ps? }

  function ReadAs(b: Break): seq<Byte> {
    if KeepsForm(b) then BreakBytes(b) else [0x0A]
  }

  /** A line break, and the blanks at the start of the line that it opens. */
  datatype Line = Line(end: Break, indent: seq<Byte>)

  /** A hexadecimal digit in upper or lower case. */
  datatype Digit = Digit(value: nat, upper: bool)

  datatype Piece =
    | Plain(octets: seq<Byte>)
    | TwoQuotes
    | Short(k: nat)
    | Numeric(digits: seq<Digit>)
    | Spacing(blanks: seq<Byte>)
    | Folded(blanks: seq<Byte>, lines: seq<Line>)
    | Joined(lines: seq<Line>)

  /** The characters after a backslash, and the code points that they stand for, in the same order. */
  const LETTERS: string := "0abt\tnvfre \"'\\N_LP"
  const CODES: seq<nat> :=
    [0, 7, 8, 9, 9, 10, 11, 12, 13, 27, 32, 34, 39, 92, 0x85, 0xA0, 0x2028, 0x2029]

  const LOWER := "0123456789abcdef"
  const UPPER := "0123456789ABCDEF"

  function Number(ds: seq<Digit>): nat {
    if ds == [] then 0 else 16 * Number(ds[..|ds| - 1]) + ds[|ds| - 1].value
  }

  predicate AllBlank(s: seq<Byte>) { forall i :: 0 <= i < |s| ==> s[i] == 0x20 || s[i] == 0x09 }

  /** CR and then LF would be one line break. */
  predicate GoodLines(lines: seq<Line>)
    decreases |lines|
  {
    lines == [] ||
    (&& AllBlank(lines[0].indent)
     && !(lines[0].end.LoneCr? && lines[0].indent == [] && |lines| > 1 && lines[1].end.Lf?)
     && GoodLines(lines[1..]))
  }

  predicate GoodDigits(ds: seq<Digit>) { forall i :: 0 <= i < |ds| ==> ds[i].value < 16 }

  predicate GoodPiece(p: Piece, single: bool) {
    match p
    case Plain(c) =>
      && c != [] && |c| == Width(c[0]) && !IsBlankZ(c)
      && (if single then c[0] != 0x27 else c[0] != 0x22 && c[0] != 0x5C)
    case TwoQuotes => single
    case Short(k) => !single && k < 18
    case Numeric(ds) =>
      !single && (|ds| == 2 || |ds| == 4 || |ds| == 8) && GoodDigits(ds) && IsScalar(Number(ds))
    case Spacing(b) => b != [] && AllBlank(b)
    case Folded(b, lines) => AllBlank(b) && lines != [] && GoodLines(lines)
    case Joined(lines) => !single && lines != [] && GoodLines(lines)
  }

  // ---------------------------------------------------------------- how it is written

  /** The octet of an ASCII character. */
  function Octet(c: char): Byte { c as int % 256 }

  function DigitByte(d: Digit): Byte
    requires d.value < 16
  {
    Octet(if d.upper then UPPER[d.value] else LOWER[d.value])
  }

  function DigitBytes(ds: seq<Digit>): (t: seq<Byte>)
    requires GoodDigits(ds)
    ensures |t| == |ds|
    decreases |ds|
  {
    if ds == [] then [] else [DigitByte(ds[0])] + DigitBytes(ds[1..])
  }

  function LineBytes(lines: seq<Line>): seq<Byte>
    decreases |lines|
  {
    if lines == [] then [] else BreakBytes(lines[0].end) + (lines[0].indent + LineBytes(lines[1..]))
  }

  function Bytes(p: Piece, single: bool): seq<Byte>
    requires GoodPiece(p, single)
  {
    match p
    case Plain(c) => c
    case TwoQuotes => [0x27, 0x27]
    case Short(k) => [0x5C, Octet(LETTERS[k])]
    case Numeric(ds) =>
      [0x5C, Octet(if |ds| == 2 then 'x' else if |ds| == 4 then 'u' else 'U')] + DigitBytes(ds)
    case Spacing(b) => b
    case Folded(b, lines) => b + LineBytes(lines)
    case Joined(lines) => [0x5C] + LineBytes(lines)
  }

  // ---------------------------------------------------------------- what it stands for

  function Breaks(lines: seq<Line>): seq<Byte>
    decreases |lines|
  {
    if lines == [] then [] else ReadAs(lines[0].end) + Breaks(lines[1..])
  }

  /** A single line break is a space; of several, the first is dropped. Blanks around them are dropped. */
  function Meaning(p: Piece, single: bool): seq<Byte>
    requires GoodPiece(p, single)
  {
    match p
    case Plain(c) => c
    case TwoQuotes => [0x27]
    case Short(k) => Encode(CODES[k])
    case Numeric(ds) => Encode(Number(ds))
    case Spacing(b) => b
    case Folded(b, lines) =>
      if KeepsForm(lines[0].end) then Breaks(lines)
      else if |lines| == 1 then [0x20]
      else Breaks(lines[1..])
    case Joined(lines) => Breaks(lines[1..])
  }

  // ---------------------------------------------------------------- whole scalars

  /** What stands before a piece: text, blanks, or the margin of a line. */
  datatype Side = Inner | Apart | Margin

  function SideAfter(p: Piece): Side {
    if p.Spacing? then Apart
    else if (p.Folded? || p.Joined?) && p.lines != [] then
      if p.lines[|p.lines| - 1].indent == [] then Margin else Apart
    else Inner
  }

  predicate IsGap(p: Piece) { p.Spacing? || p.Folded? }

  /** `---` or `...` and a blank: at the margin these are marks of the document. */
  predicate IsMarker(ps: seq<Piece>) {
    |ps| >= 4 && ps[0] == ps[1] == ps[2] && (ps[0] == Plain([0x2D]) || ps[0] == Plain([0x2E])) && IsGap(ps[3])
  }

  predicate Proper(ps: seq<Piece>, single: bool, side: Side)
    decreases |ps|
  {
    ps == [] ||
    (&& GoodPiece(ps[0], single)
     && (side != Inner ==> !IsGap(ps[0]))
     && (side == Margin ==> !IsMarker(ps))
     && Proper(ps[1..], single, SideAfter(ps[0])))
  }

  function AllBytes(ps: seq<Piece>, single: bool, side: Side): seq<Byte>
    requires Proper(ps, single, side)
    decreases |ps|
  {
    if ps == [] then [] else Bytes(ps[0], single) + AllBytes(ps[1..], single, SideAfter(ps[0]))
  }

  function AllMeaning(ps: seq<Piece>, single: bool, side: Side): seq<Byte>
    requires Proper(ps, single, side)
    decreases |ps|
  {
    if ps == [] then [] else Meaning(ps[0], single) + AllMeaning(ps[1..], single, SideAfter(ps[0]))
  }
}
