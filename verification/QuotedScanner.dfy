/**
 Scanning of quoted scalars: `yaml_parser_scan_flow_scalar` and the cursor helpers it uses
 (gopkg.in/yaml.v2/scannerc.go).

 `NonBlank`, `Blanks` and `Content` describe the three nested loops; class `Scanner` runs
 those loops and is proved to compute what they describe.
 */
module QuotedScanner {
  import opened YamlChars

  datatype Problem =
    | DocumentIndicator | EndOfStream | UnknownEscape | BadHexDigit | BadCodePoint | BadCharacter

  /** The unread input, and the column of its first character. */
  datatype Cursor = Cursor(rest: seq<Byte>, column: nat)

  function Drop(s: seq<Byte>, n: nat): (r: seq<Byte>) {
    if n <= |s| then s[n..] else []
  }

  /** Moves over `n` bytes that make up `chars` characters. */
  function Advance(at: Cursor, n: nat, chars: nat): Cursor {
    Cursor(Drop(at.rest, n), at.column + chars)
  }

  /** What a line break contributes to the text, and how many bytes it takes. */
  function LineBreak(s: seq<Byte>): (seq<Byte>, nat) {
    if At(s, 0) == 0x0D && At(s, 1) == 0x0A then ([0x0A], 2)
    else if At(s, 0) == 0x0D || At(s, 0) == 0x0A then ([0x0A], 1)
    else if At(s, 0) == 0xC2 && At(s, 1) == 0x85 then ([0x0A], 2)
    else if At(s, 0) == 0xE2 && At(s, 1) == 0x80 && (At(s, 2) == 0xA8 || At(s, 2) == 0xA9) then
      ([At(s, 0), At(s, 1), At(s, 2)], 3)
    else ([], 0)
  }

  // ---------------------------------------------------------------- escapes

  datatype Escape = Text(bytes: seq<Byte>) | Code(length: nat) | Unknown

  function EscapeOf(b: Byte): Escape {
    match b
    case 0x30 => Text([0])
    case 0x61 => Text([0x07])
    case 0x62 => Text([0x08])
    case 0x74 => Text([0x09])
    case 0x09 => Text([0x09])
    case 0x6E => Text([0x0A])
    case 0x76 => Text([0x0B])
    case 0x66 => Text([0x0C])
    case 0x72 => Text([0x0D])
    case 0x65 => Text([0x1B])
    case 0x20 => Text([0x20])
    case 0x22 => Text([0x22])
    case 0x27 => Text([0x27])
    case 0x5C => Text([0x5C])
    case 0x4E => Text([0xC2, 0x85])
    case 0x5F => Text([0xC2, 0xA0])
    case 0x4C => Text([0xE2, 0x80, 0xA8])
    case 0x50 => Text([0xE2, 0x80, 0xA9])
    case 0x78 => Code(2)
    case 0x75 => Code(4)
    case 0x55 => Code(8)
    case _ => Unknown
  }

  predicate IsHex(b: Byte) { 0x30 <= b <= 0x39 || 0x41 <= b <= 0x46 || 0x61 <= b <= 0x66 }

  function AsHex(b: Byte): int
    requires IsHex(b)
  {
    if 0x41 <= b <= 0x46 then b - 0x41 + 10 else if 0x61 <= b <= 0x66 then b - 0x61 + 10 else b - 0x30
  }

  /** The value of the `n` hexadecimal digits at the front of `s`, continuing from `acc`; -1 if one is not a digit. */
  function HexValue(s: seq<Byte>, n: nat, acc: nat): (v: int)
    ensures v >= -1
  {
    if n == 0 then acc
    else if !IsHex(At(s, 0)) then -1
    else HexValue(Drop(s, 1), n - 1, acc * 16 + AsHex(At(s, 0)))
  }

  datatype Escaped = Take(bytes: seq<Byte>, length: nat) | Reject(problem: Problem)

  /** The escape sequence at the front of `s`: what it stands for and how long it is. */
  function Unescape(s: seq<Byte>): (r: Escaped)
    ensures r.Take? ==> r.length >= 2
  {
    match EscapeOf(At(s, 1))
    case Unknown => Reject(UnknownEscape)
    case Text(b) => Take(b, 2)
    case Code(n) =>
      var v := HexValue(Drop(s, 2), n, 0);
      if v == -1 then Reject(BadHexDigit)
      else if !IsScalar(v) then Reject(BadCodePoint)
      else Take(Encode(v), 2 + n)
  }

  // ---------------------------------------------------------------- the loops

  datatype Run = Run(at: Cursor, text: seq<Byte>, leading: bool) | Bad(problem: Problem)

  function Quote(single: bool): Byte { if single then 0x27 else 0x22 }

  /** The loop over non-blank characters. */
  function NonBlank(single: bool, at: Cursor, text: seq<Byte>): (r: Run)
    ensures r.Run? ==> |r.at.rest| <= |at.rest|
    ensures r.Run? && r.at.rest == at.rest ==> IsBlankZ(at.rest) || At(at.rest, 0) == Quote(single)
    ensures r.Run? && r.at.rest != at.rest ==> |r.at.rest| < |at.rest|
    decreases |at.rest|
  {
    var s := at.rest;
    if IsBlankZ(s) then Run(at, text, false)
    else if single && At(s, 0) == 0x27 && At(s, 1) == 0x27 then
      NonBlank(single, Advance(at, 2, 2), text + [0x27])
    else if At(s, 0) == Quote(single) then Run(at, text, false)
    else if !single && At(s, 0) == 0x5C && IsBreak(s[1..]) then
      Run(Cursor(Drop(s[1..], LineBreak(s[1..]).1), 0), text, true)
    else if !single && At(s, 0) == 0x5C then
      match Unescape(s) {
        case Reject(p) => Bad(p)
        case Take(b, n) => NonBlank(single, Advance(at, n, n), text + b)
      }
    else
      var w := Width(s[0]);
      if w == 0 || w > |s| then Bad(BadCharacter)
      else NonBlank(single, Advance(at, w, 1), text + s[..w])
  }

  /** The state of the loop over blanks and line breaks. */
  datatype Gap = Gap(at: Cursor, leading: bool, spaces: seq<Byte>, first: seq<Byte>, more: seq<Byte>)

  function Blanks(g: Gap): (r: Gap)
    ensures |r.at.rest| <= |g.at.rest|
    ensures IsBlank(g.at.rest) || IsBreak(g.at.rest) ==> |r.at.rest| < |g.at.rest|
    decreases |g.at.rest|
  {
    var s := g.at.rest;
    if IsBlank(s) then
      Blanks(g.(at := Advance(g.at, 1, 1), spaces := if g.leading then g.spaces else g.spaces + [s[0]]))
    else if IsBreak(s) then
      var (text, n) := LineBreak(s);
      var at := Cursor(Drop(s, n), 0);
      if !g.leading then Blanks(Gap(at, true, [], g.first + text, g.more))
      else Blanks(g.(at := at, more := g.more + text))
    else g
  }

  /** Line folding: section 6.5 of YAML 1.2. */
  function Join(text: seq<Byte>, g: Gap): seq<Byte> {
    if !g.leading then text + g.spaces
    else if |g.first| > 0 && g.first[0] == 0x0A then
      if g.more == [] then text + [0x20] else text + g.more
    else text + g.first + g.more
  }

  predicate StartsIndicator(s: seq<Byte>) {
    && ((At(s, 0) == 0x2D && At(s, 1) == 0x2D && At(s, 2) == 0x2D)
        || (At(s, 0) == 0x2E && At(s, 1) == 0x2E && At(s, 2) == 0x2E))
    && IsBlankZ(Drop(s, 3))
  }

  datatype Scan = Token(value: seq<Byte>, at: Cursor) | Error(problem: Problem)

  /** The outer loop, from its top. */
  function Content(single: bool, at: Cursor, text: seq<Byte>): Scan
    decreases |at.rest|
  {
    if at.column == 0 && StartsIndicator(at.rest) then Error(DocumentIndicator)
    else if IsZ(at.rest) then Error(EndOfStream)
    else
      match NonBlank(single, at, text)
      case Bad(p) => Error(p)
      case Run(at1, text1, leading) =>
        if At(at1.rest, 0) == Quote(single) then Token(text1, Advance(at1, 1, 1))
        else
          var g := Blanks(Gap(at1, leading, [], [], []));
          Content(single, g.at, Join(text1, g))
  }

  /** Scans the quoted scalar whose left quote is at the cursor. */
  function ScanQuoted(single: bool, at: Cursor): Scan {
    Content(single, Advance(at, 1, 1), [])
  }

  // ---------------------------------------------------------------- the scanner itself

  class Scanner {
    const buffer: seq<Byte>
    var pos: nat
    var column: nat

    constructor (buffer: seq<Byte>, pos: nat, column: nat)
      ensures this.buffer == buffer && this.pos == pos && this.column == column
    {
      this.buffer := buffer;
      this.pos := pos;
      this.column := column;
    }

    function Here(): Cursor
      reads this
    {
      Cursor(Drop(buffer, pos), column)
    }

    method Skip(n: nat)
      modifies this
      ensures Here() == Advance(old(Here()), n, n)
    {
      pos := pos + n;
      column := column + n;
    }

    /** `read`: copies one character; false when the bytes are no character. */
    method Read(s: seq<Byte>) returns (ok: bool, t: seq<Byte>)
      requires Here().rest != []
      modifies this
      ensures var old_ := old(Here()); var w := Width(old_.rest[0]);
              && ok == (w != 0 && w <= |old_.rest|)
              && (ok ==> t == s + old_.rest[..w] && Here() == Advance(old_, w, 1))
    {
      var w := Width(buffer[pos]);
      t := s;
      ok := w != 0 && pos + w <= |buffer|;
      if ok {
        t := s + buffer[pos..pos + w];
        pos := pos + w;
        column := column + 1;
      }
    }

    /** `read_line`, and `skip_line` when the text is ignored. */
    method ReadLine(s: seq<Byte>) returns (t: seq<Byte>)
      requires IsBreak(Here().rest)
      modifies this
      ensures var old_ := old(Here()); var (text, n) := LineBreak(old_.rest);
              t == s + text && Here() == Cursor(Drop(old_.rest, n), 0)
    {
      var rest := Drop(buffer, pos);
      if At(rest, 0) == 0x0D && At(rest, 1) == 0x0A {
        t, pos := s + [0x0A], pos + 2;
      } else if At(rest, 0) == 0x0D || At(rest, 0) == 0x0A {
        t, pos := s + [0x0A], pos + 1;
      } else if At(rest, 0) == 0xC2 && At(rest, 1) == 0x85 {
        t, pos := s + [0x0A], pos + 2;
      } else {
        t, pos := s + buffer[pos..pos + 3], pos + 3;
      }
      column := 0;
    }

    method ReadHex(n: nat) returns (v: int)
      ensures v == HexValue(Here().rest, n, 0)
    {
      var k, acc := 0, 0;
      while k < n
        invariant 0 <= k <= n && acc >= 0
        invariant HexValue(Drop(Here().rest, k), n - k, acc) == HexValue(Here().rest, n, 0)
      {
        var b := At(Drop(buffer, pos), k);
        if !IsHex(b) {
          return -1;
        }
        acc := acc * 16 + AsHex(b);
        k := k + 1;
      }
      v := acc;
    }

    method ReadEscape() returns (e: Escaped)
      modifies this
      ensures e == Unescape(old(Here()).rest)
      ensures e.Take? ==> Here() == Advance(old(Here()), e.length, e.length)
    {
      var kind := EscapeOf(At(Drop(buffer, pos), 1));
      if kind.Unknown? {
        return Reject(UnknownEscape);
      }
      Skip(2);
      if kind.Text? {
        return Take(kind.bytes, 2);
      }
      var v := ReadHex(kind.length);
      if v == -1 {
        return Reject(BadHexDigit);
      }
      if !IsScalar(v) {
        return Reject(BadCodePoint);
      }
      Skip(kind.length);
      return Take(Encode(v), 2 + kind.length);
    }

    method ScanNonBlank(single: bool, s0: seq<Byte>) returns (r: Run)
      modifies this
      ensures r == NonBlank(single, old(Here()), s0)
      ensures r.Run? ==> Here() == r.at
    {
      var s := s0;
      while !IsBlankZ(Drop(buffer, pos))
        invariant NonBlank(single, Here(), s) == NonBlank(single, old(Here()), s0)
        decreases |buffer| - pos
      {
        var rest := Drop(buffer, pos);
        if single && At(rest, 0) == 0x27 && At(rest, 1) == 0x27 {
          s := s + [0x27];
          Skip(2);
        } else if At(rest, 0) == Quote(single) {
          break;
        } else if !single && At(rest, 0) == 0x5C && IsBreak(rest[1..]) {
          Skip(1);
          var _ := ReadLine([]);
          return Run(Here(), s, true);
        } else if !single && At(rest, 0) == 0x5C {
          var e := ReadEscape();
          if e.Reject? {
            return Bad(e.problem);
          }
          s := s + e.bytes;
        } else {
          var ok, t := Read(s);
          if !ok {
            return Bad(BadCharacter);
          }
          s := t;
        }
      }
      r := Run(Here(), s, false);
    }

    method ScanBlanks(leading0: bool) returns (g: Gap)
      modifies this
      ensures g == Blanks(Gap(old(Here()), leading0, [], [], []))
      ensures Here() == g.at
    {
      var leading, spaces, first, more := leading0, [], [], [];
      while IsBlank(Drop(buffer, pos)) || IsBreak(Drop(buffer, pos))
        invariant Blanks(Gap(Here(), leading, spaces, first, more)) == Blanks(Gap(old(Here()), leading0, [], [], []))
        decreases |buffer| - pos
      {
        if IsBlank(Drop(buffer, pos)) {
          if !leading {
            spaces := spaces + [buffer[pos]];
          }
          Skip(1);
        } else if !leading {
          spaces := [];
          first := ReadLine(first);
          leading := true;
        } else {
          more := ReadLine(more);
        }
      }
      g := Gap(Here(), leading, spaces, first, more);
    }

    method ScanFlowScalar(single: bool) returns (r: Scan)
      modifies this
      ensures r == ScanQuoted(single, old(Here()))
      ensures r.Token? ==> Here() == r.at
    {
      Skip(1);
      var s := [];
      while true
        invariant Content(single, Here(), s) == ScanQuoted(single, old(Here()))
        decreases |Here().rest|
      {
        var rest := Drop(buffer, pos);
        if column == 0 && StartsIndicator(rest) {
          return Error(DocumentIndicator);
        }
        if IsZ(rest) {
          return Error(EndOfStream);
        }
        var run := ScanNonBlank(single, s);
        if run.Bad? {
          return Error(run.problem);
        }
        if At(Drop(buffer, pos), 0) == Quote(single) {
          Skip(1);
          return Token(run.text, Here());
        }
        var g := ScanBlanks(run.leading);
        s := Join(run.text, g);
      }
    }
  }
}
