/** Decimals as text: the printed form, the texts that can be read, and reading back what was printed. */
module DecimalText {
  import opened Options
  import opened NumberTheory
  import opened DecimalValues

  predicate IsDigit(c: char) {
    '0' <= c <= '9'
  }

  predicate AllDigits(s: string) {
    forall i :: 0 <= i < |s| ==> IsDigit(s[i])
  }

  function DigitOf(d: int): (c: char)
    requires 0 <= d < 10
    ensures IsDigit(c)
  {
    '0' + d as char
  }

  function ValueOf(c: char): (d: int)
    requires IsDigit(c)
    ensures 0 <= d < 10
  {
    c as int - '0' as int
  }

  /** The digits of a number, as `big.Int` prints them. */
  function Digits(n: nat): (s: string)
    ensures |s| > 0 && AllDigits(s)
  {
    if n < 10 then [DigitOf(n)] else Digits(n / 10) + [DigitOf(n % 10)]
  }

  /** The number that digits stand for, as `big.Int` reads them. */
  function Number(s: string): (n: int)
    requires AllDigits(s)
    ensures n >= 0
  {
    if s == [] then 0 else Number(s[..|s| - 1]) * 10 + ValueOf(s[|s| - 1])
  }

  lemma {:induction false} NumberOfDigits(n: nat)
    ensures Number(Digits(n)) == n
  {
    var s := Digits(n);
    if n >= 10 {
      assert s[..|s| - 1] == Digits(n / 10);
      NumberOfDigits(n / 10);
    } else {
      assert s[..0] == [];
    }
  }

  function Zeros(n: int): (s: string)
    ensures |s| == (if n > 0 then n else 0) && AllDigits(s) && forall i :: 0 <= i < |s| ==> s[i] == '0'
  {
    if n <= 0 then [] else Zeros(n - 1) + ['0']
  }

  lemma ZerosAre(n: nat, s: string)
    requires |s| == n && forall i :: 0 <= i < n ==> s[i] == '0'
    ensures s == Zeros(n)
  {
  }

  lemma {:induction false} NumberPadded(k: int, s: string)
    requires AllDigits(s)
    ensures Number(Zeros(k) + s) == Number(s)
  {
    if s != [] {
      var t := Zeros(k) + s;
      assert t[..|t| - 1] == Zeros(k) + s[..|s| - 1];
      NumberPadded(k, s[..|s| - 1]);
    } else if k > 0 {
      var t := Zeros(k) + s;
      assert t[..|t| - 1] == Zeros(k - 1) + [];
      NumberPadded(k - 1, []);
    } else {
      assert Zeros(k) + s == [];
    }
  }

  lemma {:induction false} NumberShifted(s: string, k: nat)
    requires AllDigits(s)
    ensures Number(s + Zeros(k)) == Number(s) * Pow(10, k)
  {
    if k == 0 {
      assert s + Zeros(0) == s;
    } else {
      var t := s + Zeros(k);
      assert t[..|t| - 1] == s + Zeros(k - 1);
      NumberShifted(s, k - 1);
      var n, p := Number(s), Pow(10, k - 1);
      assert (n * p) * 10 == n * (10 * p);
    }
  }

  // ---------------------------------------------------------------- printing

  function SignOf(u: int): string {
    if u < 0 then "-" else ""
  }

  /** Enough leading zeros for one digit before the point. */
  function Padded(u: int, scale: int): (s: string)
    ensures AllDigits(s) && |s| > scale
  {
    var d := Digits(Abs(u));
    Zeros(scale + 1 - |d|) + d
  }

  /** The printed form: all digits before the point at scale zero and below. */
  function Text(x: Decimal): string {
    if x.scale > 0 then
      var p := Padded(x.unscaled, x.scale);
      SignOf(x.unscaled) + p[..|p| - x.scale] + "." + p[|p| - x.scale..]
    else
      SignOf(x.unscaled) + Digits(Abs(x.unscaled)) + if x.unscaled != 0 then Zeros(-x.scale) else ""
  }

  /** Digits, with a leading zero only in `0` itself. */
  predicate IsNumeral(s: string) {
    AllDigits(s) && s != "" && (s[0] == '0' ==> s == "0")
  }

  lemma {:induction false} DigitsNumeral(n: nat)
    ensures IsNumeral(Digits(n)) && (Digits(n) == "0" <==> n == 0)
  {
    if n >= 10 {
      DigitsNumeral(n / 10);
    }
  }

  /** An optional minus, a numeral and, at a scale above zero, the point and that many digits. */
  lemma TextForm(x: Decimal)
    ensures x.scale <= 0 ==> exists n :: IsNumeral(n) && Text(x) == (if x.unscaled < 0 then "-" else "") + n
    ensures x.scale > 0 ==>
      exists n, f :: IsNumeral(n) && AllDigits(f) && |f| == x.scale
                     && Text(x) == (if x.unscaled < 0 then "-" else "") + n + "." + f
  {
    hide Zeros;
    var d := Digits(Abs(x.unscaled));
    DigitsNumeral(Abs(x.unscaled));
    hide Digits;
    if x.scale <= 0 {
      var n := d + if x.unscaled != 0 then Zeros(-x.scale) else "";
      assert Text(x) == SignOf(x.unscaled) + n;
      assert IsNumeral(n);
    } else {
      var p := Padded(x.unscaled, x.scale);
      var n, f := p[..|p| - x.scale], p[|p| - x.scale..];
      assert IsNumeral(n) by {
        if |d| <= x.scale {
          PadSmall(x.unscaled, x.scale);
        } else {
          assert p == d;
        }
      }
      assert IsNumeral(n) && AllDigits(f) && |f| == x.scale && Text(x) == SignOf(x.unscaled) + n + "." + f;
    }
  }

  const ZERO_RUN: nat := 64

  /** Appends zeros in runs. */
  method AppendZeros(s: string, n: int) returns (r: string)
    ensures r == s + Zeros(n)
  {
    var zeros := Zeros(ZERO_RUN);
    r := s;
    var i := 0;
    while i < n
      invariant 0 <= i
      invariant r == s + Zeros(if i < n then i else n)
    {
      ghost var was := r;
      ghost var done := i;
      if n > i + ZERO_RUN {
        r := r + zeros;
        ZerosAre(i + ZERO_RUN, Zeros(i) + zeros);
      } else {
        r := r + zeros[0..n - i];
        ZerosAre(n, Zeros(i) + zeros[0..n - i]);
      }
      i := i + ZERO_RUN;
    }
  }

  lemma PadSmall(u: int, scale: int)
    requires scale > 0 && |Digits(Abs(u))| <= scale
    ensures var d := Digits(Abs(u)); var p := Padded(u, scale);
      |p| == scale + 1 && p[..1] == "0" && p[1..] == Zeros(scale - |d|) + d
  {
    hide Digits, Zeros;
    var d := Digits(Abs(u));
    var p := Padded(u, scale);
    var z := Zeros(scale + 1 - |d|);
    ZerosAre(scale - |d|, z[1..]);
    assert p == z + d;
  }

  /** A number below one: a zero, the point, and the zeros that the digits do not fill. */
  lemma TextSmall(x: Decimal)
    requires x.scale > 0 && |Digits(Abs(x.unscaled))| <= x.scale
    ensures var d := Digits(Abs(x.unscaled));
      Text(x) == (SignOf(x.unscaled) + "0.") + Zeros(x.scale - |d|) + d
  {
    hide Digits, Zeros, Padded;
    PadSmall(x.unscaled, x.scale);
    var d, p := Digits(Abs(x.unscaled)), Padded(x.unscaled, x.scale);
    assert Text(x) == SignOf(x.unscaled) + "0" + "." + (Zeros(x.scale - |d|) + d);
  }

  lemma PadLarge(u: int, scale: int)
    requires |Digits(Abs(u))| > scale
    ensures Padded(u, scale) == Digits(Abs(u))
  {
    hide Digits;
  }

  /** Otherwise the point goes in between two digits. */
  lemma TextLarge(x: Decimal)
    requires x.scale > 0 && |Digits(Abs(x.unscaled))| > x.scale
    ensures var s := SignOf(x.unscaled) + Digits(Abs(x.unscaled));
      Text(x) == s[..|s| - x.scale] + "." + s[|s| - x.scale..]
  {
    hide Digits, Padded;
    var d := Digits(Abs(x.unscaled));
    PadLarge(x.unscaled, x.scale);
    var s := SignOf(x.unscaled) + d;
    assert s[..|s| - x.scale] == SignOf(x.unscaled) + d[..|d| - x.scale];
    assert s[|s| - x.scale..] == d[|d| - x.scale..];
  }

  /** Builds the printed form from the coefficient's own digits. */
  method Print(x: Decimal) returns (t: string)
    ensures t == Text(x)
  {
    var d := Digits(Abs(x.unscaled));
    var s := SignOf(x.unscaled) + d;
    if x.scale <= 0 {
      if x.scale != 0 && x.unscaled != 0 {
        s := AppendZeros(s, -x.scale);
      }
      return s;
    }
    hide Digits, Zeros, Text;
    var negbit := if x.unscaled < 0 then 1 else 0;
    if |s| - negbit <= x.scale {
      t := PrintSmall(s, negbit, x.scale);
      TextSmall(x);
      assert s[negbit..] == d;
    } else {
      t := s[..|s| - x.scale] + ['.'] + s[|s| - x.scale..];
      TextLarge(x);
    }
  }

  method PrintSmall(s: string, negbit: int, scale: int) returns (t: string)
    requires 0 <= negbit <= 1 && negbit <= |s| && |s| - negbit <= scale
    ensures t == ((if negbit == 1 then "-" else "") + "0.") + Zeros(scale - |s| + negbit) + s[negbit..]
  {
    hide Zeros;
    var ss := [];
    if negbit == 1 {
      ss := ss + ['-'];
    }
    ss := ss + ['0', '.'];
    ss := AppendZeros(ss, scale - |s| + negbit);
    t := ss + s[negbit..];
  }

  // ---------------------------------------------------------------- reading

  predicate IsSign(c: char) {
    c == '+' || c == '-'
  }

  /** A sign at most in front, at most one point, and digits. */
  predicate Clean(s: string) {
    && (forall i :: 0 <= i < |s| ==> IsDigit(s[i]) || s[i] == '.' || (i == 0 && IsSign(s[0])))
    && (forall i, j :: 0 <= i < j < |s| ==> !(s[i] == '.' && s[j] == '.'))
  }

  predicate HasDigit(s: string) {
    exists i :: 0 <= i < |s| && IsDigit(s[i])
  }

  /** What is left without points. */
  function Pointless(s: string): (t: string)
    ensures |t| <= |s|
  {
    if s == [] then []
    else if s[|s| - 1] == '.' then Pointless(s[..|s| - 1])
    else Pointless(s[..|s| - 1]) + [s[|s| - 1]]
  }

  /** Where the point is, or -1. */
  function PointAt(s: string): (p: int)
    ensures -1 <= p < |s|
    ensures p == -1 ==> '.' !in s
    ensures p >= 0 ==> s[p] == '.'
  {
    if s == [] then -1
    else
      var p := PointAt(s[..|s| - 1]);
      if p >= 0 then p else if s[|s| - 1] == '.' then |s| - 1 else -1
  }

  /** The unsigned part of a coefficient. */
  function Unsigned(s: string): string {
    if s != [] && IsSign(s[0]) then s[1..] else s
  }

  /** An optional sign and digits, as `big.Int` reads them. */
  function Coefficient(s: string): (u: int)
    requires AllDigits(Unsigned(s))
  {
    if s != [] && s[0] == '-' then -Number(Unsigned(s)) else Number(Unsigned(s))
  }

  /** Without its point, a clean text is a sign and digits. */
  lemma {:induction false} PointlessClean(s: string)
    requires Clean(s)
    ensures AllDigits(Unsigned(Pointless(s)))
    ensures |Pointless(s)| == if PointAt(s) >= 0 then |s| - 1 else |s|
    ensures HasDigit(s) <==> Unsigned(Pointless(s)) != []
    ensures Pointless(s) == [] || IsDigit(Pointless(s)[0]) || (IsSign(Pointless(s)[0]) && IsSign(s[0]))
  {
    if s != [] {
      var n := |s| - 1;
      var r := s[..n];
      PointlessClean(r);
      PointlessStep(s, r, s[n]);
    }
  }

  lemma PointlessStep(s: string, r: string, c: char)
    requires s == r + [c] && Clean(s) && Clean(r)
    requires AllDigits(Unsigned(Pointless(r)))
    requires |Pointless(r)| == if PointAt(r) >= 0 then |r| - 1 else |r|
    requires HasDigit(r) <==> Unsigned(Pointless(r)) != []
    requires Pointless(r) == [] || IsDigit(Pointless(r)[0]) || (IsSign(Pointless(r)[0]) && IsSign(r[0]))
    ensures AllDigits(Unsigned(Pointless(s)))
    ensures |Pointless(s)| == if PointAt(s) >= 0 then |s| - 1 else |s|
    ensures HasDigit(s) <==> Unsigned(Pointless(s)) != []
    ensures Pointless(s) == [] || IsDigit(Pointless(s)[0]) || (IsSign(Pointless(s)[0]) && IsSign(s[0]))
  {
    assert s[..|s| - 1] == r;
    if IsDigit(c) {
      assert IsDigit(s[|s| - 1]);
    } else if HasDigit(r) {
      var i :| 0 <= i < |r| && IsDigit(r[i]);
      assert IsDigit(s[i]);
    }
  }

  /** The decimal that a text stands for. */
  function Parse(s: string): (d: Option<Decimal>) {
    if Clean(s) && HasDigit(s) then
      PointlessClean(s);
      Some(Decimal(Coefficient(Pointless(s)), if PointAt(s) >= 0 then |s| - 1 - PointAt(s) else 0))
    else None
  }

  lemma CleanPrefix(s: string, n: nat)
    requires n <= |s| && Clean(s)
    ensures Clean(s[..n])
  {
    var t := s[..n];
    forall i | 0 <= i < |t| ensures IsDigit(t[i]) || t[i] == '.' || (i == 0 && IsSign(t[0])) {
      assert t[i] == s[i];
    }
    forall i, j | 0 <= i < j < |t| ensures !(t[i] == '.' && t[j] == '.') {
      assert t[i] == s[i] && t[j] == s[j];
    }
  }

  /** Whether one more character keeps a text clean. */
  predicate Takes(s: string, c: char) {
    IsDigit(c) || (c == '.' && PointAt(s) < 0) || (IsSign(c) && s == [])
  }

  lemma CleanStep(s: string, c: char)
    requires Clean(s)
    ensures Clean(s + [c]) <==> Takes(s, c)
    ensures HasDigit(s + [c]) <==> HasDigit(s) || IsDigit(c)
  {
    var t := s + [c];
    var p := PointAt(s);
    assert t[|s|] == c && (p >= 0 ==> t[p] == '.');
    assert forall i :: 0 <= i < |s| ==> t[i] == s[i];
    if p < 0 {
      assert forall i :: 0 <= i < |s| ==> s[i] != '.';
    }
  }

  lemma StepFacts(s: string, c: char)
    ensures Pointless(s + [c]) == if c == '.' then Pointless(s) else Pointless(s) + [c]
    ensures PointAt(s + [c]) == if PointAt(s) >= 0 then PointAt(s) else if c == '.' then |s| else -1
  {
    assert (s + [c])[..|s|] == s;
  }

  /** Reads the longest clean prefix. */
  method Scan(s: string) returns (d: Option<Decimal>, used: nat)
    ensures used <= |s| && Clean(s[..used]) && (used < |s| ==> !Clean(s[..used + 1]))
    ensures d == Parse(s[..used])
  {
    hide Clean, HasDigit, Pointless, PointAt, Coefficient;
    var unscaled := [];
    var dp, dg := -1, -1;
    used := 0;
    EmptyFacts();
    while used < |s|
      invariant used <= |s| && Clean(s[..used])
      invariant unscaled == Pointless(s[..used]) && dp == PointAt(s[..used])
      invariant dg == -1 <==> !HasDigit(s[..used])
    {
      var ch := s[used];
      assert s[..used + 1] == s[..used] + [ch];
      CleanStep(s[..used], ch);
      StepFacts(s[..used], ch);
      Lengths(s[..used]);
      if IsSign(ch) {
        if |unscaled| > 0 || dp >= 0 {
          break;
        }
      } else if ch == '.' {
        if dp >= 0 {
          break;
        }
        dp := |unscaled|;
        used := used + 1;
        continue;
      } else if IsDigit(ch) {
        if dg == -1 {
          dg := |unscaled|;
        }
      } else {
        break;
      }
      unscaled := unscaled + [ch];
      used := used + 1;
    }
    if dg == -1 {
      return None, used;
    }
    PointlessClean(s[..used]);
    Lengths(s[..used]);
    d := Some(Decimal(Coefficient(unscaled), if dp >= 0 then |unscaled| - dp else 0));
  }

  lemma EmptyFacts()
    ensures Clean("") && !HasDigit("") && Pointless("") == "" && PointAt("") == -1
  {
  }

  lemma Lengths(s: string)
    requires Clean(s)
    ensures |Pointless(s)| == if PointAt(s) >= 0 then |s| - 1 else |s|
  {
    PointlessClean(s);
  }

  /** The whole text must be read. */
  method SetString(s: string) returns (d: Option<Decimal>)
    ensures d == Parse(s)
  {
    var used;
    d, used := Scan(s);
    if used < |s| {
      if Clean(s) {
        CleanPrefix(s, used + 1);
      }
      d := None;
    } else {
      assert s[..used] == s;
    }
  }

  // ---------------------------------------------------------------- reading back

  lemma {:induction false} PointlessAppend(s: string, t: string)
    requires '.' !in t
    ensures Pointless(s + t) == Pointless(s) + t
  {
    if t == [] {
      assert s + t == s;
    } else {
      var n := |t| - 1;
      assert (s + t)[..|s| + n] == s + t[..n];
      PointlessAppend(s, t[..n]);
    }
  }

  lemma {:induction false} PointAtAppend(s: string, t: string)
    requires '.' !in t
    ensures PointAt(s + t) == PointAt(s)
  {
    if t == [] {
      assert s + t == s;
    } else {
      var n := |t| - 1;
      assert (s + t)[..|s| + n] == s + t[..n];
      PointAtAppend(s, t[..n]);
    }
  }

  lemma CoefficientOf(sign: string, d: string)
    requires (sign == "" || sign == "-") && AllDigits(d) && d != []
    ensures Unsigned(sign + d) == d
    ensures Coefficient(sign + d) == if sign == "-" then -Number(d) else Number(d)
  {
    hide Number;
    var s := sign + d;
    if sign == "" {
      assert s == d && !IsSign(d[0]);
    } else {
      assert s[0] == '-' && s[1..] == d;
    }
  }

  /** Reading, from the parts that were found. */
  lemma ReadsParts(s: string, sign: string, d: string, p: int)
    requires Clean(s) && HasDigit(s) && Pointless(s) == sign + d && PointAt(s) == p
    requires (sign == "" || sign == "-") && AllDigits(d) && d != []
    ensures Parse(s) == Some(Decimal(if sign == "-" then -Number(d) else Number(d), if p >= 0 then |s| - 1 - p else 0))
  {
    hide Number, Pointless, PointAt, Clean, HasDigit, Coefficient;
    CoefficientOf(sign, d);
  }

  lemma {:induction false} CleanAppend(s: string, b: string)
    requires Clean(s) && AllDigits(b)
    ensures Clean(s + b)
  {
    if b == [] {
      assert s + b == s;
    } else {
      var n := |b| - 1;
      CleanAppend(s, b[..n]);
      CleanStep(s + b[..n], b[n]);
      assert s + b == (s + b[..n]) + [b[n]];
    }
  }

  lemma PointFacts(front: string, b: string)
    requires '.' !in front && '.' !in b
    ensures Pointless(front + "." + b) == front + b && PointAt(front + "." + b) == |front|
  {
    hide Pointless, PointAt;
    EmptyFacts();
    assert "" + front == front;
    PointlessAppend("", front);
    PointAtAppend("", front);
    StepFacts(front, '.');
    PointlessAppend(front + ".", b);
    PointAtAppend(front + ".", b);
  }

  lemma ReadsWhole(sign: string, a: string)
    requires (sign == "" || sign == "-") && AllDigits(a) && a != []
    ensures Parse(sign + a) == Some(Decimal(if sign == "-" then -Number(a) else Number(a), 0))
  {
    hide Number, Parse;
    var s := sign + a;
    assert IsDigit(s[|sign|]);
    FrontClean(sign, a);
    PointlessAppend("", s);
    assert "" + s == s;
    ReadsParts(s, sign, a, -1);
  }

  lemma ReadsPointed(sign: string, a: string, b: string)
    requires (sign == "" || sign == "-") && AllDigits(a) && AllDigits(b) && a != []
    ensures Parse(sign + a + "." + b) == Some(Decimal(if sign == "-" then -Number(a + b) else Number(a + b), |b|))
  {
    hide Number, Pointless, PointAt, Clean, HasDigit, Parse;
    var front := sign + a;
    PointFacts(front, b);
    FrontClean(sign, a);
    CleanStep(front, '.');
    CleanAppend(front + ".", b);
    var s := front + "." + b;
    assert s[|sign|] == a[0];
    DigitAt(s, |sign|);
    assert front + b == sign + (a + b);
    ReadsParts(s, sign, a + b, |front|);
  }

  lemma DigitAt(s: string, i: nat)
    requires i < |s| && IsDigit(s[i])
    ensures HasDigit(s)
  {
  }

  lemma FrontClean(sign: string, a: string)
    requires (sign == "" || sign == "-") && AllDigits(a)
    ensures Clean(sign + a) && PointAt(sign + a) == -1
  {
    CleanAppend(sign, a);
    PointAtAppend("", sign + a);
    assert "" + (sign + a) == sign + a;
  }

  /** Reading what was printed gives the same decimal, brought up to scale zero if it was below. */
  lemma PrintThenRead(x: Decimal)
    ensures Parse(Text(x)) == Some(if x.scale >= 0 then x else Decimal(x.unscaled * Pow(10, -x.scale), 0))
  {
    hide Number, Parse, Digits, Zeros;
    var u, sign, d := x.unscaled, SignOf(x.unscaled), Digits(Abs(x.unscaled));
    NumberOfDigits(Abs(u));
    if x.scale > 0 {
      var p := Padded(u, x.scale);
      NumberPadded(x.scale + 1 - |d|, d);
      var a, b := p[..|p| - x.scale], p[|p| - x.scale..];
      assert p == a + b;
      ReadsPointed(sign, a, b);
    } else if u != 0 {
      var z := Zeros(-x.scale);
      NumberShifted(d, -x.scale);
      ReadsWhole(sign, d + z);
      assert Text(x) == sign + (d + z);
      assert u < 0 ==> -(Abs(u) * Pow(10, -x.scale)) == u * Pow(10, -x.scale);
    } else {
      ReadsWhole(sign, d);
      assert Text(x) == sign + d;
    }
  }

  /** The value survives whatever the scale. */
  lemma PrintKeepsValue(x: Decimal)
    ensures Parse(Text(x)).Some? && SameValue(Parse(Text(x)).value, x)
  {
    PrintThenRead(x);
  }
}
