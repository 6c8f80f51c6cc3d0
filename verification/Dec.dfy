/** The decimal object: division to a scale, rounding, and exact division. */
module DecObject {
  import opened NumberTheory
  import opened DecimalValues
  import opened Rounding

  /** The quotient `x/y` at scale `s`, as a fraction of integers. */
  function Numerator(x: Decimal, y: Decimal, s: int): int {
    Lift(x.unscaled, s - (x.scale - y.scale))
  }

  function Divisor(x: Decimal, y: Decimal, s: int): (b: int)
    ensures y.unscaled != 0 ==> b != 0
  {
    var shift := s - (x.scale - y.scale);
    if y.unscaled != 0 && shift < 0 then
      NonZero(y.unscaled, Pow(10, -shift));
      Lift(y.unscaled, -shift)
    else
      Lift(y.unscaled, -shift)
  }

  /** A decimal at scale `s` is the quotient just when it is that fraction. */
  lemma FractionIsQuotient(x: Decimal, y: Decimal, s: int, r: int)
    ensures IsQuotient(Decimal(r, s), x, y) <==> r * Divisor(x, y, s) == Numerator(x, y, s)
  {
    var shift := s - (x.scale - y.scale);
    if shift < 0 {
      var p := Pow(10, -shift);
      assert r * (y.unscaled * p) == (r * y.unscaled) * p;
    }
  }

  /** How often `p` divides `n`. */
  method Factor(n: int, p: int) returns (f: nat)
    requires n > 0 && p > 1
    ensures Factors(n, p, f)
  {
    var d := n;
    f := 0;
    while d % p == 0
      invariant d > 0 && n == Pow(p, f) * d
      decreases d
    {
      FactorStep(n, p, f, d);
      d := d / p;
      f := f + 1;
    }
    FactorsBy(n, p, f, d);
  }

  lemma FactorStep(n: int, p: int, f: nat, d: int)
    requires p > 1 && d > 0 && d % p == 0 && n == Pow(p, f) * d
    ensures 0 < d / p < d && n == Pow(p, f + 1) * (d / p)
  {
    var e := d / p;
    assert d == p * e;
    ProperPart(p, e);
    var c := Pow(p, f);
    assert c * (p * e) == (p * c) * e;
  }

  lemma ProperPart(p: int, e: int)
    requires p > 1 && p * e > 0
    ensures 0 < e < p * e
  {
    assert e <= 0 ==> p * e <= 0;
    assert e > 0 ==> p * e >= 2 * e;
  }

  lemma FactorsBy(n: int, p: int, f: nat, c: int)
    requires p > 1 && n == Pow(p, f) * c && c % p != 0
    ensures Factors(n, p, f)
  {
    DividesBy(Pow(p, f), n, c);
    DividesIffMod(Pow(p, f), n);
    QuotientOf(n, Pow(p, f), c);
  }

  /** Bit `f` of a non-negative number. */
  function Bit(n: int, f: nat): int {
    (n / Pow(2, f)) % 2
  }

  /** The position of the lowest bit that is set. */
  method Factor2(n: int) returns (f: nat)
    requires n > 0
    ensures Factors(n, 2, f)
  {
    f := 0;
    ghost var d := n;
    while Bit(n, f) == 0
      invariant d > 0 && n == Pow(2, f) * d && n / Pow(2, f) == d
      decreases d
    {
      FactorStep(n, 2, f, d);
      d := d / 2;
      f := f + 1;
      QuotientOf(n, Pow(2, f), d);
    }
    FactorsBy(n, 2, f, d);
  }

  /** The scale of an exact quotient: no smaller one ever holds it, and where one does, this does. */
  method ExactScale(x: Decimal, y: Decimal) returns (s: int)
    requires y.unscaled != 0
    ensures s >= x.scale - y.scale
    ensures var least := s - (x.scale - y.scale);
      forall k: nat :: Enough(x, y, k) <==> Enough(x, y, least) && least <= k
  {
    hide Factors, Pow, Enough;
    LowestTerms(x.unscaled, y.unscaled);
    var den := Denominator(x.unscaled, y.unscaled);
    var f2 := Factor2(den);
    var f5 := Factor(den, 5);
    var f10 := if f2 > f5 then f2 else f5;
    LeastEnough(x, y, f2, f5, f10);
    s := x.scale - y.scale + f10;
  }

  class Dec {
    var unscaled: int
    var scale: int

    function Value(): (d: Decimal)
      reads this
    {
      Decimal(unscaled, scale)
    }

    constructor ()
      ensures Value() == Decimal(0, 0)
    {
      unscaled, scale := 0, 0;
    }

    method Set(x: Dec)
      modifies this
      ensures Value() == old(x.Value())
    {
      if this != x {
        unscaled := x.unscaled;
        scale := x.scale;
      }
    }

    /** The truncated quotient at scale `s`, with its remainder as a fraction. */
    method QuoRem(x: Dec, y: Dec, s: int, useRem: bool) returns (remNum: int, remDen: int)
      requires y.unscaled != 0
      modifies this
      ensures scale == s
      ensures var a, b := Numerator(old(x.Value()), old(y.Value()), s), Divisor(old(x.Value()), old(y.Value()), s);
        && Truncated(a, b, unscaled, a - unscaled * b)
        && (useRem ==> remNum == a - unscaled * b && remDen == b)
    {
      var shift := s - (x.scale - y.scale);
      var ix, iy := x.unscaled, y.unscaled;
      if shift > 0 {
        ix := x.unscaled * Pow(10, shift);
      } else if shift < 0 {
        iy := y.unscaled * Pow(10, -shift);
      }
      NonZeroDivisor(y.unscaled, shift);
      assert ix == Numerator(x.Value(), y.Value(), s) && iy == Divisor(x.Value(), y.Value(), s);
      TruncatedQuo(ix, iy);
      scale := s;
      unscaled := TruncQuo(ix, iy);
      if useRem {
        remNum, remDen := TruncRem(ix, iy), iy;
      } else {
        remNum, remDen := 0, 0;
      }
    }

    /** `rA` and `rB` are the remainder that the truncated quotient `q` left. */
    method RoundHalf(mode: Mode, q: Dec, rA: int, rB: int)
      requires mode.HalfDown? || mode.HalfUp? || mode.HalfEven?
      requires this != q && rB != 0 && Abs(rA) < Abs(rB)
      modifies this
      ensures scale == q.scale
      ensures unscaled == if MovesAway(mode, Compare(2 * Abs(rA), Abs(rB)), q.unscaled % 2 == 1)
                          then q.unscaled + Unit(rA, rB) else q.unscaled
    {
      Set(q);
      var brA, brB := BitLen(Abs(rA)), BitLen(Abs(rB));
      if brA < brB - 1 {
        ShortIsBelowHalf(Abs(rA), Abs(rB));
        return;
      }
      var roundUp := false;
      var srA, srB := Sign(rA), Sign(rB);
      var s := srA * srB;
      if brA == brB - 1 {
        var rA2 := 2 * rA;
        if s < 0 {
          rA2 := -rA2;
        }
        roundUp := MovesAway(mode, Compare(rA2, rB) * srB, unscaled % 2 == 1);
        assert rA == 0 ==> brB == 1;
      } else {
        LongIsAboveHalf(Abs(rA), Abs(rB));
        roundUp := true;
      }
      if roundUp {
        unscaled := unscaled + s;
      }
    }

    /** The rounders; only the exact one can refuse, and it does so when a remainder is left. */
    method Round(mode: Mode, q: Dec, rA: int, rB: int, ghost a: int, ghost b: int) returns (ok: bool)
      requires this != q && Truncated(a, b, q.unscaled, a - q.unscaled * b)
      requires !mode.Down? ==> rA == a - q.unscaled * b && rB == b
      modifies this
      ensures ok == (mode.Exact? ==> a == q.unscaled * b)
      ensures ok ==> scale == q.scale && Rounded(mode, a, b, unscaled)
    {
      hide Rounded;
      ok := true;
      match mode {
        case Exact =>
          if rA != 0 {
            return false;
          }
          Set(q);
          ExactRounds(a, b, unscaled);
        case Down =>
          Set(q);
          DownRounds(a, b, unscaled, a - unscaled * b);
        case Up =>
          UpRounds(a, b, q.unscaled, rA);
          Set(q);
          if rA != 0 {
            unscaled := unscaled + Sign(rA) * Sign(rB);
          }
        case Floor =>
          FloorRounds(a, b, q.unscaled, rA);
          Set(q);
          if Sign(rA) * Sign(rB) < 0 {
            unscaled := unscaled - 1;
          }
        case Ceil =>
          CeilRounds(a, b, q.unscaled, rA);
          Set(q);
          if Sign(rA) * Sign(rB) > 0 {
            unscaled := unscaled + 1;
          }
        case _ =>
          HalfRounds(mode, a, b, q.unscaled, rA);
          RoundHalf(mode, q, rA, rB);
      }
    }

    /** Rounds the exact quotient at scale `s`; refuses only where the exact mode must. */
    method QuoRound(x: Dec, y: Dec, s: int, mode: Mode) returns (ok: bool)
      requires y.unscaled != 0
      modifies this
      ensures var a, b := Numerator(old(x.Value()), old(y.Value()), s), Divisor(old(x.Value()), old(y.Value()), s);
        && (ok <==> mode != Exact || Divides(b, a))
        && (ok ==> scale == s && Rounded(mode, a, b, unscaled))
    {
      hide Rounded;
      ghost var a, b := Numerator(x.Value(), y.Value(), s), Divisor(x.Value(), y.Value(), s);
      var zz := new Dec();
      var rA, rB := zz.QuoRem(x, y, s, mode != Down);
      TruncatedExact(a, b, zz.unscaled);
      var zzz := new Dec();
      ok := zzz.Round(mode, zz, rA, rB, a, b);
      if ok {
        Set(zzz);
      }
    }

    /** Exact division: it succeeds just when the quotient is finite, at the least scale that holds it. */
    method QuoExact(x: Dec, y: Dec) returns (ok: bool)
      requires y.unscaled != 0
      modifies this
      ensures ok <==> FiniteQuotient(old(x.Value()), old(y.Value()))
      ensures ok ==> IsQuotient(Value(), old(x.Value()), old(y.Value()))
      ensures ok ==> var xv, yv := old(x.Value()), old(y.Value());
        scale >= xv.scale - yv.scale && forall k: nat :: Enough(xv, yv, k) <==> scale - (xv.scale - yv.scale) <= k
    {
      var xv, yv := x.Value(), y.Value();
      var s := ExactScale(xv, yv);
      ok := QuoRound(x, y, s, Exact);
      ghost var k: nat := s - (xv.scale - yv.scale);
      ExactMeans(xv, yv, s, k, unscaled, ok);
    }
  }

  lemma ExactRounds(a: int, b: int, r: int)
    requires b != 0 && a == r * b
    ensures Rounded(Exact, a, b, r)
  {
    assert r * -b == -(r * b);
  }

  /** The truncated quotient is exact just when the divisor divides. */
  lemma TruncatedExact(a: int, b: int, q: int)
    requires Truncated(a, b, q, a - q * b)
    ensures Divides(b, a) <==> a == q * b
  {
    if Divides(b, a) {
      var p: int :| a == p * b;
      var r := a - q * b;
      assert (p - q) * b == r;
      if r >= 0 {
        SmallMultiple(p - q, b, r);
      } else {
        assert (q - p) * b == -r;
        SmallMultiple(q - p, b, -r);
      }
    }
  }

  lemma ExactMeans(x: Decimal, y: Decimal, s: int, k: nat, u: int, ok: bool)
    requires y.unscaled != 0 && s == x.scale - y.scale + k
    requires forall j: nat :: Enough(x, y, j) <==> Enough(x, y, k) && k <= j
    requires ok <==> Divides(Divisor(x, y, s), Numerator(x, y, s))
    requires ok ==> Rounded(Exact, Numerator(x, y, s), Divisor(x, y, s), u)
    ensures ok <==> FiniteQuotient(x, y)
    ensures ok ==> IsQuotient(Decimal(u, s), x, y)
    ensures ok <==> Enough(x, y, k)
  {
    assert Pow(10, 0) == 1;
    assert Numerator(x, y, s) == x.unscaled * Pow(10, k) && Divisor(x, y, s) == y.unscaled;
    FiniteIffEnough(x, y);
    if ok {
      var b := y.unscaled;
      assert b < 0 ==> u * -b == -(u * b);
      EnoughGives(x, y, k, u);
    }
  }

  lemma NonZeroDivisor(u: int, shift: int)
    requires u != 0
    ensures shift < 0 ==> u * Pow(10, -shift) != 0
  {
    if shift < 0 {
      NonZero(u, Pow(10, -shift));
    }
  }
}
