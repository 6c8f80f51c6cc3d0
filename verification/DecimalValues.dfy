/** What a decimal stands for, and when the quotient of two of them is a decimal again. */
module DecimalValues {
  import opened NumberTheory

  /** The value `unscaled * 10^(-scale)`. */
  datatype Decimal = Decimal(unscaled: int, scale: int)

  function Lift(u: int, k: int): int {
    if k > 0 then u * Pow(10, k) else u
  }

  /** Equal values, brought to the larger of the two scales. */
  predicate SameValue(a: Decimal, b: Decimal) {
    Lift(a.unscaled, b.scale - a.scale) == Lift(b.unscaled, a.scale - b.scale)
  }

  function Product(a: Decimal, b: Decimal): Decimal {
    Decimal(a.unscaled * b.unscaled, a.scale + b.scale)
  }

  predicate IsQuotient(z: Decimal, x: Decimal, y: Decimal) {
    SameValue(Product(z, y), x)
  }

  /** The quotient has finitely many digits. */
  ghost predicate FiniteQuotient(x: Decimal, y: Decimal) {
    exists z: Decimal :: IsQuotient(z, x, y)
  }

  /** Whether `k` digits beyond the canonical scale are enough for the quotient. */
  ghost predicate Enough(x: Decimal, y: Decimal, k: nat) {
    Divides(y.unscaled, x.unscaled * Pow(10, k))
  }

  lemma EnoughGives(x: Decimal, y: Decimal, k: nat, u: int)
    requires u * y.unscaled == x.unscaled * Pow(10, k)
    ensures IsQuotient(Decimal(u, x.scale - y.scale + k), x, y)
  {
  }

  /** Where a quotient exists, its own scale shows how many digits are enough. */
  lemma QuotientNeeds(z: Decimal, x: Decimal, y: Decimal) returns (k: nat)
    requires IsQuotient(z, x, y)
    ensures Enough(x, y, k)
    ensures k == if z.scale > x.scale - y.scale then z.scale - (x.scale - y.scale) else 0
  {
    var t := x.scale - (z.scale + y.scale);
    k := if t < 0 then -t else 0;
    if t > 0 {
      var p := Pow(10, t);
      assert x.unscaled * Pow(10, 0) == (z.unscaled * p) * y.unscaled by {
        assert (z.unscaled * y.unscaled) * p == (z.unscaled * p) * y.unscaled;
      }
      DividesBy(y.unscaled, x.unscaled * Pow(10, 0), z.unscaled * p);
    } else {
      DividesBy(y.unscaled, x.unscaled * Pow(10, k), z.unscaled);
    }
  }

  lemma FiniteIffEnough(x: Decimal, y: Decimal)
    ensures FiniteQuotient(x, y) <==> exists k: nat :: Enough(x, y, k)
  {
    if FiniteQuotient(x, y) {
      var z :| IsQuotient(z, x, y);
      var k := QuotientNeeds(z, x, y);
    }
    if exists k: nat :: Enough(x, y, k) {
      var k: nat :| Enough(x, y, k);
      var u: int :| x.unscaled * Pow(10, k) == u * y.unscaled;
      EnoughGives(x, y, k, u);
    }
  }

  // ---------------------------------------------------------------- lowest terms

  /** The denominator of `n/d` in lowest terms, as `big.Rat` keeps it. */
  function Denominator(n: int, d: int): (den: int)
    requires d != 0
  {
    Abs(d) / Gcd(Abs(n), Abs(d))
  }

  lemma LowestTerms(n: int, d: int)
    requires d != 0
    ensures var g := Gcd(Abs(n), Abs(d)); var den := Denominator(n, d);
      den > 0 && Abs(d) == den * g && Divides(g, n) && Coprime(den, n / g)
  {
    var a, b := Abs(n), Abs(d);
    var g, den := Gcd(a, b), Denominator(n, d);
    GcdDivides(a, b);
    var u, v := Bezout(a, b);
    hide Gcd, Divides, Coprime;
    var c := ExactPart(a, g);
    var e := ExactPart(b, g);
    assert den == e && b == den * g;
    assert den <= 0 ==> den * g <= 0;
    Reduce(u, v, c, den, g);
    QuotientOf(a, g, c);
    if n < 0 {
      assert n == (-c) * g;
      QuotientOf(n, g, -c);
      DividesBy(g, n, -c);
      CoprimeBy(den, -c, v, -u);
    } else {
      DividesBy(g, n, c);
      CoprimeBy(den, c, v, u);
    }
  }

  lemma ExactPart(n: int, g: int) returns (c: int)
    requires g > 0 && Divides(g, n)
    ensures n == c * g && c == n / g
  {
    DividesIffMod(g, n);
    c := n / g;
  }

  lemma QuotientOf(n: int, g: int, c: int)
    requires g > 0 && n == c * g
    ensures n / g == c
  {
    Cancel(g, n / g, c) by {
      DividesBy(g, n, c);
      DividesIffMod(g, n);
      assert g * (n / g) == n;
    }
  }

  lemma Reduce(u: int, v: int, c: int, den: int, g: int)
    requires g > 0 && u * (c * g) + v * (den * g) == g
    ensures v * den + u * c == 1
  {
    assert g * (v * den + u * c) == g * 1 by {
      assert u * (c * g) == g * (u * c);
      assert v * (den * g) == g * (v * den);
    }
    Cancel(g, v * den + u * c, 1);
  }

  /** The twos and fives of the reduced denominator say how many digits are enough. */
  lemma EnoughIff(x: Decimal, y: Decimal, f2: nat, f5: nat, k: nat)
    requires y.unscaled != 0
    requires var den := Denominator(x.unscaled, y.unscaled); den > 0 && Factors(den, 2, f2) && Factors(den, 5, f5)
    ensures Enough(x, y, k) <==>
      Denominator(x.unscaled, y.unscaled) == Pow(2, f2) * Pow(5, f5) && f2 <= k && f5 <= k
  {
    var n, d := x.unscaled, y.unscaled;
    LowestTerms(n, d);
    var den, g := Denominator(n, d), Gcd(Abs(n), Abs(d));
    hide Pow, Factors, Divides, Coprime, Gcd, Denominator;
    ClearedBy(n, d, den, g, Pow(10, k));
    DividesPowTen(den, f2, f5, k);
  }

  /** The larger of the two counts is the least number of digits that is ever enough. */
  lemma LeastEnough(x: Decimal, y: Decimal, f2: nat, f5: nat, least: nat)
    requires y.unscaled != 0
    requires var den := Denominator(x.unscaled, y.unscaled); den > 0 && Factors(den, 2, f2) && Factors(den, 5, f5)
    requires least == if f2 > f5 then f2 else f5
    ensures forall k: nat :: Enough(x, y, k) <==> Enough(x, y, least) && least <= k
  {
    hide Pow, Factors, Enough, Denominator;
    EnoughIff(x, y, f2, f5, least);
    forall k: nat ensures Enough(x, y, k) <==> Enough(x, y, least) && least <= k {
      EnoughIff(x, y, f2, f5, k);
    }
  }
}
