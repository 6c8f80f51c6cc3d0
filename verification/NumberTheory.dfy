/** Powers, divisibility, greatest common divisors and the factors of two and five. */
module NumberTheory {

  function Pow(b: int, k: nat): (p: int)
    ensures b >= 1 ==> p >= 1
  {
    if k == 0 then 1 else b * Pow(b, k - 1)
  }

  lemma {:induction false} PowAdd(b: int, j: nat, k: nat)
    ensures Pow(b, j + k) == Pow(b, j) * Pow(b, k)
  {
    if j != 0 {
      PowAdd(b, j - 1, k);
      assert b * (Pow(b, j - 1) * Pow(b, k)) == (b * Pow(b, j - 1)) * Pow(b, k);
    }
  }

  lemma {:induction false} PowTen(k: nat)
    ensures Pow(10, k) == Pow(2, k) * Pow(5, k)
  {
    if k != 0 {
      PowTen(k - 1);
      var a, b := Pow(2, k - 1), Pow(5, k - 1);
      assert 10 * (a * b) == (2 * a) * (5 * b);
    }
  }

  function Abs(n: int): nat {
    if n < 0 then -n else n
  }

  // ---------------------------------------------------------------- divisibility

  ghost predicate Divides(d: int, n: int) {
    exists q: int :: n == q * d
  }

  lemma DividesBy(d: int, n: int, q: int)
    requires n == q * d
    ensures Divides(d, n)
  {
  }

  lemma DividesMul(d: int, n: int, c: int)
    requires Divides(d, n)
    ensures Divides(d, n * c) && Divides(d, c * n)
  {
    var q: int :| n == q * d;
    assert n * c == (q * c) * d by {
      assert (q * d) * c == (q * c) * d;
    }
    assert c * n == n * c;
  }

  lemma DividesSum(d: int, m: int, n: int)
    requires Divides(d, m) && Divides(d, n)
    ensures Divides(d, m + n)
  {
    var p: int :| m == p * d;
    var q: int :| n == q * d;
    assert m + n == (p + q) * d;
  }

  lemma DividesTrans(a: int, b: int, c: int)
    requires Divides(a, b) && Divides(b, c)
    ensures Divides(a, c)
  {
    var p: int :| b == p * a;
    var q: int :| c == q * b;
    assert c == (q * p) * a by {
      assert q * (p * a) == (q * p) * a;
    }
  }

  /** Common factors may be cancelled. */
  lemma DividesCancel(g: int, d: int, n: int)
    requires g != 0 && Divides(g * d, g * n)
    ensures Divides(d, n)
  {
    var q: int :| g * n == q * (g * d);
    assert g * n == g * (q * d) by {
      assert q * (g * d) == g * (q * d);
    }
    Cancel(g, n, q * d);
  }

  lemma NonZero(a: int, b: int)
    requires a != 0 && b != 0
    ensures a * b != 0
  {
    assert a > 0 && b > 0 ==> a * b > 0;
    assert a > 0 && b < 0 ==> a * b < 0;
    assert a < 0 && b > 0 ==> a * b < 0;
    assert a < 0 && b < 0 ==> a * b > 0;
  }

  lemma Cancel(g: int, a: int, b: int)
    requires g != 0 && g * a == g * b
    ensures a == b
  {
    assert g * (a - b) == 0;
    if a != b {
      NonZero(g, a - b);
    }
  }

  lemma DividesScale(g: int, d: int, n: int)
    requires Divides(d, n)
    ensures Divides(g * d, g * n)
  {
    var q: int :| n == q * d;
    assert g * n == q * (g * d) by {
      assert g * (q * d) == q * (g * d);
    }
  }

  /** Divisibility is a zero remainder. */
  lemma DividesIffMod(d: int, n: int)
    requires d != 0
    ensures Divides(d, n) <==> n % d == 0
  {
    if n % d == 0 {
      DividesBy(d, n, n / d);
    }
    if Divides(d, n) {
      var q: int :| n == q * d;
      var r := n % d;
      assert n == (n / d) * d + r;
      assert (q - n / d) * d == r;
      SmallMultiple(q - n / d, d, r);
    }
  }

  lemma SmallMultiple(q: int, d: int, r: int)
    requires d != 0 && q * d == r && 0 <= r < (if d > 0 then d else -d)
    ensures r == 0
  {
    var m := if d > 0 then d else -d;
    var p := if d > 0 then q else -q;
    assert p * m == q * d;
    assert p >= 1 ==> p * m >= m;
    assert p <= -1 ==> p * m <= -m;
  }

  // ---------------------------------------------------------------- coprimality

  /** Coprime numbers combine to one. */
  ghost predicate Coprime(a: int, b: int) {
    exists u: int, v: int :: u * a + v * b == 1
  }

  lemma CoprimeBy(a: int, b: int, u: int, v: int)
    requires u * a + v * b == 1
    ensures Coprime(a, b)
  {
  }

  /** A divisor of a product, coprime to one factor, divides the other. */
  lemma Gauss(d: int, a: int, c: int)
    requires Coprime(d, a) && Divides(d, a * c)
    ensures Divides(d, c)
  {
    var u: int, v: int :| u * d + v * a == 1;
    var q: int :| a * c == q * d;
    calc {
      c;
      (u * d + v * a) * c;
      u * d * c + v * (a * c);
      u * d * c + v * (q * d);
      (u * c + v * q) * d;
    }
  }

  lemma {:induction false} GaussPow(d: int, a: int, k: nat)
    requires Coprime(d, a) && Divides(d, Pow(a, k))
    ensures Divides(d, 1)
  {
    if k != 0 {
      Gauss(d, a, Pow(a, k - 1));
      GaussPow(d, a, k - 1);
    }
  }

  lemma DivisorOfOne(d: int)
    requires d > 0 && Divides(d, 1)
    ensures d == 1
  {
    var q: int :| 1 == q * d;
    assert q <= 0 ==> q * d <= 0;
    assert q >= 1 ==> q * d >= d;
  }

  // ---------------------------------------------------------------- greatest common divisor

  function Gcd(a: nat, b: nat): (g: nat)
    requires a > 0 || b > 0
    ensures g > 0
    decreases b
  {
    if b == 0 then a else Gcd(b, a % b)
  }

  lemma {:induction false} GcdDivides(a: nat, b: nat)
    requires a > 0 || b > 0
    ensures Divides(Gcd(a, b), a) && Divides(Gcd(a, b), b)
    decreases b
  {
    if b == 0 {
      DividesBy(a, a, 1);
      DividesBy(a, 0, 0);
    } else {
      var g := Gcd(b, a % b);
      GcdDivides(b, a % b);
      DividesMul(g, b, a / b);
      assert a == b * (a / b) + a % b;
      DividesSum(g, b * (a / b), a % b);
    }
  }

  lemma {:induction false} Bezout(a: nat, b: nat) returns (u: int, v: int)
    requires a > 0 || b > 0
    ensures u * a + v * b == Gcd(a, b)
    decreases b
  {
    if b == 0 {
      u, v := 1, 0;
    } else {
      var p, q := Bezout(b, a % b);
      u, v := q, p - q * (a / b);
      var r, h := a % b, a / b;
      assert a == h * b + r;
      assert q * a == q * (h * b) + q * r;
      assert (p - q * h) * b == p * b - (q * h) * b;
      assert (q * h) * b == q * (h * b);
    }
  }

  // ---------------------------------------------------------------- factors of two and five

  lemma {:induction false} CoprimePow(a: int, b: int, k: nat)
    requires Coprime(a, b)
    ensures Coprime(a, Pow(b, k))
  {
    if k == 0 {
      CoprimeBy(a, 1, 0, 1);
    } else {
      CoprimePow(a, b, k - 1);
      var q := Pow(b, k - 1);
      var u: int, v: int :| u * a + v * b == 1;
      var s: int, t: int :| s * a + t * q == 1;
      CoprimeProduct(a, b, q, u, v, s, t);
    }
  }

  lemma CoprimeProduct(a: int, b: int, q: int, u: int, v: int, s: int, t: int)
    requires u * a + v * b == 1 && s * a + t * q == 1
    ensures Coprime(a, b * q)
  {
    var w := v * t;
    assert (u * a + v * b) * (s * a + t * q) == (u * (s * a + t * q) + v * b * s) * a + w * (b * q) by {
      assert v * b * (s * a + t * q) == v * b * s * a + v * b * (t * q);
      assert v * b * (t * q) == w * (b * q);
    }
    CoprimeBy(a, b * q, u * (s * a + t * q) + v * b * s, w);
  }

  lemma CoprimeSym(a: int, b: int)
    requires Coprime(a, b)
    ensures Coprime(b, a)
  {
    var u: int, v: int :| u * a + v * b == 1;
    CoprimeBy(b, a, v, u);
  }

  lemma MultipleIs(p: int, h: int, m: int)
    requires p > 0 && m == h * p
    ensures m % p == 0
  {
    DividesBy(p, m, h);
    DividesIffMod(p, m);
  }

  lemma LastDigit(m: int, q: int, r: int)
    requires m == 10 * q + r && 0 <= r < 10 && m % 2 != 0 && m % 5 != 0
    ensures r == 1 || r == 3 || r == 7 || r == 9
  {
    if r == 0 || r == 2 || r == 4 || r == 6 || r == 8 {
      MultipleIs(2, 5 * q + r / 2, m);
    } else if r == 5 {
      MultipleIs(5, 2 * q + 1, m);
    }
  }

  /** Coprime to ten is what the last digit says. */
  lemma CoprimeTen(m: int)
    requires m % 2 != 0 && m % 5 != 0
    ensures Coprime(m, 10)
  {
    var q, r := m / 10, m % 10;
    assert m == 10 * q + r;
    LastDigit(m, q, r);
    if r == 1 {
      CoprimeBy(m, 10, 1, -q);
    } else if r == 3 {
      CoprimeBy(m, 10, 7, -(7 * q + 2));
    } else if r == 7 {
      CoprimeBy(m, 10, 3, -(3 * q + 2));
    } else {
      CoprimeBy(m, 10, 9, -(9 * q + 8));
    }
  }

  /** How often `p` divides `n`. */
  predicate Factors(n: int, p: int, f: nat)
    requires p > 1
  {
    n % Pow(p, f) == 0 && (n / Pow(p, f)) % p != 0
  }

  lemma FactorsSplit(n: int, p: int, f: nat) returns (c: int)
    requires p > 1 && Factors(n, p, f)
    ensures n == Pow(p, f) * c && c % p != 0
  {
    c := n / Pow(p, f);
  }

  lemma CoprimeTwoFive(j: nat, k: nat)
    ensures Coprime(Pow(5, j), Pow(2, k)) && Coprime(Pow(2, j), Pow(5, k))
  {
    CoprimeBy(5, 2, 1, -2);
    CoprimePow(5, 2, k);
    CoprimeSym(5, Pow(2, k));
    CoprimePow(Pow(2, k), 5, j);
    CoprimeSym(Pow(2, k), Pow(5, j));
    CoprimeBy(2, 5, -2, 1);
    CoprimePow(2, 5, k);
    CoprimeSym(2, Pow(5, k));
    CoprimePow(Pow(5, k), 2, j);
    CoprimeSym(Pow(5, k), Pow(2, j));
  }

  lemma MultipleMul(p: int, m: int, c: int)
    requires p > 0 && m % p == 0
    ensures (m * c) % p == 0 && (c * m) % p == 0
  {
    DividesIffMod(p, m);
    DividesMul(p, m, c);
    DividesIffMod(p, m * c);
    assert m * c == c * m;
  }

  /** A number is its twos, its fives and a rest that has neither. */
  lemma SplitTen(n: int, f2: nat, f5: nat) returns (m: int)
    requires n > 0 && Factors(n, 2, f2) && Factors(n, 5, f5)
    ensures n == Pow(2, f2) * (Pow(5, f5) * m) && m % 2 != 0 && m % 5 != 0 && m > 0
  {
    var a := FactorsSplit(n, 2, f2);
    var b := FactorsSplit(n, 5, f5);
    hide Pow, Factors;
    var p2, p5 := Pow(2, f2), Pow(5, f5);
    CoprimeTwoFive(f5, f2);
    m := CommonRest(p2, p5, a, b);
    if m % 2 == 0 {
      MultipleMul(2, m, p5);
    }
    if m % 5 == 0 {
      MultipleMul(5, m, p2);
    }
    if m <= 0 {
      NotPositive(p5, m);
      NotPositive(p2, p5 * m);
    }
  }

  lemma NotPositive(p: int, m: int)
    requires p > 0 && m <= 0
    ensures p * m <= 0
  {
  }

  /** Two splittings of one number by coprime factors share a rest. */
  lemma CommonRest(p: int, q: int, a: int, b: int) returns (m: int)
    requires q != 0 && Coprime(q, p) && p * a == q * b
    ensures a == q * m && b == p * m
  {
    DividesBy(q, p * a, b);
    Gauss(q, p, a);
    m :| a == m * q;
    assert q * b == q * (p * m) by {
      assert p * (m * q) == q * (p * m);
    }
    Cancel(q, b, p * m);
  }

  /** A power of `p` in `p^k * q^k`, with `q` coprime to `p`, is at most the `k`-th. */
  lemma PowerFits(p: int, q: int, f: nat, k: nat)
    requires p > 1 && Coprime(p, q) && Divides(Pow(p, f), Pow(p, k) * Pow(q, k))
    ensures f <= k
  {
    if f > k {
      PowAdd(p, k, f - k);
      DividesCancel(Pow(p, k), Pow(p, f - k), Pow(q, k));
      DividesBy(p, Pow(p, f - k), Pow(p, f - k - 1));
      DividesTrans(p, Pow(p, f - k), Pow(q, k));
      GaussPow(p, q, k);
      DivisorOfOne(p);
    }
  }

  lemma Parts(n: int, p: int, q: int, m: int)
    requires n == p * (q * m)
    ensures Divides(m, n) && Divides(p, n) && Divides(q, n) && (m == 1 ==> n == p * q)
  {
    assert p * (q * m) == (p * q) * m == (q * m) * p == (p * m) * q;
    DividesBy(m, n, p * q);
    DividesBy(p, n, q * m);
    DividesBy(q, n, p * m);
  }

  lemma Shuffle(p: int, c: int, q: int, d: int)
    ensures (p * c) * (q * d) == (c * d) * (p * q)
  {
    assert (p * c) * (q * d) == p * (c * (q * d)) == p * (q * (c * d)) == (p * q) * (c * d);
  }

  lemma PowTenNeeds(n: int, f2: nat, f5: nat, k: nat)
    requires n > 0 && Factors(n, 2, f2) && Factors(n, 5, f5) && Divides(n, Pow(10, k))
    ensures n == Pow(2, f2) * Pow(5, f5) && f2 <= k && f5 <= k
  {
    var m := SplitTen(n, f2, f5);
    hide Pow, Factors, Divides, Coprime;
    Parts(n, Pow(2, f2), Pow(5, f5), m);
    DividesTrans(m, n, Pow(10, k));
    CoprimeTen(m);
    GaussPow(m, 10, k);
    DivisorOfOne(m);
    DividesTrans(Pow(2, f2), n, Pow(10, k));
    DividesTrans(Pow(5, f5), n, Pow(10, k));
    PowersFit(f2, f5, k);
  }

  lemma PowersFit(f2: nat, f5: nat, k: nat)
    requires Divides(Pow(2, f2), Pow(10, k)) && Divides(Pow(5, f5), Pow(10, k))
    ensures f2 <= k && f5 <= k
  {
    hide Pow, Divides, Coprime;
    PowTen(k);
    CoprimeBy(2, 5, -2, 1);
    CoprimeBy(5, 2, 1, -2);
    assert Pow(2, k) * Pow(5, k) == Pow(5, k) * Pow(2, k);
    PowerFits(2, 5, f2, k);
    PowerFits(5, 2, f5, k);
  }

  lemma PowTenSuffices(f2: nat, f5: nat, k: nat)
    requires f2 <= k && f5 <= k
    ensures Divides(Pow(2, f2) * Pow(5, f5), Pow(10, k))
  {
    PowTen(k);
    PowAdd(2, f2, k - f2);
    PowAdd(5, f5, k - f5);
    hide Pow;
    var p2, p5, c, d := Pow(2, f2), Pow(5, f5), Pow(2, k - f2), Pow(5, k - f5);
    Shuffle(p2, c, p5, d);
    DividesBy(p2 * p5, Pow(10, k), c * d);
  }

  /** Exactly the numbers made of at most `k` twos and `k` fives divide the `k`-th power of ten. */
  lemma DividesPowTen(n: int, f2: nat, f5: nat, k: nat)
    requires n > 0 && Factors(n, 2, f2) && Factors(n, 5, f5)
    ensures Divides(n, Pow(10, k)) <==> n == Pow(2, f2) * Pow(5, f5) && f2 <= k && f5 <= k
  {
    hide Pow, Factors, Divides;
    if Divides(n, Pow(10, k)) {
      PowTenNeeds(n, f2, f5, k);
    }
    if n == Pow(2, f2) * Pow(5, f5) && f2 <= k && f5 <= k {
      PowTenSuffices(f2, f5, k);
    }
  }

  /** Reduced to lowest terms, a fraction's denominator decides which powers of ten clear it. */
  lemma ClearedBy(n: int, d: int, den: int, g: int, t: int)
    requires d != 0 && g > 0 && (if d > 0 then d else -d) == den * g
    requires Divides(g, n) && Coprime(den, n / g)
    ensures Divides(d, n * t) <==> Divides(den, t)
  {
    var c := n / g;
    DividesIffMod(g, n);
    assert n == g * c;
    assert n * t == g * (c * t);
    var e := if d > 0 then d else -d;
    assert Divides(d, n * t) <==> Divides(e, n * t) by {
      if Divides(d, n * t) {
        var q: int :| n * t == q * d;
        DividesBy(e, n * t, if d > 0 then q else -q);
      }
      if Divides(e, n * t) {
        var q: int :| n * t == q * e;
        DividesBy(d, n * t, if d > 0 then q else -q);
      }
    }
    assert e == g * den;
    if Divides(e, n * t) {
      DividesCancel(g, den, c * t);
      Gauss(den, c, t);
    }
    if Divides(den, t) {
      DividesMul(den, t, c);
      DividesScale(g, den, c * t);
    }
  }
}
