/** The rounding modes, defined on an exact fraction, and what truncated division leaves to round. */
module Rounding {
  import opened NumberTheory

  function Sign(n: int): int {
    if n < 0 then -1 else if n > 0 then 1 else 0
  }

  /** Division rounding toward zero, as `big.Int.Quo` does. */
  function TruncQuo(a: int, b: int): int
    requires b != 0
  {
    var q := Abs(a) / Abs(b);
    if (a < 0) != (b < 0) then -q else q
  }

  function TruncRem(a: int, b: int): int
    requires b != 0
  {
    var r := Abs(a) % Abs(b);
    if a < 0 then -r else r
  }

  datatype Mode = Exact | Down | Up | Floor | Ceil | HalfDown | HalfUp | HalfEven

  /** `r` is at most `a/b` and less than one below it. */
  predicate IsFloor(a: int, b: int, r: int) {
    r * b <= a < (r + 1) * b
  }

  predicate IsCeil(a: int, b: int, r: int) {
    (r - 1) * b < a <= r * b
  }

  /** No integer is nearer to `a/b` than `r`. */
  predicate IsNearest(a: int, b: int, r: int) {
    -b <= 2 * (a - r * b) <= b
  }

  predicate IsTie(a: int, b: int, r: int) {
    2 * (a - r * b) == b || 2 * (a - r * b) == -b
  }

  /** The modes for a positive denominator. */
  predicate RoundedPositive(mode: Mode, a: int, b: int, r: int)
    requires b > 0
  {
    match mode
    case Exact => r * b == a
    case Down => if a >= 0 then IsFloor(a, b, r) else IsCeil(a, b, r)
    case Up => if a >= 0 then IsCeil(a, b, r) else IsFloor(a, b, r)
    case Floor => IsFloor(a, b, r)
    case Ceil => IsCeil(a, b, r)
    case HalfDown => IsNearest(a, b, r) && (IsTie(a, b, r) ==> Abs(r) * b < Abs(a))
    case HalfUp => IsNearest(a, b, r) && (IsTie(a, b, r) ==> Abs(r) * b > Abs(a))
    case HalfEven => IsNearest(a, b, r) && (IsTie(a, b, r) ==> r % 2 == 0)
  }

  /** `r` is the fraction `a/b` rounded to an integer. */
  predicate Rounded(mode: Mode, a: int, b: int, r: int)
    requires b != 0
  {
    if b > 0 then RoundedPositive(mode, a, b, r) else RoundedPositive(mode, -a, -b, r)
  }

  // ---------------------------------------------------------------- the definitions determine the result

  lemma FloorUnique(a: int, b: int, r: int, s: int)
    requires b > 0 && IsFloor(a, b, r) && IsFloor(a, b, s)
    ensures r == s
  {
    assert r >= s + 1 ==> r * b >= (s + 1) * b;
    assert s >= r + 1 ==> s * b >= (r + 1) * b;
  }

  lemma CeilUnique(a: int, b: int, r: int, s: int)
    requires b > 0 && IsCeil(a, b, r) && IsCeil(a, b, s)
    ensures r == s
  {
    assert r >= s + 1 ==> (r - 1) * b >= s * b;
    assert s >= r + 1 ==> (s - 1) * b >= r * b;
  }

  lemma NearestApart(a: int, b: int, r: int, s: int)
    requires b > 0 && IsNearest(a, b, r) && IsNearest(a, b, s) && r < s
    ensures s == r + 1 && 2 * (a - r * b) == b && 2 * (a - s * b) == -b
  {
    assert s * b == r * b + (s - r) * b;
    assert s - r >= 2 ==> (s - r) * b >= 2 * b;
    assert s - r == 1 ==> (s - r) * b == b;
  }

  lemma TieApart(mode: Mode, a: int, b: int, r: int, s: int)
    requires b > 0 && (mode.HalfDown? || mode.HalfUp? || mode.HalfEven?) && r < s
    requires RoundedPositive(mode, a, b, r)
    ensures !RoundedPositive(mode, a, b, s)
  {
    if RoundedPositive(mode, a, b, s) {
      AbsTimes(r, b);
      AbsTimes(s, b);
      NearestApart(a, b, r, s);
    }
  }

  /** Each mode allows one result at most. */
  lemma RoundedUnique(mode: Mode, a: int, b: int, r: int, s: int)
    requires b != 0 && Rounded(mode, a, b, r) && Rounded(mode, a, b, s)
    ensures r == s
  {
    var c, d := if b > 0 then a else -a, if b > 0 then b else -b;
    if mode.Exact? {
      assert d * r == r * d && d * s == s * d;
      Cancel(d, r, s);
    } else if mode.HalfDown? || mode.HalfUp? || mode.HalfEven? {
      if r < s {
        TieApart(mode, c, d, r, s);
      } else if s < r {
        TieApart(mode, c, d, s, r);
      }
    } else if IsFloor(c, d, r) && IsFloor(c, d, s) {
      FloorUnique(c, d, r, s);
    } else {
      CeilUnique(c, d, r, s);
    }
  }

  // ---------------------------------------------------------------- from the truncated quotient

  /** A truncated quotient and its remainder. */
  predicate Truncated(a: int, b: int, q: int, rem: int) {
    && b != 0 && a == q * b + rem && Abs(rem) < Abs(b)
    && (rem == 0 || Sign(rem) == Sign(a))
    && (q == 0 || Sign(q) == Sign(a) * Sign(b))
  }

  lemma TruncatedQuo(a: int, b: int)
    requires b != 0
    ensures Truncated(a, b, TruncQuo(a, b), TruncRem(a, b))
  {
    hide Truncated;
    var m, n := Abs(a), Abs(b);
    var q, r := m / n, m % n;
    assert m == q * n + r;
    SignedDivision(a, b, q, r);
  }

  lemma SignedDivision(a: int, b: int, q: int, r: int)
    requires b != 0 && q >= 0 && 0 <= r < Abs(b) && Abs(a) == q * Abs(b) + r
    ensures Truncated(a, b, if (a < 0) != (b < 0) then -q else q, if a < 0 then -r else r)
  {
    if a == 0 {
      assert q > 0 ==> q * Abs(b) >= Abs(b);
    } else if b < 0 {
      assert (-q) * b == q * -b && q * b == -(q * -b);
    } else {
      assert (-q) * b == -(q * b);
    }
  }

  /** The quotient and remainder of the fraction with its sign in the numerator. */
  lemma Normal(a: int, b: int, q: int, rem: int) returns (c: int, d: int, m: int)
    requires Truncated(a, b, q, rem)
    ensures c == (if b > 0 then a else -a) && d == Abs(b) && m == (if b > 0 then rem else -rem)
    ensures d > 0 && c == q * d + m && Abs(m) < d
    ensures m > 0 ==> c > 0 && q >= 0
    ensures m < 0 ==> c < 0 && q <= 0
    ensures Sign(m) == Sign(rem) * Sign(b)
    ensures q > 0 ==> c > 0
    ensures q < 0 ==> c < 0
  {
    c, d, m := if b > 0 then a else -a, Abs(b), if b > 0 then rem else -rem;
    assert b < 0 ==> q * -b == -(q * b);
  }

  /** The unit that a rounder may add: away from zero on the side of the exact value. */
  function Unit(rem: int, b: int): int {
    Sign(rem) * Sign(b)
  }

  lemma DownRounds(a: int, b: int, q: int, rem: int)
    requires Truncated(a, b, q, rem)
    ensures Rounded(Down, a, b, q)
  {
    var c, d, m := Normal(a, b, q, rem);
    assert (q + 1) * d == q * d + d && (q - 1) * d == q * d - d;
  }

  lemma UpRounds(a: int, b: int, q: int, rem: int)
    requires Truncated(a, b, q, rem)
    ensures Rounded(Up, a, b, q + Unit(rem, b))
  {
    var c, d, m := Normal(a, b, q, rem);
    assert (q + 1) * d == q * d + d && (q - 1) * d == q * d - d;
  }

  lemma FloorRounds(a: int, b: int, q: int, rem: int)
    requires Truncated(a, b, q, rem)
    ensures Rounded(Floor, a, b, if Unit(rem, b) < 0 then q - 1 else q)
  {
    var c, d, m := Normal(a, b, q, rem);
    assert (q + 1) * d == q * d + d && (q - 1) * d == q * d - d;
  }

  lemma CeilRounds(a: int, b: int, q: int, rem: int)
    requires Truncated(a, b, q, rem)
    ensures Rounded(Ceil, a, b, if Unit(rem, b) > 0 then q + 1 else q)
  {
    var c, d, m := Normal(a, b, q, rem);
    assert (q + 1) * d == q * d + d && (q - 1) * d == q * d - d;
  }

  /** When a half mode moves away from zero: `c` compares twice the remainder with the denominator. */
  predicate MovesAway(mode: Mode, c: int, odd: bool) {
    match mode
    case HalfDown => c > 0
    case HalfUp => c >= 0
    case _ => c > 0 || (c == 0 && odd)
  }

  function Compare(m: int, n: int): int {
    Sign(m - n)
  }

  lemma HalfNear(a: int, b: int, q: int, rem: int, r: int)
    requires Truncated(a, b, q, rem)
    requires r == if Compare(2 * Abs(rem), Abs(b)) > 0 then q + Unit(rem, b) else q
    requires 2 * Abs(rem) != Abs(b)
    ensures forall mode :: mode == HalfDown || mode == HalfUp || mode == HalfEven ==> Rounded(mode, a, b, r)
  {
    var c, d, m := Normal(a, b, q, rem);
    assert (q + 1) * d == q * d + d && (q - 1) * d == q * d - d;
    assert IsNearest(c, d, r) && !IsTie(c, d, r);
  }

  lemma TieParts(mode: Mode, c: int, d: int, q: int, m: int, r: int)
    requires d > 0 && c == q * d + m && 2 * Abs(m) == d
    requires mode.HalfDown? || mode.HalfUp? || mode.HalfEven?
    requires m > 0 ==> c > 0 && q >= 0
    requires m < 0 ==> c < 0 && q <= 0
    requires r == if MovesAway(mode, 0, q % 2 == 1) then q + Sign(m) else q
    ensures RoundedPositive(mode, c, d, r)
  {
    var moved := if m > 0 then q + 1 else q - 1;
    assert moved * d == if m > 0 then q * d + d else q * d - d;
    AbsTimes(q, d);
    AbsTimes(moved, d);
  }

  lemma HalfTie(mode: Mode, a: int, b: int, q: int, rem: int)
    requires Truncated(a, b, q, rem) && 2 * Abs(rem) == Abs(b)
    requires mode.HalfDown? || mode.HalfUp? || mode.HalfEven?
    ensures Rounded(mode, a, b, if MovesAway(mode, 0, q % 2 == 1) then q + Unit(rem, b) else q)
  {
    var c, d, m := Normal(a, b, q, rem);
    var r := if MovesAway(mode, 0, q % 2 == 1) then q + Unit(rem, b) else q;
    assert (q + 1) * d == q * d + d && (q - 1) * d == q * d - d;
    TieParts(mode, c, d, q, m, r);
  }

  lemma AbsTimes(q: int, d: int)
    requires d > 0
    ensures Abs(q) * d == if q >= 0 then q * d else -(q * d)
    ensures q >= 0 ==> q * d >= 0
    ensures q <= 0 ==> q * d <= 0
  {
  }

  /** All three half modes, from the comparison of twice the remainder with the denominator. */
  lemma HalfRounds(mode: Mode, a: int, b: int, q: int, rem: int)
    requires Truncated(a, b, q, rem)
    requires mode.HalfDown? || mode.HalfUp? || mode.HalfEven?
    ensures Rounded(mode, a, b,
              if MovesAway(mode, Compare(2 * Abs(rem), Abs(b)), q % 2 == 1) then q + Unit(rem, b) else q)
  {
    if 2 * Abs(rem) == Abs(b) {
      HalfTie(mode, a, b, q, rem);
    } else {
      HalfNear(a, b, q, rem, if Compare(2 * Abs(rem), Abs(b)) > 0 then q + Unit(rem, b) else q);
    }
  }

  // ---------------------------------------------------------------- bit lengths

  function BitLen(n: nat): (k: nat)
    ensures n == 0 <==> k == 0
  {
    if n == 0 then 0 else 1 + BitLen(n / 2)
  }

  lemma {:induction false} BitLenBounds(n: nat)
    ensures n < Pow(2, BitLen(n))
    ensures n > 0 ==> Pow(2, BitLen(n) - 1) <= n
  {
    if n > 1 {
      BitLenBounds(n / 2);
    }
  }

  lemma {:induction false} PowMono(j: nat, k: nat)
    requires j <= k
    ensures Pow(2, j) <= Pow(2, k)
  {
    if j < k {
      PowMono(j, k - 1);
    }
  }

  /** Two bits shorter is less than half. */
  lemma ShortIsBelowHalf(m: nat, n: nat)
    requires n > 0 && BitLen(m) < BitLen(n) - 1
    ensures 2 * m < n
  {
    BitLenBounds(m);
    BitLenBounds(n);
    PowMono(BitLen(m) + 1, BitLen(n) - 1);
  }

  /** As long as the denominator is more than half. */
  lemma LongIsAboveHalf(m: nat, n: nat)
    requires n > 0 && BitLen(m) > BitLen(n) - 1
    ensures 2 * m > n
  {
    BitLenBounds(m);
    BitLenBounds(n);
    PowMono(BitLen(n), BitLen(m));
  }
}
