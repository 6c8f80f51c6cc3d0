/** Span identifiers: steps of an odd increment through the 64-bit words, leaving out zero. */
module SpanIds {
  import opened NumberTheory

  /** How many 64-bit words there are. */
  function Words(): (m: int)
    ensures m == 0x1_0000_0000_0000_0000
  {
    TwoTo64();
    Pow(2, 64)
  }

  lemma TwoTo64()
    ensures Pow(2, 64) == 0x1_0000_0000_0000_0000
  {
    assert Pow(2, 2) == 4 && Pow(2, 4) == 16;
    PowAdd(2, 4, 4);
    PowAdd(2, 8, 8);
    PowAdd(2, 16, 16);
    PowAdd(2, 32, 32);
  }

  predicate IsWord(x: int) {
    0 <= x < Words()
  }

  /** Addition that wraps around. */
  function Plus(x: int, y: int): (z: int)
    ensures IsWord(z)
  {
    (x + y) % Words()
  }

  /** The state after an identifier was given out. */
  function Next(x: int, inc: int): (y: int)
    ensures IsWord(y)
  {
    var y := Plus(x, inc);
    if y == 0 then Plus(y, inc) else y
  }

  /** The `n`-th identifier. */
  function Id(seed: int, inc: int, n: nat): (x: int)
    requires IsWord(seed)
    ensures IsWord(x)
  {
    if n == 0 then seed else Next(Id(seed, inc, n - 1), inc)
  }

  /** The same walk without leaving zero out. */
  function Walk(seed: int, inc: int, k: nat): (x: int)
    ensures IsWord(x)
  {
    (seed + k * inc) % Words()
  }

  lemma WalkStep(seed: int, inc: int, k: nat)
    ensures Plus(Walk(seed, inc, k), inc) == Walk(seed, inc, k + 1)
  {
    hide Words;
    Difference(seed, inc, k, k + 1);
    ModAdd(seed + k * inc, inc, Words());
  }

  lemma Difference(seed: int, inc: int, j: int, k: int)
    ensures (seed + k * inc) - (seed + j * inc) == inc * (k - j)
  {
    assert inc * (k - j) == k * inc - j * inc;
  }

  lemma ModAdd(a: int, b: int, m: int)
    requires m > 0
    ensures (a % m + b) % m == (a + b) % m
  {
    var q, r := a / m, a % m;
    var s := r + b;
    assert a + b == q * m + s;
    ModShift(s, q, m);
  }

  lemma ModShift(s: int, q: int, m: int)
    requires m > 0
    ensures (q * m + s) % m == s % m
  {
    var p := s / m;
    assert q * m + s == (q + p) * m + s % m;
    RemainderIs(q * m + s, q + p, s % m, m);
  }

  lemma RemainderIs(v: int, q: int, r: int, m: int)
    requires m > 0 && v == q * m + r && 0 <= r < m
    ensures v % m == r
  {
    var d := v % m - r;
    assert (q - v / m) * m == d;
    if d >= 0 {
      SmallMultiple(q - v / m, m, d);
    } else {
      assert (v / m - q) * m == -d;
      SmallMultiple(v / m - q, m, -d);
    }
  }

  lemma TooSmall(m: int, d: int)
    requires 0 < d < m
    ensures !Divides(m, d)
  {
    DividesIffMod(m, d);
    RemainderIs(d, 0, d, m);
  }

  /** An odd increment comes back to a word only after all of them. */
  lemma WalkInjective(seed: int, inc: int, j: nat, k: nat)
    requires inc % 2 == 1 && j < k < j + Words()
    ensures Walk(seed, inc, j) != Walk(seed, inc, k)
  {
    hide Words, Divides, Coprime;
    if Walk(seed, inc, j) == Walk(seed, inc, k) {
      var m, d := Words(), k - j;
      Difference(seed, inc, j, k);
      SameRemainder(seed + j * inc, seed + k * inc, m);
      OddIsCoprime(inc);
      Gauss(m, inc, d);
      TooSmall(m, d);
    }
  }

  lemma SameRemainder(a: int, b: int, m: int)
    requires m > 0 && a % m == b % m
    ensures Divides(m, b - a)
  {
    assert b - a == (b / m - a / m) * m;
    DividesBy(m, b - a, b / m - a / m);
  }

  lemma OddIsCoprime(inc: int)
    requires inc % 2 == 1
    ensures Coprime(Words(), inc)
  {
    CoprimeBy(inc, 2, 1, -(inc / 2));
    CoprimePow(inc, 2, 64);
    CoprimeSym(inc, Pow(2, 64));
  }

  /** Where the identifiers are on the walk: one step ahead once zero has been left out. */
  ghost predicate OnWalk(seed: int, inc: int, n: nat, ahead: nat)
    requires IsWord(seed)
  {
    && Id(seed, inc, n) == Walk(seed, inc, n + ahead)
    && (ahead == 0 ==> forall z: nat :: z <= n ==> Walk(seed, inc, z) != 0)
    && (ahead == 0 || (ahead == 1 && exists z :: 0 < z < n + ahead && Walk(seed, inc, z) == 0))
  }

  lemma {:induction false} IdIsOnWalk(seed: int, inc: int, n: nat) returns (ahead: nat)
    requires IsWord(seed) && seed != 0 && inc % 2 == 1 && n < Words() - 1
    ensures OnWalk(seed, inc, n, ahead)
  {
    hide Words, Walk;
    if n == 0 {
      ahead := 0;
      WalkStart(seed, inc);
    } else {
      ahead := IdIsOnWalk(seed, inc, n - 1);
      var k := n - 1 + ahead;
      WalkStep(seed, inc, k);
      if Walk(seed, inc, k + 1) == 0 {
        if ahead == 1 {
          var z :| 0 < z < k + 1 && Walk(seed, inc, z) == 0;
          WalkInjective(seed, inc, z, k + 1);
          assert false;
        }
        WalkStep(seed, inc, k + 1);
        ahead := 1;
      }
    }
  }

  lemma WalkStart(seed: int, inc: int)
    requires IsWord(seed)
    ensures Walk(seed, inc, 0) == seed
  {
    RemainderIs(seed, 0, seed, Words());
  }

  /** The step over zero is a step of its own, as the increment is not zero. */
  lemma NextIsNotZero(x: int, inc: int)
    requires inc % 2 == 1
    ensures Next(x, inc) != 0
  {
    hide Words, Walk;
    WalkStart(0, inc);
    WalkStep(0, inc, 0);
    WalkInjective(0, inc, 0, 1);
  }

  /** No identifier is ever zero, exactly if the seed is not: a zero seed is given out as it is. */
  lemma NeverZeroIff(seed: int, inc: int)
    requires IsWord(seed) && inc % 2 == 1
    ensures (forall n: nat :: Id(seed, inc, n) != 0) <==> seed != 0
  {
    hide Words, Next;
    if seed != 0 {
      forall n: nat ensures Id(seed, inc, n) != 0 {
        if n > 0 {
          NextIsNotZero(Id(seed, inc, n - 1), inc);
        }
      }
    } else {
      assert Id(seed, inc, 0) == 0;
    }
  }

  /** Any identifier may be taken for the seed. */
  lemma {:induction false} IdsContinue(seed: int, inc: int, i: nat, d: nat)
    requires IsWord(seed)
    ensures Id(seed, inc, i + d) == Id(Id(seed, inc, i), inc, d)
  {
    hide Words, Next;
    if d > 0 {
      IdsContinue(seed, inc, i, d - 1);
    }
  }

  /** The seed does not come back early. */
  lemma SeedIsNew(seed: int, inc: int, d: nat)
    requires IsWord(seed) && seed != 0 && inc % 2 == 1 && 0 < d < Words() - 1
    ensures Id(seed, inc, d) != seed
  {
    hide Words, Walk;
    var ahead := IdIsOnWalk(seed, inc, d);
    WalkStart(seed, inc);
    WalkInjective(seed, inc, 0, d + ahead);
  }

  /** The walk meets zero. */
  lemma ZeroOnWalk(seed: int, inc: int) returns (z: nat)
    requires IsWord(seed) && seed != 0 && inc % 2 == 1
    ensures 0 < z < Words() && Walk(seed, inc, z) == 0
  {
    hide Words;
    var m := Words();
    OddIsCoprime(inc);
    var u: int, v: int :| u * m + v * inc == 1;
    var t := -seed * v / m;
    z := -seed * v % m;
    BezoutZero(seed, inc, u, v, t, z, m);
    RemainderIs(seed + z * inc, seed * u - t * inc, 0, m);
    WalkStart(seed, inc);
  }

  lemma BezoutZero(seed: int, inc: int, u: int, v: int, t: int, z: int, m: int)
    requires u * m + v * inc == 1 && z == -seed * v - t * m
    ensures seed + z * inc == (seed * u - t * inc) * m
  {
    calc {
      seed + z * inc;
      seed * (u * m + v * inc) + (-seed * v - t * m) * inc;
      { Rearranged(seed, inc, u, v, t, m); }
      (seed * u - t * inc) * m;
    }
  }

  lemma Rearranged(s: int, i: int, u: int, v: int, t: int, m: int)
    ensures s * (u * m + v * i) + (-s * v - t * m) * i == (s * u - t * i) * m
  {
    assert s * (u * m + v * i) == s * u * m + s * v * i;
    assert (-s * v - t * m) * i == -s * v * i - t * m * i;
    assert (s * u - t * i) * m == s * u * m - t * i * m;
  }

  /** After all words but zero, the seed comes again. */
  lemma SeedComesBack(seed: int, inc: int)
    requires IsWord(seed) && seed != 0 && inc % 2 == 1
    ensures Id(seed, inc, Words() - 1) == seed
  {
    hide Words, Walk;
    var m := Words();
    var n := m - 2;
    var ahead := IdIsOnWalk(seed, inc, n);
    var z := ZeroOnWalk(seed, inc);
    WalkStep(seed, inc, n);
    WalkStep(seed, inc, n + 1);
    WalkRound(seed, inc);
  }

  lemma WalkRound(seed: int, inc: int)
    requires IsWord(seed)
    ensures Walk(seed, inc, Words()) == seed
  {
    hide Words;
    assert seed + Words() * inc == inc * Words() + seed;
    RemainderIs(seed + Words() * inc, inc, seed, Words());
  }

  /** From a seed that is not zero, an identifier comes again after exactly 2^64 - 1 others, and after no fewer. */
  lemma {:induction false} IdsComeAgainIff(seed: int, inc: int, i: nat, d: nat)
    requires IsWord(seed) && seed != 0 && inc % 2 == 1
    ensures Id(seed, inc, i) == Id(seed, inc, i + d) <==> d % (Words() - 1) == 0
    decreases d
  {
    hide Words, Id;
    var m := Words() - 1;
    var x := Id(seed, inc, i);
    NeverZeroIff(seed, inc);
    IdsContinue(seed, inc, i, d);
    if d < m {
      IdZero(x, inc);
      if d > 0 {
        SeedIsNew(x, inc, d);
      }
    } else {
      IdsContinue(seed, inc, i, m);
      SeedComesBack(x, inc);
      IdsComeAgainIff(seed, inc, i + m, d - m);
      assert i + m + (d - m) == i + d;
      ModShift(d - m, 1, m);
    }
  }

  /** None of 2^64 - 1 identifiers in a row comes twice. */
  lemma IdsAreDistinct(seed: int, inc: int, i: nat, j: nat)
    requires IsWord(seed) && seed != 0 && inc % 2 == 1 && i < j < i + Words() - 1
    ensures Id(seed, inc, i) != Id(seed, inc, j)
  {
    hide Words, Id;
    IdsComeAgainIff(seed, inc, i, j - i);
  }

  class Generator {
    var nextSpanID: int
    const spanIDInc: int

    /** The increment is made odd. */
    constructor (seed: int, inc: int)
      requires IsWord(seed) && IsWord(inc)
      ensures nextSpanID == seed && spanIDInc == (if inc % 2 == 0 then inc + 1 else inc) && spanIDInc % 2 == 1
    {
      nextSpanID := seed;
      spanIDInc := if inc % 2 == 0 then inc + 1 else inc;
    }

    method NewSpanID() returns (id: int)
      requires IsWord(nextSpanID)
      modifies `nextSpanID
      ensures id == old(nextSpanID) && nextSpanID == Next(id, spanIDInc)
    {
      id := nextSpanID;
      nextSpanID := Plus(nextSpanID, spanIDInc);
      if nextSpanID == 0 {
        nextSpanID := Plus(nextSpanID, spanIDInc);
      }
    }
  }

  /** The identifiers that a program gets in a row. */
  method Generate(seed: int, inc: int, n: nat) returns (ids: seq<int>)
    requires IsWord(seed) && IsWord(inc) && seed != 0
    ensures |ids| == n && forall i :: 0 <= i < n ==> ids[i] != 0
    ensures forall i, j :: 0 <= i < j < n ==> (ids[i] == ids[j] <==> (j - i) % (Words() - 1) == 0)
  {
    hide Id, Words, Next;
    var g := new Generator(seed, inc);
    ids := [];
    IdZero(seed, g.spanIDInc);
    while |ids| < n
      invariant |ids| <= n && IsWord(g.nextSpanID) && g.nextSpanID == Id(seed, g.spanIDInc, |ids|)
      invariant fresh(g) && g.spanIDInc % 2 == 1
      invariant forall i :: 0 <= i < |ids| ==> ids[i] == Id(seed, g.spanIDInc, i)
      decreases n - |ids|
    {
      IdStep(seed, g.spanIDInc, |ids|);
      var id := g.NewSpanID();
      ids := ids + [id];
    }
    NeverZeroIff(seed, g.spanIDInc);
    forall i, j | 0 <= i < j < n ensures ids[i] == ids[j] <==> (j - i) % (Words() - 1) == 0 {
      IdsComeAgainIff(seed, g.spanIDInc, i, j - i);
    }
  }

  lemma IdZero(seed: int, inc: int)
    requires IsWord(seed)
    ensures Id(seed, inc, 0) == seed
  {
  }

  lemma IdStep(seed: int, inc: int, n: nat)
    requires IsWord(seed)
    ensures Id(seed, inc, n + 1) == Next(Id(seed, inc, n), inc)
  {
  }
}
