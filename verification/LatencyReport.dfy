/** Latency ranges, and the report that skips whole ranges against a plain filter over everything kept. */
module LatencyReport {
  import opened SpanBucket

  const LATENCIES: seq<int> := [
    10_000, 100_000, 1_000_000, 10_000_000, 100_000_000, 1_000_000_000, 10_000_000_000, 60_000_000_000]

  const LAST: nat := 8

  /** The largest duration. */
  const FOREVER := 0x7FFF_FFFF_FFFF_FFFF

  /** The ranges in order: the first bound that is above the latency ends its range. */
  predicate InBucket(latency: int, i: nat) {
    i <= LAST && (forall j :: 0 <= j < i ==> latency >= LATENCIES[j]) && (i < LAST ==> latency < LATENCIES[i])
  }

  /** Where a latency belongs, looking from `i` on. */
  function Home(latency: int, i: nat): (h: nat)
    requires i <= LAST && forall j :: 0 <= j < i ==> latency >= LATENCIES[j]
    ensures InBucket(latency, h)
    decreases LAST - i
  {
    if i == LAST || latency < LATENCIES[i] then i else Home(latency, i + 1)
  }

  method LatencyBucket(latency: int) returns (i: nat)
    ensures InBucket(latency, i) && i == Home(latency, 0)
    ensures i == if latency < 10_000 then 0
                 else if latency < 100_000 then 1
                 else if latency < 1_000_000 then 2
                 else if latency < 10_000_000 then 3
                 else if latency < 100_000_000 then 4
                 else if latency < 1_000_000_000 then 5
                 else if latency < 10_000_000_000 then 6
                 else if latency < 60_000_000_000 then 7
                 else 8
  {
    i := 0;
    while i < |LATENCIES| && latency >= LATENCIES[i]
      invariant i <= LAST && forall j :: 0 <= j < i ==> latency >= LATENCIES[j]
      invariant Home(latency, i) == Home(latency, 0)
    {
      i := i + 1;
    }
  }

  function Lower(i: nat): int
    requires i <= LAST
  {
    if i == 0 then 0 else LATENCIES[i - 1]
  }

  function Upper(i: nat): int
    requires i <= LAST
  {
    if i == LAST then FOREVER else LATENCIES[i]
  }

  /** A bucket's bounds say which latencies are in it, and no latency is in two. */
  lemma BoundsAreRanges(latency: int, i: nat)
    requires latency >= 0 && i <= LAST
    ensures InBucket(latency, i) <==> Lower(i) <= latency && (i < LAST ==> latency < Upper(i))
    ensures forall j :: InBucket(latency, i) && InBucket(latency, j) ==> i == j
  {
    if i > 0 && latency >= Lower(i) {
      forall j | 0 <= j < i ensures latency >= LATENCIES[j] {
        Increasing(j, i - 1);
      }
    }
  }

  lemma Increasing(j: nat, k: nat)
    requires j <= k < LAST
    ensures 0 < LATENCIES[j] <= LATENCIES[k]
  {
  }

  // ---------------------------------------------------------------- the report

  function Duration(s: Span): int {
    s.end - s.start
  }

  /** A span that ends before it starts counts as taking no time. */
  function Latency(s: Span): int {
    if Duration(s) < 0 then 0 else Duration(s)
  }

  /** What the report promises: a zero bound is no bound. */
  predicate Wanted(s: Span, min: int, max: int) {
    (min == 0 && max == 0) || (Duration(s) >= min && (max == 0 || Duration(s) <= max))
  }

  function Picked(list: seq<Span>, min: int, max: int): (r: seq<Span>)
    ensures forall s :: s in r <==> s in list && Wanted(s, min, max)
  {
    if list == [] then []
    else
      var n := |list| - 1;
      assert list == list[..n] + [list[n]];
      Picked(list[..n], min, max) + if Wanted(list[n], min, max) then [list[n]] else []
  }

  /** Whether the report does not look into a bucket. */
  predicate Skipped(i: nat, min: int, max: int)
    requires i <= LAST
  {
    (i != LAST && Upper(i) <= min) || (max != 0 && max < Lower(i))
  }

  /** What is kept in each bucket, in the order it is stored. */
  predicate Placed(stored: seq<seq<Span>>) {
    |stored| == LAST + 1 && forall i, s :: 0 <= i <= LAST && s in stored[i] ==> InBucket(Latency(s), i)
  }

  function Report(stored: seq<seq<Span>>, min: int, max: int, n: nat): seq<Span>
    requires |stored| == LAST + 1 && n <= |stored|
  {
    if n == 0 then []
    else Report(stored, min, max, n - 1) + if Skipped(n - 1, min, max) then [] else Picked(stored[n - 1], min, max)
  }

  lemma ReportNone(stored: seq<seq<Span>>, min: int, max: int)
    requires |stored| == LAST + 1
    ensures Report(stored, min, max, 0) == []
  {
  }

  /** One bucket more, in the source's own words. */
  lemma ReportStep(stored: seq<seq<Span>>, min: int, max: int, i: nat)
    requires |stored| == LAST + 1 && i <= LAST
    ensures Report(stored, min, max, i + 1) == Report(stored, min, max, i)
      + (if (i != LAST && Upper(i) <= min) || (max != 0 && max < Lower(i)) then [] else Picked(stored[i], min, max))
  {
  }

  function Filtered(stored: seq<seq<Span>>, min: int, max: int, n: nat): seq<Span>
    requires |stored| == LAST + 1 && n <= |stored|
  {
    if n == 0 then [] else Filtered(stored, min, max, n - 1) + Picked(stored[n - 1], min, max)
  }

  lemma {:induction false} NonePicked(list: seq<Span>, min: int, max: int)
    requires forall s :: s in list ==> !Wanted(s, min, max)
    ensures Picked(list, min, max) == []
  {
    if list != [] {
      NonePicked(list[..|list| - 1], min, max);
    }
  }

  /** A bucket above the first is skipped only when nothing in it is wanted. */
  lemma SkippedIsSafe(stored: seq<seq<Span>>, i: nat, min: int, max: int)
    requires Placed(stored) && i <= LAST && Skipped(i, min, max) && (i > 0 || max >= 0)
    ensures Picked(stored[i], min, max) == []
  {
    forall s | s in stored[i] ensures !Wanted(s, min, max) {
      BoundsAreRanges(Latency(s), i);
    }
    NonePicked(stored[i], min, max);
  }

  /** What the filter would still find in a first bucket that is skipped. */
  predicate Missed(stored: seq<seq<Span>>, min: int, max: int)
    requires |stored| == LAST + 1
  {
    max < 0 && Picked(stored[0], min, max) != []
  }

  lemma {:induction false} ReportFrom(stored: seq<seq<Span>>, min: int, max: int, n: nat)
    requires Placed(stored) && 1 <= n <= |stored|
    ensures var missing := if max < 0 then Picked(stored[0], min, max) else [];
      Filtered(stored, min, max, n) == missing + Report(stored, min, max, n)
    decreases n
  {
    hide Picked, Skipped, InBucket;
    var missing := if max < 0 then Picked(stored[0], min, max) else [];
    if n == 1 {
      FirstBucket(stored, min, max);
    } else {
      ReportFrom(stored, min, max, n - 1);
      var more := if Skipped(n - 1, min, max) then [] else Picked(stored[n - 1], min, max);
      if Skipped(n - 1, min, max) {
        SkippedIsSafe(stored, n - 1, min, max);
      }
      assert (missing + Report(stored, min, max, n - 1)) + more == missing + (Report(stored, min, max, n - 1) + more);
    }
  }

  lemma FirstBucket(stored: seq<seq<Span>>, min: int, max: int)
    requires Placed(stored)
    ensures Filtered(stored, min, max, 1) == Picked(stored[0], min, max)
    ensures Report(stored, min, max, 1) == if max < 0 then [] else Picked(stored[0], min, max)
  {
    assert Filtered(stored, min, max, 0) == [] && Report(stored, min, max, 0) == [];
    if Skipped(0, min, max) && max >= 0 {
      SkippedIsSafe(stored, 0, min, max);
    }
  }

  /** The report is the plain filter exactly when the skipped first bucket has nothing to find. */
  lemma ReportIsFilterIff(stored: seq<seq<Span>>, min: int, max: int)
    requires Placed(stored)
    ensures Report(stored, min, max, |stored|) == Filtered(stored, min, max, |stored|) <==> !Missed(stored, min, max)
  {
    ReportFrom(stored, min, max, |stored|);
  }

  /** For every store: exactly when the upper bound is not negative or the bounds allow nothing. */
  lemma ReportIsAlwaysFilterIff(min: int, max: int)
    ensures (forall stored :: Placed(stored) ==>
              Report(stored, min, max, |stored|) == Filtered(stored, min, max, |stored|))
            <==> max >= 0 || max < min
  {
    if max >= 0 || max < min {
      forall stored | Placed(stored)
        ensures Report(stored, min, max, |stored|) == Filtered(stored, min, max, |stored|)
      {
        ReportIsFilterIff(stored, min, max);
        if max < 0 {
          NonePicked(stored[0], min, max);
        }
      }
    } else {
      var s := Span(0, -max, 0, 0);
      var stored := [[s], [], [], [], [], [], [], [], []];
      assert stored[0] == [s] && Wanted(s, min, max);
      assert s in Picked(stored[0], min, max);
      ReportIsFilterIff(stored, min, max);
      assert Placed(stored);
    }
  }

  // ---------------------------------------------------------------- the report as a collection

  /** Picking keeps every wanted span as often as it is there. */
  lemma {:induction false} PickedCounts(list: seq<Span>, min: int, max: int, s: Span)
    ensures multiset(Picked(list, min, max))[s] == if Wanted(s, min, max) then multiset(list)[s] else 0
  {
    if list != [] {
      var n := |list| - 1;
      assert list == list[..n] + [list[n]];
      PickedCounts(list[..n], min, max, s);
    }
  }

  lemma PickedSame(a: seq<Span>, b: seq<Span>, min: int, max: int)
    requires multiset(a) == multiset(b)
    ensures multiset(Picked(a, min, max)) == multiset(Picked(b, min, max))
  {
    hide Picked, Wanted;
    forall s ensures multiset(Picked(a, min, max))[s] == multiset(Picked(b, min, max))[s] {
      PickedCounts(a, min, max, s);
      PickedCounts(b, min, max, s);
    }
  }

  /** The order in which spans are stored does not matter to what is reported. */
  lemma {:induction false} FilteredSame(a: seq<seq<Span>>, b: seq<seq<Span>>, min: int, max: int, n: nat)
    requires |a| == |b| == LAST + 1 && n <= |a| && forall i :: 0 <= i < n ==> multiset(a[i]) == multiset(b[i])
    ensures multiset(Filtered(a, min, max, n)) == multiset(Filtered(b, min, max, n))
  {
    if n > 0 {
      FilteredSame(a, b, min, max, n - 1);
      PickedSame(a[n - 1], b[n - 1], min, max);
    }
  }
}
