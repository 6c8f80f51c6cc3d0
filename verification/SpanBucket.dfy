/** The ring buffer that keeps a sample of finished spans, and the latency ranges it is used for. */
module SpanBucket {

  /** Times and durations in nanoseconds. */
  datatype Span = Span(id: int, start: int, end: int, code: int)

  datatype Slot = Nil | Full(span: Span)

  const SAMPLE_PERIOD := 1_000_000_000

  /** The newest `n` of a list. */
  function LastN<T>(s: seq<T>, n: nat): (r: seq<T>)
    ensures |r| == if |s| <= n then |s| else n
  {
    if |s| <= n then s else s[|s| - n..]
  }

  function Spans(slots: seq<Slot>): (r: seq<Span>)
    requires forall i :: 0 <= i < |slots| ==> slots[i].Full?
    ensures |r| == |slots| && forall i :: 0 <= i < |slots| ==> r[i] == slots[i].span
  {
    seq(|slots|, i requires 0 <= i < |slots| => slots[i].span)
  }

  /** Whether a span comes soon enough after the last one to be left out. */
  predicate TooSoon(s: Span, nextTime: int) {
    s.end < nextTime
  }

  class Bucket {
    var nextTime: int
    var buffer: array<Slot>
    var nextIndex: nat
    var overflow: bool

    /** The used slots are exactly the ones that are not nil. */
    ghost predicate Valid()
      reads this, buffer
    {
      && (if buffer.Length == 0 then nextIndex == 0 else nextIndex < buffer.Length)
      && (forall i :: 0 <= i < buffer.Length ==> (buffer[i].Full? <==> overflow || i < nextIndex))
    }

    /** What is kept, oldest first. */
    ghost function Contents(): (r: seq<Span>)
      requires Valid()
      reads this, buffer
    {
      if overflow then Spans(buffer[nextIndex..]) + Spans(buffer[..nextIndex]) else Spans(buffer[..nextIndex])
    }

    constructor (size: nat)
      ensures Valid() && fresh(buffer) && buffer.Length == size && Contents() == [] && nextTime == 0
    {
      nextTime, nextIndex, overflow := 0, 0, false;
      buffer := new Slot[size](_ => Nil);
    }

    function Size(): (n: nat)
      requires Valid()
      reads this, buffer
      ensures n == |Contents()|
    {
      if overflow then buffer.Length else nextIndex
    }

    /** The `i`-th oldest. */
    function At(i: nat): (s: Span)
      requires Valid() && i < Size()
      reads this, buffer
      ensures s == Contents()[i]
    {
      if !overflow then buffer[i].span
      else if i < buffer.Length - nextIndex then buffer[nextIndex + i].span
      else buffer[nextIndex + i - buffer.Length].span
    }

    /** A span that is not too soon is kept, and pushes the oldest one out of a full bucket. */
    method Add(s: Span)
      requires Valid()
      modifies `nextTime, `nextIndex, `overflow, buffer
      ensures Valid() && buffer == old(buffer)
      ensures Contents()
        == if TooSoon(s, old(nextTime)) then old(Contents()) else LastN(old(Contents()) + [s], buffer.Length)
      ensures nextTime == if TooSoon(s, old(nextTime)) || buffer.Length == 0 then old(nextTime)
          else s.end + 1_000_000_000
    {
      if s.end < nextTime {
        return;
      }
      if buffer.Length == 0 {
        return;
      }
      ghost var was, n := buffer[..], nextIndex;
      nextTime := s.end + SAMPLE_PERIOD;
      buffer[nextIndex] := Full(s);
      nextIndex := nextIndex + 1;
      if nextIndex == buffer.Length {
        nextIndex := 0;
        overflow := true;
      }
      Added(was, n, old(overflow), s, buffer[..], nextIndex, overflow);
    }

    /** A new buffer with `count` spans from the `from`-th oldest on. */
    method Copy(n: nat, from: nat, count: nat) returns (newBuffer: array<Slot>)
      requires Valid() && count <= n && from + count <= Size()
      ensures fresh(newBuffer) && newBuffer.Length == n
      ensures forall j :: 0 <= j < n ==> newBuffer[j] == if j < count then Full(Contents()[from + j]) else Nil
    {
      hide Contents, At, Size, Valid;
      ghost var list := Contents();
      newBuffer := new Slot[n](_ => Nil);
      var i := 0;
      while i < count
        invariant 0 <= i <= count && Valid() && Contents() == list
        invariant forall j :: 0 <= j < n ==> newBuffer[j] == if j < i then Full(list[from + j]) else Nil
      {
        newBuffer[i] := Full(At(from + i));
        i := i + 1;
      }
    }

    /** Keeps the newest ones that fit. */
    method Resize(n: nat)
      requires Valid()
      modifies `buffer, `nextIndex, `overflow
      ensures Valid() && fresh(buffer) && buffer.Length == n && Contents() == LastN(old(Contents()), n)
    {
      var cur := Size();
      ghost var list := Contents();
      if cur < n {
        buffer := Copy(n, 0, cur);
        nextIndex, overflow := cur, false;
        Fitted(buffer[..], list, cur, false);
      } else {
        buffer := Copy(n, cur - n, n);
        nextIndex, overflow := 0, true;
        Fitted(buffer[..], list, 0, true);
      }
    }
  }

  datatype Op = Insert(span: Span) | Fit(size: nat)

  /** The same on a plain list: append what is accepted, drop the oldest. */
  datatype Model = Model(list: seq<Span>, size: nat, nextTime: int)

  function Apply(m: Model, op: Op): Model {
    match op
    case Insert(s) =>
      if TooSoon(s, m.nextTime) || m.size == 0 then m
      else Model(LastN(m.list + [s], m.size), m.size, s.end + SAMPLE_PERIOD)
    case Fit(n) => Model(LastN(m.list, n), n, m.nextTime)
  }

  function ApplyAll(m: Model, ops: seq<Op>): Model {
    if ops == [] then m else Apply(ApplyAll(m, ops[..|ops| - 1]), ops[|ops| - 1])
  }

  /** Any run of additions and resizings keeps what the list keeps. */
  method Replay(size: nat, ops: seq<Op>) returns (b: Bucket)
    ensures b.Valid() && Model(b.Contents(), b.buffer.Length, b.nextTime) == ApplyAll(Model([], size, 0), ops)
  {
    b := new Bucket(size);
    var i := 0;
    assert ops[..0] == [];
    while i < |ops|
      invariant i <= |ops| && fresh(b) && fresh(b.buffer) && b.Valid()
      invariant Model(b.Contents(), b.buffer.Length, b.nextTime) == ApplyAll(Model([], size, 0), ops[..i])
      invariant |b.Contents()| <= b.buffer.Length
    {
      assert ops[..i + 1][..i] == ops[..i];
      match ops[i] {
        case Insert(s) => b.Add(s);
        case Fit(n) => b.Resize(n);
      }
      i := i + 1;
    }
    assert ops[..i] == ops;
  }

  function RingContents(slots: seq<Slot>, n: nat, overflow: bool): seq<Span>
    requires n <= |slots| && forall i :: 0 <= i < |slots| ==> (slots[i].Full? <==> overflow || i < n)
  {
    if overflow then Spans(slots[n..]) + Spans(slots[..n]) else Spans(slots[..n])
  }

  lemma Fitted(slots: seq<Slot>, list: seq<Span>, m: nat, over: bool)
    requires if over then m == 0 && |list| >= |slots| else m == |list| < |slots|
    requires over ==> forall j :: 0 <= j < |slots| ==> slots[j] == Full(list[|list| - |slots| + j])
    requires !over ==> forall j :: 0 <= j < |slots| ==> slots[j] == if j < m then Full(list[j]) else Nil
    ensures m <= |slots| && forall i :: 0 <= i < |slots| ==> (slots[i].Full? <==> over || i < m)
    ensures RingContents(slots, m, over) == LastN(list, |slots|)
  {
    if over {
      assert slots[0..] == slots;
    }
  }

  lemma Added(was: seq<Slot>, n: nat, over: bool, s: Span, now: seq<Slot>, m: nat, over': bool)
    requires n < |was| && (forall i :: 0 <= i < |was| ==> (was[i].Full? <==> over || i < n))
    requires now == was[n := Full(s)]
    requires if n + 1 == |was| then m == 0 && over' else m == n + 1 && over' == over
    ensures RingContents(now, m, over') == LastN(RingContents(was, n, over) + [s], |was|)
  {
  }
}
