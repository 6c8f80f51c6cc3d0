/**
 The samples of finished spans of one name: successful ones by latency, failed ones by status
 code, and the reports over them.
 */
module SpanStore {
  import opened SpanBucket
  import opened LatencyReport

  // ---------------------------------------------------------------- what is kept, on plain lists

  /** The lists of the latency ranges, then those of status codes; `places` says where the list of a code is. */
  datatype Kept = Kept(lists: seq<Model>, places: map<int, nat>, errorSize: nat)

  datatype Happening = End(sd: Span) | Configure(latencySize: nat, errorSize: nat)

  predicate Wellformed(k: Kept) {
    && |k.lists| > LAST && (forall c :: c in k.places ==> LAST < k.places[c] < |k.lists|)
    && (forall c, d :: c in k.places && d in k.places && c != d ==> k.places[c] != k.places[d])
  }

  /** Where a finished span belongs: to the list of its latency if it succeeded, else to that of its code. */
  function PlaceOf(k: Kept, sd: Span): (i: nat)
    requires Wellformed(k)
    ensures i <= |k.lists| && (i == |k.lists| <==> sd.code != 0 && sd.code !in k.places)
  {
    if sd.code == 0 then Home(Latency(sd), 0) else if sd.code in k.places then k.places[sd.code] else |k.lists|
  }

  /** The first span with a code gets it a list. */
  function WithList(k: Kept, code: int): (r: Kept)
    requires Wellformed(k)
    ensures Wellformed(r) && (code != 0 ==> code in r.places)
  {
    if code == 0 || code in k.places then k
    else k.(lists := k.lists + [Model([], k.errorSize, 0)], places := k.places[code := |k.lists|])
  }

  /** All lists with new sizes. */
  function ResizedAll(ms: seq<Model>, latencySize: nat, errorSize: nat): (r: seq<Model>)
    ensures |r| == |ms|
    ensures forall i :: 0 <= i < |ms| ==> r[i] == Apply(ms[i], Fit(if i <= LAST then latencySize else errorSize))
  {
    if ms == [] then []
    else
      var n := |ms| - 1;
      ResizedAll(ms[..n], latencySize, errorSize) + [Apply(ms[n], Fit(if n <= LAST then latencySize else errorSize))]
  }

  function Next(k: Kept, h: Happening): (r: Kept)
    requires Wellformed(k)
    ensures Wellformed(r)
  {
    match h
    case End(sd) =>
      var l := WithList(k, sd.code);
      var i := PlaceOf(l, sd);
      l.(lists := l.lists[i := Apply(l.lists[i], Insert(sd))])
    case Configure(l, e) => Kept(ResizedAll(k.lists, l, e), k.places, e)
  }

  function Empty(latencySize: nat, errorSize: nat): (k: Kept)
    ensures Wellformed(k)
  {
    Kept(seq(LAST + 1, _ => Model([], latencySize, 0)), map[], errorSize)
  }

  function NextAll(k: Kept, hs: seq<Happening>): (r: Kept)
    requires Wellformed(k)
    ensures Wellformed(r)
  {
    if hs == [] then k else Next(NextAll(k, hs[..|hs| - 1]), hs[|hs| - 1])
  }

  lemma NextAllStep(k: Kept, hs: seq<Happening>, i: nat)
    requires Wellformed(k) && i <= |hs|
    ensures NextAll(k, hs[..0]) == k
    ensures i < |hs| ==> NextAll(k, hs[..i + 1]) == Next(NextAll(k, hs[..i]), hs[i])
  {
    hide Next;
    if i < |hs| {
      assert hs[..i + 1][..i] == hs[..i];
    }
  }

  /** Successful spans with a latency of bucket `i`. */
  predicate InRange(list: seq<Span>, i: nat) {
    forall s :: s in list ==> s.code == 0 && InBucket(Latency(s), i)
  }

  predicate Taken(places: map<int, nat>, i: nat) {
    exists c :: c in places && places[c] == i
  }

  lemma StillTaken(places: map<int, nat>, code: int, i: nat)
    requires code !in places
    ensures Taken(places[code := i], i)
    ensures forall j: nat :: Taken(places, j) ==> Taken(places[code := i], j)
  {
    var more := places[code := i];
    assert more[code] == i;
    forall j: nat | Taken(places, j) ensures Taken(more, j) {
      var c :| c in places && places[c] == j;
      assert more[c] == j;
    }
  }

  predicate WithCode(list: seq<Span>, code: int) {
    forall s :: s in list ==> s.code == code
  }

  /**
   Every kept span is where its code and its latency say, every list is some code's, and none is longer
   than its size.
   */
  predicate Sorted(k: Kept)
    requires Wellformed(k)
  {
    && (forall i: nat :: LAST < i < |k.lists| ==> Taken(k.places, i))
    && (forall i :: 0 <= i <= LAST ==> InRange(k.lists[i].list, i))
    && (forall c :: c in k.places ==> c != 0 && WithCode(k.lists[k.places[c]].list, c))
    && (forall i :: 0 <= i < |k.lists| ==> |k.lists[i].list| <= k.lists[i].size)
  }

  lemma LastNKeeps(list: seq<Span>, n: nat, s: Span)
    ensures s in LastN(list, n) ==> s in list
  {
    if s in LastN(list, n) && |list| > n {
      var i :| 0 <= i < n && LastN(list, n)[i] == s;
      assert list[|list| - n + i] == s;
    }
  }

  /** A list keeps no span but its own and the one inserted, and stays within its size. */
  lemma ApplyKeeps(m: Model, op: Op, i: nat, code: int)
    ensures InRange(m.list, i) && (op.Insert? ==> InRange([op.span], i)) ==> InRange(Apply(m, op).list, i)
    ensures WithCode(m.list, code) && (op.Insert? ==> op.span.code == code) ==> WithCode(Apply(m, op).list, code)
    ensures |m.list| <= m.size ==> |Apply(m, op).list| <= Apply(m, op).size
  {
    hide InBucket;
    forall s | s in Apply(m, op).list ensures s in m.list || (op.Insert? && s in [op.span]) {
      LastNKeeps(m.list, if op.Fit? then op.size else 0, s);
      if op.Insert? {
        LastNKeeps(m.list + [op.span], m.size, s);
      }
    }
  }

  lemma NextSorted(k: Kept, h: Happening)
    requires Wellformed(k) && Sorted(k)
    ensures Sorted(Next(k, h))
  {
    hide Apply, InRange, WithCode, InBucket, Taken;
    match h
    case End(sd) =>
      var l := WithList(k, sd.code);
      WithListSorted(k, sd.code);
      OneListSorted(l, sd);
    case Configure(latencySize, errorSize) =>
      var r := Next(k, h);
      forall i | 0 <= i < |k.lists|
        ensures (i <= LAST ==> InRange(r.lists[i].list, i)) && |r.lists[i].list| <= r.lists[i].size
      {
        ApplyKeeps(k.lists[i], Fit(if i <= LAST then latencySize else errorSize), i, 0);
      }
      forall c | c in k.places ensures WithCode(r.lists[k.places[c]].list, c) {
        ApplyKeeps(k.lists[k.places[c]], Fit(errorSize), 0, c);
      }
  }

  lemma WithListSorted(k: Kept, code: int)
    requires Wellformed(k) && Sorted(k)
    ensures Sorted(WithList(k, code))
  {
    hide InRange, WithCode, Taken;
    var l := WithList(k, code);
    if code != 0 && code !in k.places {
      NoneWithCode(code);
      StillTaken(k.places, code, |k.lists|);
      forall i: nat | LAST < i < |l.lists| ensures Taken(l.places, i) {
        assert i < |k.lists| ==> Taken(k.places, i);
      }
    }
  }

  lemma OneListSorted(l: Kept, sd: Span)
    requires Wellformed(l) && Sorted(l) && (sd.code != 0 ==> sd.code in l.places)
    ensures var i := PlaceOf(l, sd); Sorted(l.(lists := l.lists[i := Apply(l.lists[i], Insert(sd))]))
  {
    hide Apply, InRange, WithCode, InBucket, Taken;
    var i := PlaceOf(l, sd);
    ApplyKeeps(l.lists[i], Insert(sd), i, sd.code);
    if sd.code == 0 {
      AloneInRange(sd);
    }
  }

  lemma AloneInRange(s: Span)
    requires s.code == 0
    ensures InRange([s], Home(Latency(s), 0))
  {
  }

  lemma NoneWithCode(code: int)
    ensures WithCode([], code)
  {
  }

  /** After any run, every span is kept where it belongs. */
  lemma {:induction false} RunSorted(latencySize: nat, errorSize: nat, hs: seq<Happening>)
    ensures Sorted(NextAll(Empty(latencySize, errorSize), hs))
  {
    if hs != [] {
      RunSorted(latencySize, errorSize, hs[..|hs| - 1]);
      NextSorted(NextAll(Empty(latencySize, errorSize), hs[..|hs| - 1]), hs[|hs| - 1]);
    }
  }

  function Lists(ms: seq<Model>): (r: seq<seq<Span>>)
    ensures |r| == |ms| && forall i :: 0 <= i < |ms| ==> r[i] == ms[i].list
  {
    seq(|ms|, i requires 0 <= i < |ms| => ms[i].list)
  }

  // ---------------------------------------------------------------- buckets

  /** A bucket as a plain list. */
  ghost function View(b: Bucket): Model
    requires b.Valid()
    reads b, b.buffer
  {
    Model(b.Contents(), b.buffer.Length, b.nextTime)
  }

  /** Buckets that are in order and share nothing; they and their buffers are among `objs`. */
  ghost predicate Separate(bs: seq<Bucket>, objs: set<object>)
    reads objs
  {
    && (forall i :: 0 <= i < |bs| ==> bs[i] in objs && bs[i].buffer in objs && bs[i].Valid())
    && (forall i, j :: 0 <= i < j < |bs| ==> bs[i] != bs[j] && bs[i].buffer != bs[j].buffer)
  }

  ghost function Views(bs: seq<Bucket>, objs: set<object>): (r: seq<Model>)
    requires Separate(bs, objs)
    reads objs
    ensures |r| == |bs| && forall i :: 0 <= i < |bs| ==> r[i] == View(bs[i])
  {
    if bs == [] then [] else Views(bs[..|bs| - 1], objs) + [View(bs[|bs| - 1])]
  }

  /** Only the bucket that a span is offered to changes. */
  method Offer(bs: seq<Bucket>, ghost objs: set<object>, i: nat, sd: Span)
    requires Separate(bs, objs) && i < |bs|
    modifies bs[i], bs[i].buffer
    ensures Separate(bs, objs)
    ensures Views(bs, objs) == old(Views(bs, objs))[i := Apply(old(Views(bs, objs))[i], Insert(sd))]
  {
    hide Views;
    ghost var was := Views(bs, objs);
    bs[i].Add(sd);
    assert forall j :: 0 <= j < |bs| && j != i ==> bs[j].Valid() && View(bs[j]) == old(View(bs[j]));
    assert Views(bs, objs) == was[i := Apply(was[i], Insert(sd))];
  }

  method ResizeOne(bs: seq<Bucket>, ghost objs: set<object>, i: nat, size: nat)
    requires Separate(bs, objs) && i < |bs|
    modifies bs[i]
    ensures fresh(bs[i].buffer) && Separate(bs, objs + {bs[i].buffer})
    ensures Views(bs, objs + {bs[i].buffer}) == old(Views(bs, objs))[i := Apply(old(Views(bs, objs))[i], Fit(size))]
  {
    hide Views;
    ghost var was := Views(bs, objs);
    bs[i].Resize(size);
    assert forall j :: 0 <= j < |bs| && j != i ==> bs[j].Valid() && View(bs[j]) == old(View(bs[j]));
    assert Views(bs, objs + {bs[i].buffer}) == was[i := Apply(was[i], Fit(size))];
  }

  /** One list turned into another up to `i`. */
  function Half(all: seq<Model>, was: seq<Model>, i: nat): (r: seq<Model>)
    requires |all| == |was| && i <= |was|
    ensures |r| == |was|
  {
    all[..i] + was[i..]
  }

  lemma HalfStep(all: seq<Model>, was: seq<Model>, i: nat)
    requires |all| == |was| && i <= |was|
    ensures i == 0 ==> Half(all, was, i) == was
    ensures i == |was| ==> Half(all, was, i) == all
    ensures i < |was| ==> Half(all, was, i)[i] == was[i] && Half(all, was, i)[i := all[i]] == Half(all, was, i + 1)
  {
  }

  /** All buckets with new sizes. */
  method ResizeAll(bs: seq<Bucket>, ghost objs: set<object>, latencySize: nat, errorSize: nat)
    returns (ghost objs': set<object>)
    requires Separate(bs, objs)
    modifies bs
    ensures objs <= objs' && fresh(objs' - objs) && Separate(bs, objs')
    ensures Views(bs, objs') == ResizedAll(old(Views(bs, objs)), latencySize, errorSize)
  {
    hide Separate, Views, Apply, ResizedAll, Half;
    ghost var was := Views(bs, objs);
    ghost var all := ResizedAll(was, latencySize, errorSize);
    objs' := objs;
    var i := 0;
    HalfStep(all, was, 0);
    while i < |bs|
      invariant 0 <= i <= |bs| == |was| && objs <= objs' && fresh(objs' - objs) && Separate(bs, objs')
      invariant Views(bs, objs') == Half(all, was, i)
    {
      ResizeOne(bs, objs', i, if i <= LAST then latencySize else errorSize);
      objs' := objs' + {bs[i].buffer};
      HalfStep(all, was, i);
      i := i + 1;
    }
    HalfStep(all, was, i);
  }

  method MakeBuckets(count: nat, size: nat) returns (bs: seq<Bucket>, ghost objs: set<object>)
    ensures |bs| == count && fresh(objs) && Separate(bs, objs)
    ensures Views(bs, objs) == seq(count, _ => Model([], size, 0))
  {
    hide Bucket.Valid, Bucket.Contents, Views;
    bs, objs := [], {};
    while |bs| < count
      invariant |bs| <= count && fresh(objs) && Separate(bs, objs)
      invariant forall i :: 0 <= i < |bs| ==> View(bs[i]) == Model([], size, 0)
      decreases count - |bs|
    {
      var b := new Bucket(size);
      bs, objs := bs + [b], objs + {b, b.buffer};
    }
    assert Views(bs, objs) == seq(count, _ => Model([], size, 0));
  }

  /** The spans of a bucket in the order of its buffer, which stops at the first empty slot. */
  ghost function Stored(b: Bucket): (r: seq<Span>)
    requires b.Valid()
    reads b, b.buffer
  {
    if b.overflow then Spans(b.buffer[..]) else Spans(b.buffer[..b.nextIndex])
  }

  /** That order is the order of age, turned round. */
  lemma StoredIsContents(b: Bucket)
    requires b.Valid()
    ensures multiset(Stored(b)) == multiset(View(b).list)
  {
    if b.overflow {
      var x, y := Spans(b.buffer[..b.nextIndex]), Spans(b.buffer[b.nextIndex..]);
      assert Spans(b.buffer[..]) == x + y;
      assert b.Contents() == y + x;
    }
  }

  /** What a bucket's buffer shows to someone who walks it. */
  lemma StoredAt(b: Bucket, i: nat)
    requires b.Valid() && i <= |Stored(b)|
    ensures |Stored(b)| <= b.buffer.Length
    ensures i < b.buffer.Length ==> (b.buffer[i].Nil? <==> i == |Stored(b)|)
    ensures i < |Stored(b)| ==> b.buffer[i] == Full(Stored(b)[i])
  {
  }

  /** Walks a buffer up to its first empty slot. */
  method PickFrom(b: Bucket, min: int, max: int) returns (out: seq<Span>)
    requires b.Valid()
    ensures out == Picked(Stored(b), min, max)
  {
    hide Picked, Stored, Bucket.Valid;
    out := [];
    var i := 0;
    ghost var all := Stored(b);
    PickedStep(all[..0], min, max);
    StoredAt(b, 0);
    while i < b.buffer.Length
      invariant 0 <= i <= |all| && out == Picked(all[..i], min, max)
    {
      StoredAt(b, i);
      if b.buffer[i].Nil? {
        break;
      }
      var sd := b.buffer[i].span;
      assert all[..i + 1][..i] == all[..i];
      PickedStep(all[..i + 1], min, max);
      i := i + 1;
      if min != 0 || max != 0 {
        var d := sd.end - sd.start;
        if d < min {
          continue;
        }
        if max != 0 && d > max {
          continue;
        }
      }
      out := out + [sd];
    }
    assert all[..i] == all;
  }

  /** What the buckets hold, as they hold it. */
  ghost function AllStored(bs: seq<Bucket>, objs: set<object>): (r: seq<seq<Span>>)
    requires Separate(bs, objs)
    reads objs
    ensures |r| == |bs| && forall i :: 0 <= i < |bs| ==> r[i] == Stored(bs[i])
  {
    if bs == [] then [] else AllStored(bs[..|bs| - 1], objs) + [Stored(bs[|bs| - 1])]
  }

  // ---------------------------------------------------------------- the store

  class Store {
    var active: set<int>
    /** The buckets of the latency ranges, then those of status codes; a pointer is a place in the list. */
    var buckets: seq<Bucket>
    var errors: map<int, nat>
    var maxSpansPerErrorBucket: nat
    ghost var objs: set<object>

    ghost predicate Sound()
      reads `buckets, `errors, `objs, objs
    {
      && this !in objs && Separate(buckets, objs)
      && |buckets| > LAST && (forall c :: c in errors ==> LAST < errors[c] < |buckets|)
      && (forall c, d :: c in errors && d in errors && c != d ==> errors[c] != errors[d])
    }

    /** What is kept, as plain lists. */
    ghost function State(): (k: Kept)
      requires Sound()
      reads `buckets, `errors, `maxSpansPerErrorBucket, `objs, objs
      ensures Wellformed(k) && k.places == errors && |k.lists| == |buckets|
    {
      Kept(Views(buckets, objs), errors, maxSpansPerErrorBucket)
    }

    ghost predicate Valid()
      reads `buckets, `errors, `maxSpansPerErrorBucket, `objs, objs
    {
      Sound() && Sorted(State())
    }

    constructor (latencyBucketSize: nat, errorBucketSize: nat)
      ensures Valid() && fresh(objs) && active == {} && State() == Empty(latencyBucketSize, errorBucketSize)
    {
      hide Separate, Views, Sorted;
      RunSorted(latencyBucketSize, errorBucketSize, []);
      var bs; ghost var os;
      bs, os := MakeBuckets(LAST + 1, latencyBucketSize);
      active, buckets, errors, maxSpansPerErrorBucket, objs := {}, bs, map[], errorBucketSize, os;
    }

    /** The first span with a code gets it a bucket. */
    method AddErrorBucket(code: int)
      requires Sound() && code != 0 && code !in errors
      modifies `buckets, `errors, `objs
      ensures Sound() && State() == WithList(old(State()), code) && old(objs) <= objs && fresh(objs - old(objs))
    {
      hide Bucket.Valid, Bucket.Contents, Views;
      ghost var was := Views(buckets, objs);
      var b := new Bucket(maxSpansPerErrorBucket);
      errors := errors[code := |buckets|];
      buckets := buckets + [b];
      objs := objs + {b, b.buffer};
      assert Views(buckets, objs) == was + [Model([], maxSpansPerErrorBucket, 0)];
    }

    /** Puts a span where it belongs. */
    method Keep(sd: Span)
      requires Sound()
      modifies `buckets, `errors, `objs, objs
      ensures Sound() && State() == Next(old(State()), End(sd)) && old(objs) <= objs && fresh(objs - old(objs))
    {
      hide Views, Apply, Bucket.Valid;
      if sd.code == 0 {
        var i := LatencyBucket(Latency(sd));
        Offer(buckets, objs, i, sd);
      } else {
        if sd.code !in errors {
          AddErrorBucket(sd.code);
        }
        Offer(buckets, objs, errors[sd.code], sd);
      }
    }

    /** A successful span goes to the bucket of its latency, a failed one to that of its code, and only there. */
    method Finished(span: int, sd: Span)
      requires Valid()
      modifies this, objs
      ensures Valid() && active == old(active) - {span} && State() == Next(old(State()), End(sd))
      ensures old(objs) <= objs && fresh(objs - old(objs))
    {
      hide Separate, State, Next, Sorted;
      NextSorted(State(), End(sd));
      active := active - {span};
      Keep(sd);
    }

    method Add(span: int)
      modifies `active
      ensures active == old(active) + {span}
    {
      active := active + {span};
    }

    method Resize(latencyBucketSize: nat, errorBucketSize: nat)
      requires Valid()
      modifies `maxSpansPerErrorBucket, `objs, objs
      ensures Valid() && State() == Next(old(State()), Configure(latencyBucketSize, errorBucketSize))
      ensures old(objs) <= objs && fresh(objs - old(objs))
    {
      hide Views, Sorted, ResizedAll, Bucket.Valid;
      NextSorted(State(), Configure(latencyBucketSize, errorBucketSize));
      objs := ResizeAll(buckets, objs, latencyBucketSize, errorBucketSize);
      maxSpansPerErrorBucket := errorBucketSize;
    }
  
    /** What is stored is what the lists keep, up to order, and each span where its latency says. */
    lemma StoredIsKept()
      requires Valid()
      ensures var stored, lists := AllStored(buckets, objs)[..LAST + 1], Lists(State().lists)[..LAST + 1];
        Placed(stored) && forall i :: 0 <= i <= LAST ==> multiset(stored[i]) == multiset(lists[i])
    {
      hide Views, AllStored, InBucket, Bucket.Valid;
      var stored := AllStored(buckets, objs)[..LAST + 1];
      forall i | 0 <= i <= LAST ensures multiset(stored[i]) == multiset(State().lists[i].list) {
        StoredIsContents(buckets[i]);
      }
      forall i, s | 0 <= i <= LAST && s in stored[i] ensures InBucket(Latency(s), i) {
        assert s in multiset(stored[i]);
        assert s in State().lists[i].list;
      }
    }

    /**
     The report, which does not look at buckets whose range cannot match. Unless the upper bound is
     negative and not below the lower one, it is the plain filter over everything that is kept.
     */
    method ReportSpansByLatency(min: int, max: int) returns (out: seq<Span>)
      requires Valid()
      ensures out == Report(AllStored(buckets, objs)[..LAST + 1], min, max, LAST + 1)
      ensures max >= 0 || max < min ==> out == Filtered(AllStored(buckets, objs)[..LAST + 1], min, max, LAST + 1)
      ensures max >= 0 || max < min ==>
        multiset(out) == multiset(Filtered(Lists(State().lists)[..LAST + 1], min, max, LAST + 1))
      ensures forall s :: s in out ==> Wanted(s, min, max)
    {
      hide Report, Filtered, Picked, Skipped, Sorted, InBucket, Views, AllStored, Placed, Lists;
      StoredIsKept();
      ghost var all := AllStored(buckets, objs)[..LAST + 1];
      out := [];
      var i := 0;
      ReportNone(all, min, max);
      while i <= LAST
        invariant i <= LAST + 1 && out == Report(all, min, max, i) && forall s :: s in out ==> Wanted(s, min, max)
      {
        ReportStep(all, min, max, i);
        var skip := (i != LAST && Upper(i) <= min) || (max != 0 && max < Lower(i));
        if !skip {
          var more := PickFrom(buckets[i], min, max);
          out := out + more;
        }
        i := i + 1;
      }
      ReportIsAlwaysFilterIff(min, max);
      FilteredSame(all, Lists(State().lists)[..LAST + 1], min, max, LAST + 1);
    }

    /** Everything in a bucket. */
    method TakeAll(i: nat) returns (out: seq<Span>)
      requires Sound() && i < |buckets|
      ensures multiset(out) == multiset(State().lists[i].list)
    {
      hide Picked, Views, Bucket.Valid;
      out := PickFrom(buckets[i], 0, 0);
      AllPicked(Stored(buckets[i]));
      StoredIsContents(buckets[i]);
    }

    /** The failed spans of one code, or of all codes for zero. */
    method ReportSpansByError(code: int) returns (out: seq<Span>)
      requires Valid()
      ensures code != 0 && code in errors ==> multiset(out) == multiset(State().lists[errors[code]].list)
      ensures code != 0 && code !in errors ==> out == []
      ensures code == 0 ==> multiset(out) == Together(State().lists, LAST + 1, |State().lists|)
    {
      hide Sorted, Separate, State, Together;
      ghost var ms := State().lists;
      out := [];
      if code != 0 {
        if code in errors {
          out := TakeAll(errors[code]);
        }
        return;
      }
      var i := LAST + 1;
      TogetherStep(ms, i, i);
      while i < |buckets|
        invariant LAST < i <= |buckets| && multiset(out) == Together(ms, LAST + 1, i)
      {
        TogetherStep(ms, LAST + 1, i + 1);
        var more := TakeAll(i);
        out := out + more;
        i := i + 1;
      }
    }
  }

  /** All spans of the lists from `lo` on, before `hi`. */
  function Together(ms: seq<Model>, lo: nat, hi: nat): (r: multiset<Span>)
    requires lo <= hi <= |ms|
  {
    if lo == hi then multiset{} else Together(ms, lo, hi - 1) + multiset(ms[hi - 1].list)
  }

  lemma TogetherStep(ms: seq<Model>, lo: nat, hi: nat)
    requires lo <= hi <= |ms|
    ensures Together(ms, lo, hi) ==
      if lo == hi then multiset{} else Together(ms, lo, hi - 1) + multiset(ms[hi - 1].list)
  {
  }

  lemma PickedStep(list: seq<Span>, min: int, max: int)
    ensures Picked(list, min, max) ==
      if list == [] then []
      else Picked(list[..|list| - 1], min, max) + if Wanted(list[|list| - 1], min, max) then [list[|list| - 1]] else []
  {
  }

  lemma {:induction false} AllPicked(list: seq<Span>)
    ensures Picked(list, 0, 0) == list
  {
    hide Picked;
    PickedStep(list, 0, 0);
    if list != [] {
      AllPicked(list[..|list| - 1]);
    }
  }

  /**
   Any run of finished spans and new sizes: the store keeps what plain lists would keep, each span
   where it belongs, and the report over it is the plain filter over those lists.
   */
  method Replay(latencySize: nat, errorSize: nat, hs: seq<Happening>, min: int, max: int) returns (store: Store,
        out: seq<Span>)
    ensures store.Valid() && store.State() == NextAll(Empty(latencySize, errorSize), hs)
    ensures max >= 0 || max < min ==>
      multiset(out) == multiset(Filtered(Lists(store.State().lists)[..LAST + 1], min, max, LAST + 1))
  {
    hide Sorted, Next, NextAll, Separate, Views, Empty, Wellformed, Report, Filtered, AllStored, Lists, Wanted;
    store := new Store(latencySize, errorSize);
    var i := 0;
    ghost var first := Empty(latencySize, errorSize);
    NextAllStep(first, hs, 0);
    while i < |hs|
      invariant i <= |hs| && fresh(store) && fresh(store.objs) && store.Valid()
      invariant store.State() == NextAll(Empty(latencySize, errorSize), hs[..i])
    {
      NextAllStep(first, hs, i);
      match hs[i] {
        case End(sd) => store.Finished(sd.id, sd);
        case Configure(l, e) => store.Resize(l, e);
      }
      i := i + 1;
    }
    assert hs[..i] == hs;
    out := store.ReportSpansByLatency(min, max);
  }
}
