/**
 Whole runs of the emitter: what it has processed is always a prefix of a well-formed stream,
 looking ahead never gives a different answer later, and a complete stream is never held back.
 */
module EmitterRuns {
  import opened Options
  import G = EventGrammar
  import P = ParserSoundness
  import T = ParserModel
  import opened EmitterModel
  import opened EmitterSoundness

  function Initial(canonical: bool, bestIndent: int): (c: Config)
    ensures Valid(c) && Nesting(c) == G.Start
  {
    Config(canonical, bestIndent, StreamStart, [], 0, [], 0, false)
  }

  function Kinds(es: seq<Event>): (ks: seq<G.Kind>)
    ensures |ks| == |es| && forall i :: 0 <= i < |es| ==> ks[i] == es[i].kind
  {
    seq(|es|, i requires 0 <= i < |es| => es[i].kind)
  }

  /** Whether event `i` starts a collection that the next event ends. */
  predicate EmptyAt(es: seq<Event>, i: nat)
    requires i < |es|
  {
    i + 1 < |es| && Closes(es[i].kind, es[i + 1].kind)
  }

  function Next(r: Option<Config>, e: Event, empty: bool): (s: Option<Config>)
    requires r.Some? ==> Valid(r.value)
    ensures s.Some? ==> Valid(s.value)
  {
    match r
    case None => None
    case Some(c) => StepFollows(c, e, empty); Step(c, e, empty)
  }

  /** The first `n` events, each with a view of the event after it. */
  function Run(c: Config, es: seq<Event>, n: nat): (r: Option<Config>)
    requires Valid(c) && n <= |es|
    ensures r.Some? ==> Valid(r.value)
  {
    if n == 0 then Some(c) else Next(Run(c, es, n - 1), es[n - 1], EmptyAt(es, n - 1))
  }

  /** A run with acceptable contents goes exactly as far as the grammar does, and no stack ever runs out. */
  lemma {:induction false} RunIffViable(c: Config, es: seq<Event>, n: nat)
    requires Valid(c) && n <= |es|
    ensures var r := Run(c, es, n); var v := G.TakeAll(Nesting(c), Kinds(es)[..n]);
      && (r.Some? ==> v == G.Accept(Nesting(r.value)))
      && ((forall i :: 0 <= i < n ==> es[i].valid) && r.None? ==> v.Reject?)
  {
    hide Run, Step, Valid, Nesting, Kinds, G.Take;
    var ks := Kinds(es);
    if n == 0 {
      RunStart(c, es);
      assert ks[..0] == [];
    } else {
      var e := es[n - 1];
      RunIffViable(c, es, n - 1);
      RunStep(c, es, n);
      assert ks[..n] == ks[..n - 1] + [e.kind];
      G.TakeAllAppend(Nesting(c), ks[..n - 1], [e.kind]);
      var r := Run(c, es, n - 1);
      if r.Some? {
        StepFollows(r.value, e, EmptyAt(es, n - 1));
        TakeOne(Nesting(r.value), e.kind);
      }
    }
  }

  lemma TakeOne(needs: G.Needs, k: G.Kind)
    ensures G.TakeAll(needs, [k]) == G.Take(needs, k)
  {
    assert [k][1..] == [];
  }

  // ---------------------------------------------------------------- looking ahead

  predicate Opens(k: G.Kind) {
    k.SequenceStart? || k.MappingStart?
  }

  /** The event after every collection start among the first `n` is already known. */
  predicate Settled(es: seq<Event>, n: nat)
    requires n <= |es|
  {
    forall i :: 0 <= i < n && Opens(es[i].kind) ==> i + 1 < |es|
  }

  lemma RunStart(c: Config, es: seq<Event>)
    requires Valid(c)
    ensures Run(c, es, 0) == Some(c)
  {
  }

  lemma RunStep(c: Config, es: seq<Event>, n: nat)
    requires Valid(c) && 0 < n <= |es|
    ensures Run(c, es, n) == Next(Run(c, es, n - 1), es[n - 1], EmptyAt(es, n - 1))
  {
  }

  lemma SettledBefore(es: seq<Event>, n: nat)
    requires 0 < n <= |es| && Settled(es, n)
    ensures Settled(es, n - 1) && (Opens(es[n - 1].kind) ==> n < |es|)
  {
  }

  lemma EmptyAtExtends(es: seq<Event>, more: seq<Event>, i: nat)
    requires i < |es| && (Opens(es[i].kind) ==> i + 1 < |es|)
    ensures (es + more)[i] == es[i] && EmptyAt(es + more, i) == EmptyAt(es, i)
  {
  }

  /** What has been processed does not depend on what comes later. */
  lemma {:induction false} RunExtends(c: Config, es: seq<Event>, more: seq<Event>, n: nat)
    requires Valid(c) && n <= |es| && Settled(es, n)
    ensures Run(c, es + more, n) == Run(c, es, n)
  {
    hide Run, Next, Valid, EmptyAt, Settled;
    if n == 0 {
      RunStart(c, es);
      RunStart(c, es + more);
    } else {
      SettledBefore(es, n);
      RunExtends(c, es, more, n - 1);
      EmptyAtExtends(es, more, n - 1);
      RunStep(c, es, n);
      RunStep(c, es + more, n);
    }
  }

  /** Opened minus closed. */
  function Level(ks: seq<G.Kind>): int {
    if ks == [] then 0 else Level(ks[..|ks| - 1]) + Change(ks[|ks| - 1])
  }

  function Change(k: G.Kind): int {
    match k
    case StreamStart => 1
    case DocumentStart => 1
    case SequenceStart => 1
    case MappingStart => 1
    case Atom => 0
    case _ => -1
  }

  function Accumulate(k: G.Kind): nat {
    if k.DocumentStart? then 1 else if k.SequenceStart? then 2 else if k.MappingStart? then 3 else 0
  }

  /** Whether what the queue starts with ends in the queue. */
  predicate Ends(ks: seq<G.Kind>) {
    exists n :: 0 < n <= |ks| && Level(ks[..n]) == 0
  }

  /** When the head of the queue has to wait. */
  predicate NeedsMore(ks: seq<G.Kind>) {
    ks == [] || (Accumulate(ks[0]) > 0 && |ks| <= Accumulate(ks[0]) && !Ends(ks))
  }

  /** A collection start that need not wait has its next event beside it. */
  lemma NextIsKnown(ks: seq<G.Kind>)
    requires !NeedsMore(ks) && Opens(ks[0])
    ensures |ks| > 1
  {
    if |ks| == 1 {
      assert ks[..1] == ks && ks[..1][..0] == [];
      assert Level(ks[..1]) == 1;
    }
  }

  /** How many ends a need still asks for. */
  function Weight(needs: G.Needs): nat {
    match needs
    case Nothing => 0
    case Then(need, rest) => (if need.Stream? || need.Root? then 0 else 1) + Weight(rest)
  }

  lemma {:induction false} LevelIsWeight(needs: G.Needs, ks: seq<G.Kind>)
    requires G.TakeAll(needs, ks).Accept?
    ensures Level(ks) == Weight(G.TakeAll(needs, ks).rest) - Weight(needs)
    decreases |ks|
  {
    if ks != [] {
      var n := |ks| - 1;
      var front, k := ks[..n], ks[n];
      assert ks == front + [k];
      G.TakeAllAppend(needs, front, [k]);
      LevelIsWeight(needs, front);
      var mid := G.TakeAll(needs, front).rest;
      TakeOne(mid, k);
      TakeWeight(mid, k);
    }
  }

  lemma TakeWeight(needs: G.Needs, k: G.Kind)
    requires G.Take(needs, k).Accept?
    ensures Weight(G.Take(needs, k).rest) == Weight(needs) + Change(k)
  {
    if G.StartsNode(k) {
      G.TakeNodeStart(needs, k);
      BeginWeight(k, G.AfterNode(needs));
    } else {
      EndWeight(needs, k);
    }
  }

  lemma BeginWeight(k: G.Kind, rest: G.Needs)
    requires G.StartsNode(k)
    ensures Weight(G.BeginNode(k, rest)) == Weight(rest) + Change(k)
  {
  }

  lemma EndWeight(needs: G.Needs, k: G.Kind)
    requires G.Take(needs, k).Accept? && !G.StartsNode(k)
    ensures Weight(G.Take(needs, k).rest) == Weight(needs) + Change(k)
  {
    if k.DocumentStart? {
      var after := G.Then(G.RootEnd, needs);
      assert Weight(after) == 1 + Weight(needs);
      assert G.Take(needs, k).rest == G.Then(G.Root, after);
    }
  }

  /** A level that starts above zero and ends below it is zero in between. */
  lemma {:induction false} CrossesZero(ks: seq<G.Kind>, lo: nat, hi: nat)
    requires lo < hi <= |ks| && Level(ks[..lo]) > 0 && Level(ks[..hi]) <= 0
    ensures Ends(ks)
    decreases hi - lo
  {
    var m := lo + 1;
    assert ks[..m][..lo] == ks[..lo];
    if Level(ks[..m]) > 0 {
      CrossesZero(ks, m, hi);
    }
  }

  /** Once a stream is complete, nothing in the queue waits. */
  lemma CompleteWaitsForNothing(needs: G.Needs, ks: seq<G.Kind>)
    requires ks != [] && G.TakeAll(needs, ks) == G.Accept(G.Nothing)
    requires Weight(needs) > 0 || needs == G.Start
    ensures !NeedsMore(ks)
  {
    LevelIsWeight(needs, ks);
    assert ks[..|ks|] == ks;
    if Accumulate(ks[0]) > 0 {
      assert ks[..1][..0] == [];
      assert Level(ks[..1]) == 1;
      CrossesZero(ks, 1, |ks|);
    }
  }

  /** These kinds begin a well-formed stream. */
  ghost predicate IsPrefix(ks: seq<G.Kind>) {
    exists docs, more :: ks + more == G.StreamKinds(docs)
  }

  /** What the emitter has processed is a prefix of a well-formed stream. */
  lemma ProcessedIsPrefix(canonical: bool, bestIndent: int, es: seq<Event>, n: nat)
    requires n <= |es| && Run(Initial(canonical, bestIndent), es, n).Some?
    ensures IsPrefix(Kinds(es)[..n])
  {
    RunIffViable(Initial(canonical, bestIndent), es, n);
    G.ViableIffPrefix(Kinds(es)[..n]);
  }

  /** The next event is processed exactly if its content is acceptable and the stream can go on with it. */
  lemma RefusedIff(canonical: bool, bestIndent: int, es: seq<Event>, n: nat)
    requires n < |es| && Run(Initial(canonical, bestIndent), es, n).Some?
    ensures Run(Initial(canonical, bestIndent), es, n + 1).Some? <==> es[n].valid && IsPrefix(Kinds(es)[..n + 1])
  {
    hide Run, Initial, G.StreamKinds, Step, Kinds, Valid, Nesting;
    var c, ks, e := Initial(canonical, bestIndent), Kinds(es), es[n];
    var d := Run(c, es, n).value;
    RunStep(c, es, n + 1);
    RunIffViable(c, es, n);
    StepFollows(d, e, EmptyAt(es, n));
    assert ks[..n + 1] == ks[..n] + [e.kind];
    G.TakeAllAppend(G.Start, ks[..n], [e.kind]);
    TakeOne(Nesting(d), e.kind);
    G.ViableIffPrefix(Kinds(es)[..n + 1]);
  }

  /** With a complete stream given, a queue that waits is empty, and nothing is left open. */
  lemma CompleteIsDone(canonical: bool, bestIndent: int, es: seq<Event>, n: nat, docs: G.Items)
    requires n <= |es| && Kinds(es) == G.StreamKinds(docs)
    requires Run(Initial(canonical, bestIndent), es, n).Some? && NeedsMore(Kinds(es)[n..])
    ensures n == |es|
    ensures var c := Run(Initial(canonical, bestIndent), es, n).value;
      c.state.End? && c.states == [] && c.indents == [] && c.flowLevel == 0
  {
    var ks := Kinds(es);
    var c := Run(Initial(canonical, bestIndent), es, n).value;
    RunIffViable(Initial(canonical, bestIndent), es, n);
    hide Run, NeedsMore, Kinds, G.TakeAll, G.StreamKinds;
    G.StreamAccepted(docs);
    assert ks == ks[..n] + ks[n..];
    G.TakeAllAppend(G.Start, ks[..n], ks[n..]);
    if n < |es| {
      Waiting(c, ks[n..]);
    } else {
      assert ks[n..] == [];
      NothingLeft(c);
    }
  }

  lemma Waiting(c: Config, ks: seq<G.Kind>)
    requires Valid(c) && ks != [] && G.TakeAll(Nesting(c), ks) == G.Accept(G.Nothing)
    ensures !NeedsMore(ks)
  {
    hide NeedsMore;
    if !c.state.End? {
      CompleteWaitsForNothing(Nesting(c), ks);
    }
  }

  lemma NothingLeft(c: Config)
    requires Valid(c) && G.TakeAll(Nesting(c), []) == G.Accept(G.Nothing)
    ensures c.state.End? && c.states == [] && c.indents == [] && c.flowLevel == 0
  {
  }

  /** A complete stream with acceptable contents. */
  ghost predicate Complete(es: seq<Event>) {
    (exists docs :: Kinds(es) == G.StreamKinds(docs)) && forall e :: e in es ==> e.valid
  }

  lemma CompleteHasPrefixes(es: seq<Event>, n: nat)
    requires Complete(es) && n < |es|
    ensures es[n].valid && IsPrefix(Kinds(es)[..n + 1])
  {
    var docs :| Kinds(es) == G.StreamKinds(docs);
    assert Kinds(es)[..n + 1] + Kinds(es)[n + 1..] == G.StreamKinds(docs);
    assert es[n] in es;
  }

  /** What the parser produces, to its end, is something the emitter processes completely. */
  lemma ParsedIsComplete(toks: seq<T.Token>, n: nat, es: seq<Event>)
    requires P.Run(P.Initial(toks), n).1.state.End? && Kinds(es) == P.Kinds(P.Run(P.Initial(toks), n).0)
    requires forall e :: e in es ==> e.valid
    ensures Complete(es)
  {
    hide P.Run;
    P.EventsAreWellNested(toks, n);
  }
}
