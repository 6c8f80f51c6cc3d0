/** The emitter object: an event queue in front of the state machine. */
module EmitterObject {
  import opened Options
  import G = EventGrammar
  import M = EmitterModel
  import opened R = EmitterRuns
  import S = EmitterSoundness
  import Styles = EmitterStyles

  class Emitter {
    const canonical: bool
    var bestIndent: int
    var state: M.State
    var states: seq<M.State>
    var indent: int
    var indents: seq<int>
    var flowLevel: int
    var mappingContext: bool
    var events: seq<M.Event>
    var eventsHead: nat
    /** The indentation that was asked for, and every event given so far. */
    ghost const asked: int
    ghost var given: seq<M.Event>

    constructor (canonical: bool, bestIndent: int)
      ensures this.canonical == canonical && asked == bestIndent
      ensures Conf() == Initial(canonical, bestIndent) && events == [] && eventsHead == 0 && given == [] && Valid()
    {
      this.canonical, this.bestIndent, asked := canonical, bestIndent, bestIndent;
      state, states, indent, indents, flowLevel, mappingContext := M.StreamStart, [], 0, [], 0, false;
      events, eventsHead, given := [], 0, [];
    }

    function Conf(): (c: M.Config)
      reads this
    {
      M.Config(canonical, bestIndent, state, states, indent, indents, flowLevel, mappingContext)
    }

    /** The caller knows whether a production succeeds, and the object has its new configuration. */
    ghost predicate Did(r: Option<M.Config>, ok: bool)
      reads this
    {
      ok == r.Some? && (ok ==> Conf() == r.value)
    }

    ghost predicate Valid()
      reads this
    {
      && eventsHead <= |events| == |given| && events[eventsHead..] == given[eventsHead..]
      && Settled(given, eventsHead)
      && Run(Initial(canonical, asked), given, eventsHead) == Some(Conf())
    }

    // -------------------------------------------------------------- stacks

    method PopState()
      requires states != []
      modifies `state, `states
      ensures Conf() == M.Pop(old(Conf()))
    {
      state := states[|states| - 1];
      states := states[..|states| - 1];
    }

    method PushState(s: M.State)
      modifies `states
      ensures Conf() == M.Push(old(Conf()), s)
    {
      states := states + [s];
    }

    /** In flow style the new level leaves room for at least `bestIndent` columns. */
    method IncreaseIndent(flow: bool, indentless: bool)
      modifies `indent, `indents
      ensures Conf() == M.IncreaseIndent(old(Conf()), flow, indentless)
      ensures flow && !indentless && old(indent) >= -1 ==> indent >= bestIndent
    {
      indents := indents + [indent];
      if indent < 0 {
        indent := if flow then bestIndent else 0;
      } else if !indentless {
        indent := indent + bestIndent;
      }
    }

    method PopIndent()
      requires indents != []
      modifies `indent, `indents
      ensures Conf() == M.PopIndent(old(Conf()))
    {
      indent := indents[|indents| - 1];
      indents := indents[..|indents| - 1];
    }

    // -------------------------------------------------------------- looking ahead

    method CheckEmpty() returns (empty: bool)
      requires eventsHead < |events|
      ensures empty == EmptyAt(events, eventsHead)
    {
      if |events| - eventsHead < 2 {
        return false;
      }
      empty := M.Closes(events[eventsHead].kind, events[eventsHead + 1].kind);
    }

    method CheckSimpleKey() returns (simple: bool)
      requires eventsHead < |events|
      ensures simple == M.SimpleKey(events[eventsHead], EmptyAt(events, eventsHead))
    {
      var e := events[eventsHead];
      var length := 0;
      if e.kind.Atom? && e.alias {
        length := length + e.sizes.anchor;
      } else if e.kind.Atom? {
        if e.sizes.multiline {
          return false;
        }
        length := length + e.sizes.anchor + e.sizes.handle + e.sizes.suffix + e.sizes.value;
      } else if e.kind.SequenceStart? || e.kind.MappingStart? {
        var empty := CheckEmpty();
        if !empty {
          return false;
        }
        length := length + e.sizes.anchor + e.sizes.handle + e.sizes.suffix;
      } else {
        return false;
      }
      simple := length <= M.MAX_SIMPLE_KEY;
    }

    method NeedMoreEvents() returns (more: bool)
      requires eventsHead <= |events|
      ensures more == NeedsMore(Kinds(events[eventsHead..]))
      ensures more <==>
        || eventsHead == |events|
        || (!Ends(Kinds(events[eventsHead..]))
            && |events| - eventsHead <= match events[eventsHead].kind {
                                          case DocumentStart => 1
                                          case SequenceStart => 2
                                          case MappingStart => 3
                                          case _ => 0
                                        })
    {
      ghost var ks := Kinds(events[eventsHead..]);
      if eventsHead == |events| {
        return true;
      }
      var accumulate := Accumulate(events[eventsHead].kind);
      if accumulate == 0 {
        return false;
      }
      if |events| - eventsHead > accumulate {
        return false;
      }
      var level := 0;
      var i := eventsHead;
      assert ks[..0] == [];
      while i < |events|
        invariant eventsHead <= i <= |events|
        invariant level == Level(ks[..i - eventsHead])
        invariant forall n :: 0 < n <= i - eventsHead ==> Level(ks[..n]) != 0
      {
        var m := i - eventsHead;
        assert ks[..m + 1][..m] == ks[..m] && ks[m] == events[i].kind;
        level := level + Change(events[i].kind);
        i := i + 1;
        if level == 0 {
          return false;
        }
      }
      more := true;
    }

    // -------------------------------------------------------------- nodes

    /** A scalar is written one level in; the level is there again afterwards. */
    method EmitScalar()
      requires M.NodeReady(Conf())
      modifies `state, `states, `indent, `indents
      ensures Conf() == M.Pop(old(Conf()))
    {
      IncreaseIndent(true, false);
      assert indent >= 2;
      PopIndent();
      assert indents == old(indents);
      PopState();
    }

    method EmitNode(e: M.Event, mapping: bool) returns (ok: bool)
      requires M.NodeReady(Conf()) && eventsHead < |events| && e == events[eventsHead]
      modifies `state, `states, `indent, `indents, `mappingContext
      ensures Did(M.EmitNode(old(Conf()), e, EmptyAt(events, eventsHead), mapping), ok)
    {
      mappingContext := mapping;
      ok := true;
      if e.kind.Atom? {
        if e.alias {
          PopState();
        } else {
          EmitScalar();
        }
      } else if e.kind.SequenceStart? {
        var empty := CheckEmpty();
        var flow := flowLevel > 0 || canonical || e.flow || empty;
        state := if flow then M.FlowSequenceFirstItem else M.BlockSequenceFirstItem;
      } else if e.kind.MappingStart? {
        var empty := CheckEmpty();
        var flow := flowLevel > 0 || canonical || e.flow || empty;
        state := if flow then M.FlowMappingFirstKey else M.BlockMappingFirstKey;
      } else {
        ok := false;
      }
    }

    // -------------------------------------------------------------- productions

    method EmitDocumentContent(e: M.Event) returns (ok: bool)
      requires M.Valid(Conf()) && state.DocumentContent? && eventsHead < |events| && e == events[eventsHead]
      modifies `state, `states, `indent, `indents, `flowLevel, `mappingContext
      ensures Did(M.EmitDocumentContent(old(Conf()), e, EmptyAt(events, eventsHead)), ok)
    {
      hide M.Valid, M.EmitNode, EmptyAt, M.SimpleKey;
      S.ContentReady(Conf());
      PushState(M.DocumentEnd);
      ok := EmitNode(e, false);
    }

    method EnterFlow(ghost s: M.State)
      modifies `indent, `indents, `flowLevel
      ensures Conf().(state := s) == M.EnterFlow(old(Conf()), s)
    {
      IncreaseIndent(true, false);
      flowLevel := flowLevel + 1;
    }

    method LeaveFlow(ghost d: M.Config)
      requires d == Conf().(state := d.state) && M.Valid(d) && M.Inside(d.state)
      modifies `state, `states, `indent, `indents, `flowLevel
      ensures d.indents != [] && d.states != [] && Conf() == M.LeaveFlow(d)
    {
      flowLevel := flowLevel - 1;
      PopIndent();
      PopState();
    }

    method EnterBlock(indentless: bool, ghost s: M.State)
      modifies `indent, `indents
      ensures Conf().(state := s) == M.EnterBlock(old(Conf()), indentless, s)
    {
      IncreaseIndent(false, indentless);
    }

    method LeaveBlock(ghost d: M.Config)
      requires d == Conf().(state := d.state) && M.Valid(d) && M.Inside(d.state)
      modifies `state, `states, `indent, `indents
      ensures d.indents != [] && d.states != [] && Conf() == M.LeaveBlock(d)
    {
      PopIndent();
      PopState();
    }

    /** A node inside a collection; `d` is the configuration with the collection entered. */
    method EmitMember(e: M.Event, next: M.State, mapping: bool, ghost d: M.Config) returns (ok: bool)
      requires eventsHead < |events| && e == events[eventsHead]
      requires d == Conf().(state := d.state) && M.Valid(d) && M.Inside(d.state) && M.Inside(next)
      requires M.Flow(d.state) == M.Flow(next)
      modifies `state, `states, `indent, `indents, `mappingContext
      ensures M.NodeReady(M.Push(d, next))
      ensures Did(M.EmitNode(M.Push(d, next), e, EmptyAt(events, eventsHead), mapping), ok)
    {
      hide M.Valid, M.EmitNode, EmptyAt;
      M.ReadyAfterPush(d, next);
      S.NodeIgnoresState(M.Push(d, next), state, e, EmptyAt(events, eventsHead), mapping);
      PushState(next);
      ok := EmitNode(e, mapping);
    }

    method EmitFlowSequenceItem(e: M.Event, first: bool) returns (ok: bool)
      requires M.Valid(Conf()) && eventsHead < |events| && e == events[eventsHead]
      requires state == (if first then M.FlowSequenceFirstItem else M.FlowSequenceItem)
      modifies `state, `states, `indent, `indents, `flowLevel, `mappingContext
      ensures Did(M.EmitFlowSequenceItem(old(Conf()), e, EmptyAt(events, eventsHead)), ok)
    {
      hide M.Valid, M.EmitNode, EmptyAt, M.SimpleKey, M.EnterFlow, M.LeaveFlow, M.EnterBlock, M.LeaveBlock, M.Push;
      ghost var c := Conf();
      ghost var d := c;
      if first {
        M.EnteredFlow(c, M.FlowSequenceItem);
        d := M.EnterFlow(c, M.FlowSequenceItem);
        EnterFlow(M.FlowSequenceItem);
      }
      if e.kind.SequenceEnd? {
        LeaveFlow(d);
        return true;
      }
      ok := EmitMember(e, M.FlowSequenceItem, false, d);
    }

    method EmitFlowMappingKey(e: M.Event, first: bool) returns (ok: bool)
      requires M.Valid(Conf()) && eventsHead < |events| && e == events[eventsHead]
      requires state == (if first then M.FlowMappingFirstKey else M.FlowMappingKey)
      modifies `state, `states, `indent, `indents, `flowLevel, `mappingContext
      ensures Did(M.EmitFlowMappingKey(old(Conf()), e, EmptyAt(events, eventsHead)), ok)
    {
      hide M.Valid, M.EmitNode, EmptyAt, M.SimpleKey, M.EnterFlow, M.LeaveFlow, M.EnterBlock, M.LeaveBlock, M.Push;
      ghost var c := Conf();
      ghost var d := c;
      if first {
        M.EnteredFlow(c, M.FlowMappingKey);
        d := M.EnterFlow(c, M.FlowMappingKey);
        EnterFlow(M.FlowMappingKey);
      }
      if e.kind.MappingEnd? {
        LeaveFlow(d);
        return true;
      }
      var simple := CheckSimpleKey();
      if !canonical && simple {
        ok := EmitMember(e, M.FlowMappingSimpleValue, true, d);
      } else {
        ok := EmitMember(e, M.FlowMappingValue, true, d);
      }
    }

    method EmitFlowMappingValue(e: M.Event) returns (ok: bool)
      requires M.Valid(Conf()) && eventsHead < |events| && e == events[eventsHead]
      requires (state.FlowMappingSimpleValue? || state.FlowMappingValue?)
      modifies `state, `states, `indent, `indents, `flowLevel, `mappingContext
      ensures Did(M.EmitFlowMappingValue(old(Conf()), e, EmptyAt(events, eventsHead)), ok)
    {
      hide M.Valid, M.EmitNode, EmptyAt, M.SimpleKey, M.EnterFlow, M.LeaveFlow, M.EnterBlock, M.LeaveBlock, M.Push;
      ok := EmitMember(e, M.FlowMappingKey, true, Conf());
    }

    method EmitBlockSequenceItem(e: M.Event, first: bool) returns (ok: bool)
      requires M.Valid(Conf()) && eventsHead < |events| && e == events[eventsHead]
      requires state == (if first then M.BlockSequenceFirstItem else M.BlockSequenceItem)
      modifies `state, `states, `indent, `indents, `flowLevel, `mappingContext
      ensures Did(M.EmitBlockSequenceItem(old(Conf()), e, EmptyAt(events, eventsHead)), ok)
    {
      hide M.Valid, M.EmitNode, EmptyAt, M.SimpleKey, M.EnterFlow, M.LeaveFlow, M.EnterBlock, M.LeaveBlock, M.Push;
      ghost var c := Conf();
      ghost var d := c;
      if first {
        M.EnteredBlock(c, mappingContext && !e.indention, M.BlockSequenceItem);
        d := M.EnterBlock(c, mappingContext && !e.indention, M.BlockSequenceItem);
        EnterBlock(mappingContext && !e.indention, M.BlockSequenceItem);
      }
      if e.kind.SequenceEnd? {
        LeaveBlock(d);
        return true;
      }
      ok := EmitMember(e, M.BlockSequenceItem, false, d);
    }

    method EmitBlockMappingKey(e: M.Event, first: bool) returns (ok: bool)
      requires M.Valid(Conf()) && eventsHead < |events| && e == events[eventsHead]
      requires state == (if first then M.BlockMappingFirstKey else M.BlockMappingKey)
      modifies `state, `states, `indent, `indents, `flowLevel, `mappingContext
      ensures Did(M.EmitBlockMappingKey(old(Conf()), e, EmptyAt(events, eventsHead)), ok)
    {
      hide M.Valid, M.EmitNode, EmptyAt, M.SimpleKey, M.EnterFlow, M.LeaveFlow, M.EnterBlock, M.LeaveBlock, M.Push;
      ghost var c := Conf();
      ghost var d := c;
      if first {
        M.EnteredBlock(c, false, M.BlockMappingKey);
        d := M.EnterBlock(c, false, M.BlockMappingKey);
        EnterBlock(false, M.BlockMappingKey);
      }
      if e.kind.MappingEnd? {
        LeaveBlock(d);
        return true;
      }
      var simple := CheckSimpleKey();
      if simple {
        ok := EmitMember(e, M.BlockMappingSimpleValue, true, d);
      } else {
        ok := EmitMember(e, M.BlockMappingValue, true, d);
      }
    }

    method EmitBlockMappingValue(e: M.Event) returns (ok: bool)
      requires M.Valid(Conf()) && eventsHead < |events| && e == events[eventsHead]
      requires (state.BlockMappingSimpleValue? || state.BlockMappingValue?)
      modifies `state, `states, `indent, `indents, `flowLevel, `mappingContext
      ensures Did(M.EmitBlockMappingValue(old(Conf()), e, EmptyAt(events, eventsHead)), ok)
    {
      hide M.Valid, M.EmitNode, EmptyAt, M.SimpleKey, M.EnterFlow, M.LeaveFlow, M.EnterBlock, M.LeaveBlock, M.Push;
      ok := EmitMember(e, M.BlockMappingKey, true, Conf());
    }

    method EmitStreamStart(e: M.Event) returns (ok: bool)
      requires state.StreamStart?
      modifies `state, `bestIndent, `indent
      ensures Did(M.EmitStreamStart(old(Conf()), e), ok)
    {
      if !e.kind.StreamStart? {
        return false;
      }
      if bestIndent < 2 || bestIndent > 9 {
        bestIndent := 2;
      }
      indent := -1;
      state := M.FirstDocumentStart;
      ok := true;
    }

    method EmitDocumentStart(e: M.Event) returns (ok: bool)
      modifies `state
      ensures Did(M.EmitDocumentStart(old(Conf()), e), ok)
    {
      if e.kind.DocumentStart? {
        state := M.DocumentContent;
        return true;
      }
      if e.kind.StreamEnd? {
        state := M.End;
        return true;
      }
      ok := false;
    }

    method EmitDocumentEnd(e: M.Event) returns (ok: bool)
      modifies `state
      ensures Did(M.EmitDocumentEnd(old(Conf()), e), ok)
    {
      if !e.kind.DocumentEnd? {
        return false;
      }
      state := M.DocumentStart;
      ok := true;
    }

    /** An event with acceptable content is processed if and only if the grammar takes its kind here. */
    method StateMachine(e: M.Event) returns (ok: bool)
      requires M.Valid(Conf()) && eventsHead < |events| && e == events[eventsHead] && e.valid
      modifies `state, `states, `bestIndent, `indent, `indents, `flowLevel, `mappingContext
      ensures Did(M.Step(old(Conf()), e, EmptyAt(events, eventsHead)), ok)
      ensures ok <==> G.Take(old(M.Nesting(Conf())), e.kind).Accept?
      ensures ok ==> M.Valid(Conf()) && G.Take(old(M.Nesting(Conf())), e.kind) == G.Accept(M.Nesting(Conf()))
      ensures ok && Opens(e.kind) ==>
        M.First(state)
        && (M.FlowFirst(state) <==> flowLevel > 0 || canonical || e.flow || Styles.NothingInside(events, eventsHead))
    {
      S.StepFollows(Conf(), e, EmptyAt(events, eventsHead));
      if M.Step(Conf(), e, EmptyAt(events, eventsHead)).Some? && Opens(e.kind) {
        Styles.StartStyle(Conf(), e, EmptyAt(events, eventsHead));
      }
      ok := Dispatch(e);
    }

    method Dispatch(e: M.Event) returns (ok: bool)
      requires M.Valid(Conf()) && eventsHead < |events| && e == events[eventsHead] && e.valid
      modifies `state, `states, `bestIndent, `indent, `indents, `flowLevel, `mappingContext
      ensures Did(M.Step(old(Conf()), e, EmptyAt(events, eventsHead)), ok)
    {
      hide M.Valid, EmptyAt, M.EmitDocumentContent, M.EmitFlowSequenceItem, M.EmitFlowMappingKey,
          M.EmitFlowMappingValue,
        M.EmitBlockSequenceItem, M.EmitBlockMappingKey, M.EmitBlockMappingValue, M.EmitStreamStart, M.EmitDocumentStart,
        M.EmitDocumentEnd;
      match state {
        case StreamStart => ok := EmitStreamStart(e);
        case FirstDocumentStart => ok := EmitDocumentStart(e);
        case DocumentStart => ok := EmitDocumentStart(e);
        case DocumentContent => ok := EmitDocumentContent(e);
        case DocumentEnd => ok := EmitDocumentEnd(e);
        case FlowSequenceFirstItem => ok := EmitFlowSequenceItem(e, true);
        case FlowSequenceItem => ok := EmitFlowSequenceItem(e, false);
        case FlowMappingFirstKey => ok := EmitFlowMappingKey(e, true);
        case FlowMappingKey => ok := EmitFlowMappingKey(e, false);
        case FlowMappingSimpleValue => ok := EmitFlowMappingValue(e);
        case FlowMappingValue => ok := EmitFlowMappingValue(e);
        case BlockSequenceFirstItem => ok := EmitBlockSequenceItem(e, true);
        case BlockSequenceItem => ok := EmitBlockSequenceItem(e, false);
        case BlockMappingFirstKey => ok := EmitBlockMappingKey(e, true);
        case BlockMappingKey => ok := EmitBlockMappingKey(e, false);
        case BlockMappingSimpleValue => ok := EmitBlockMappingValue(e);
        case BlockMappingValue => ok := EmitBlockMappingValue(e);
        case End => ok := false;
      }
    }

    // -------------------------------------------------------------- the queue

    ghost function Queue(): (ks: seq<G.Kind>)
      requires eventsHead <= |events|
      reads this
    {
      Kinds(events[eventsHead..])
    }

    /** All events before the head of the queue were processed, and the head is refused. */
    ghost predicate RefusedHead()
      reads this
    {
      && eventsHead < |given| && Run(Initial(canonical, asked), given, eventsHead).Some?
      && Run(Initial(canonical, asked), given, eventsHead + 1).None?
    }

    /** Processes the head of the queue and wipes it. */
    method Process() returns (ok: bool)
      requires Valid() && !NeedsMore(Queue())
      modifies this
      ensures given == old(given)
      ensures ok ==> Valid() && eventsHead == old(eventsHead) + 1
      ensures !ok ==> eventsHead == old(eventsHead) && RefusedHead()
    {
      hide M.Valid, M.Step, NeedsMore, Initial;
      ghost var head := eventsHead;
      QueueFacts(given, events, eventsHead);
      var e := events[eventsHead];
      ok := false;
      if e.valid {
        ok := StateMachine(e);
      } else {
        S.StepFollows(Conf(), e, EmptyAt(given, head));
      }
      if !ok {
        RunStep(Initial(canonical, asked), given, head + 1);
        return;
      }
      events := events[eventsHead := Deleted];
      eventsHead := eventsHead + 1;
    }

    /** Takes one event, and processes what need not wait. */
    method Emit(e: M.Event) returns (ok: bool)
      requires Valid()
      modifies this
      ensures given == old(given) + [e]
      ensures ok ==> Valid() && NeedsMore(Queue())
      ensures ok ==> Styles.Described(canonical, asked, given, eventsHead, Conf())
      ensures !ok ==> RefusedHead()
    {
      hide M.Valid, M.Step, NeedsMore, Initial, Run, Settled, Styles.Described;
      RunExtends(Initial(canonical, asked), given, [e], eventsHead);
      SettledExtends(given, e, eventsHead);
      assert (events + [e])[eventsHead..] == events[eventsHead..] + [e];
      assert (given + [e])[eventsHead..] == given[eventsHead..] + [e];
      events := events + [e];
      given := given + [e];
      var more := NeedMoreEvents();
      while !more
        invariant Valid() && given == old(given) + [e] && more == NeedsMore(Queue())
        decreases |given| - eventsHead
      {
        ok := Process();
        if !ok {
          return;
        }
        more := NeedMoreEvents();
      }
      Styles.RunDescribed(canonical, asked, given, eventsHead);
      ok := true;
    }
  }

  /** What a processed event leaves in its place. */
  const Deleted := M.Event(G.Atom, false, false, false, M.Sizes(0, 0, 0, 0, false), false)

  lemma SettledExtends(es: seq<M.Event>, e: M.Event, n: nat)
    requires n <= |es| && Settled(es, n)
    ensures Settled(es + [e], n)
  {
  }

  lemma QueueFacts(given: seq<M.Event>, events: seq<M.Event>, head: nat)
    requires head <= |events| == |given| && events[head..] == given[head..] && Settled(given, head)
    requires !NeedsMore(Kinds(events[head..]))
    ensures head < |given| && events[head] == given[head] && EmptyAt(events, head) == EmptyAt(given, head)
    ensures events[head + 1..] == given[head + 1..] && Settled(given, head + 1)
  {
    var ks := Kinds(events[head..]);
    assert ks != [];
    assert events[head] == events[head..][0] && given[head] == given[head..][0];
    if head + 1 < |events| {
      assert events[head + 1] == events[head..][1] && given[head + 1] == given[head..][1];
    }
    assert events[head + 1..] == events[head..][1..] && given[head + 1..] == given[head..][1..];
    if Opens(ks[0]) {
      NextIsKnown(ks);
    }
  }

  /**
   Gives all the events of a sequence in turn. Whatever they are, those processed are a prefix of a
   well-formed stream, and the first that is refused has unacceptable content or cannot go on from
   there. A well-formed stream with acceptable contents is processed to its end, leaving no state, no
   indentation level and no event behind.
   */
  method EmitAll(es: seq<M.Event>, canonical: bool, bestIndent: int) returns (ok: bool, emitter: Emitter)
    ensures emitter.eventsHead <= |es| && IsPrefix(Kinds(es)[..emitter.eventsHead])
    ensures !ok ==> emitter.eventsHead < |es|
    ensures !ok ==> !es[emitter.eventsHead].valid || !IsPrefix(Kinds(es)[..emitter.eventsHead + 1])
    ensures ok ==> Styles.Described(canonical, bestIndent, es, emitter.eventsHead, emitter.Conf())
    ensures Complete(es) ==>
      && ok && emitter.eventsHead == |es| && emitter.state.End?
      && emitter.states == [] && emitter.indents == [] && emitter.flowLevel == 0
  {
    hide M.Valid, NeedsMore, Initial, Run, Settled, IsPrefix, Kinds, Complete, Styles.Described;
    emitter := new Emitter(canonical, bestIndent);
    EmptyQueueWaits(emitter.events[emitter.eventsHead..]);
    var i := 0;
    while i < |es|
      invariant fresh(emitter) && i <= |es| && emitter.Valid() && emitter.given == es[..i]
      invariant emitter.asked == bestIndent && emitter.canonical == canonical
      invariant NeedsMore(emitter.Queue())
    {
      assert es[..i + 1] == es[..i] + [es[i]];
      ok := emitter.Emit(es[i]);
      i := i + 1;
      if !ok {
        RefusedIsNoPrefix(canonical, bestIndent, es, i, emitter.eventsHead);
        return;
      }
    }
    assert es[..i] == es;
    ProcessedIsPrefix(canonical, bestIndent, es, emitter.eventsHead);
    Styles.RunDescribed(canonical, bestIndent, es, emitter.eventsHead);
    if Complete(es) {
      CompleteEnds(canonical, bestIndent, es, emitter.eventsHead, emitter.events[emitter.eventsHead..]);
    }
    ok := true;
  }

  lemma EmptyQueueWaits(queue: seq<M.Event>)
    requires queue == []
    ensures NeedsMore(Kinds(queue))
  {
  }

  /** An event refused among the first `i` is the first that is unacceptable or cannot go on. */
  lemma RefusedIsNoPrefix(canonical: bool, bestIndent: int, es: seq<M.Event>, i: nat, n: nat)
    requires n < i <= |es|
    requires Run(Initial(canonical, bestIndent), es[..i], n).Some?
    requires Run(Initial(canonical, bestIndent), es[..i], n + 1).None?
    ensures IsPrefix(Kinds(es)[..n]) && !Complete(es)
    ensures !es[n].valid || !IsPrefix(Kinds(es)[..n + 1])
  {
    hide Initial, Run;
    var given := es[..i];
    assert Kinds(given)[..n] == Kinds(es)[..n] && Kinds(given)[..n + 1] == Kinds(es)[..n + 1];
    ProcessedIsPrefix(canonical, bestIndent, given, n);
    RefusedIff(canonical, bestIndent, given, n);
    if Complete(es) {
      CompleteHasPrefixes(es, n);
    }
  }

  lemma CompleteEnds(canonical: bool, bestIndent: int, es: seq<M.Event>, n: nat, queue: seq<M.Event>)
    requires Complete(es) && n <= |es| && queue == es[n..] && NeedsMore(Kinds(queue))
    requires Run(Initial(canonical, bestIndent), es, n).Some?
    ensures n == |es|
    ensures var c := Run(Initial(canonical, bestIndent), es, n).value;
      c.state.End? && c.states == [] && c.indents == [] && c.flowLevel == 0
  {
    hide NeedsMore, Run, Initial;
    var docs :| Kinds(es) == G.StreamKinds(docs);
    assert Kinds(queue) == Kinds(es)[n..];
    CompleteIsDone(canonical, bestIndent, es, n, docs);
  }
}
