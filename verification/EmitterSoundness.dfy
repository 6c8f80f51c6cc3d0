/** The emitter takes an event exactly when the event grammar does, and its stacks always fit. */
module EmitterSoundness {
  import opened Options
  import G = EventGrammar
  import opened EmitterModel

  /** A step keeps the stacks in order, and succeeds exactly where the grammar goes on. */
  ghost predicate Follows(c: Config, e: Event, r: Option<Config>) {
    && (r.Some? ==> Valid(r.value) && G.Take(Nesting(c), e.kind) == G.Accept(Nesting(r.value)))
    && (r.None? ==> G.Take(Nesting(c), e.kind).Reject?)
  }

  /** Popping the top state, whatever has been done above it. */
  lemma PopNesting(c: Config)
    requires c.states != []
    ensures Nesting(Pop(c)) == Below(c.states)
  {
  }

  lemma PopValid(c: Config)
    requires NodeReady(c)
    ensures Valid(Pop(c))
  {
    var n := |c.states| - 1;
    var rest := c.states[..n];
    if n > 0 {
      FlowDepthZero(rest);
      assert FlowDepth(rest) > 0 ==> Flow(c.states[n]);
    }
  }

  /** Emitting a node replaces the state, so it does not matter what it was. */
  lemma NodeIgnoresState(c: Config, s: State, e: Event, empty: bool, mapping: bool)
    requires NodeReady(c)
    ensures NodeReady(c.(state := s)) && EmitNode(c.(state := s), e, empty, mapping) == EmitNode(c, e, empty, mapping)
  {
  }

  lemma FirstValid(c: Config, s: State)
    requires NodeReady(c) && First(s) && (c.flowLevel > 0 ==> FlowFirst(s))
    ensures Valid(c.(state := s))
  {
  }

  lemma NodeFollows(c: Config, e: Event, empty: bool, mapping: bool)
    requires NodeReady(c)
    ensures var r := EmitNode(c, e, empty, mapping);
      && (r.Some? <==> G.StartsNode(e.kind))
      && (r.Some? ==> Valid(r.value) && Nesting(r.value) == G.BeginNode(e.kind, Below(c.states)))
  {
    hide ValidStack, FlowOnly, FlowDepth, IndentsFrom, Below, Valid;
    var d := c.(mappingContext := mapping);
    PopValid(d);
    PopNesting(d);
    FirstValid(d, FlowSequenceFirstItem);
    FirstValid(d, FlowMappingFirstKey);
    if c.flowLevel <= 0 {
      FirstValid(d, BlockSequenceFirstItem);
      FirstValid(d, BlockMappingFirstKey);
    }
  }

  lemma ContentReady(c: Config)
    requires Valid(c) && c.state.DocumentContent?
    ensures NodeReady(Push(c, DocumentEnd))
    ensures Below(Push(c, DocumentEnd).states) == G.Then(G.RootEnd, AfterDocument)
  {
    var d := Push(c, DocumentEnd);
    assert d.states == [DocumentEnd] && d.states[..0] == [];
    assert FlowDepth(d.states) == 0;
  }

  lemma ContentFollows(c: Config, e: Event, empty: bool)
    requires Valid(c) && c.state.DocumentContent?
    ensures Follows(c, e, EmitDocumentContent(c, e, empty))
  {
    hide EmitNode, Valid, Below;
    ContentReady(c);
    NodeFollows(Push(c, DocumentEnd), e, empty, false);
  }

  /** The node that goes into a collection: what comes after it is what was pushed. */
  lemma MemberFollows(c: Config, s: State, e: Event, empty: bool, mapping: bool)
    requires Valid(c) && Inside(c.state) && Inside(s) && Flow(c.state) == Flow(s)
    requires var needs := Nesting(c);
      needs.Then? && G.WantsNode(needs) && G.AfterNode(needs) == Needs(s, Below(c.states))
    ensures NodeReady(Push(c, s))
    ensures var r := EmitNode(Push(c, s), e, empty, mapping);
      && (r.Some? <==> G.StartsNode(e.kind))
      && (r.Some? ==> Valid(r.value) && G.Take(Nesting(c), e.kind) == G.Accept(Nesting(r.value)))
  {
    hide ValidStack, FlowOnly, FlowDepth, IndentsFrom, EmitNode, Valid, G.Take;
    ReadyAfterPush(c, s);
    NodeFollows(Push(c, s), e, empty, mapping);
    assert (c.states + [s])[..|c.states|] == c.states;
    if G.StartsNode(e.kind) {
      G.TakeNodeStart(Nesting(c), e.kind);
    }
  }

  lemma LeaveFlowFollows(c: Config)
    requires Valid(c) && Flow(c.state)
    ensures Valid(LeaveFlow(c)) && Nesting(LeaveFlow(c)) == Below(c.states)
  {
    var d := PopIndent(c).(flowLevel := c.flowLevel - 1);
    assert NodeReady(d);
    PopValid(d);
    PopNesting(d);
  }

  lemma LeaveBlockFollows(c: Config)
    requires Valid(c) && Inside(c.state) && !Flow(c.state)
    ensures Valid(LeaveBlock(c)) && Nesting(LeaveBlock(c)) == Below(c.states)
  {
    var d := PopIndent(c);
    assert NodeReady(d);
    PopValid(d);
    PopNesting(d);
  }

  lemma FlowSequenceInside(c: Config, e: Event, empty: bool)
    requires Valid(c) && c.state.FlowSequenceItem?
    ensures Follows(c, e, EmitFlowSequenceItem(c, e, empty))
  {
    hide EmitNode, Valid, Below;
    if e.kind.SequenceEnd? {
      LeaveFlowFollows(c);
    } else {
      MemberFollows(c, FlowSequenceItem, e, empty, false);
    }
  }

  lemma FlowSequenceFollows(c: Config, e: Event, empty: bool)
    requires Valid(c) && (c.state.FlowSequenceFirstItem? || c.state.FlowSequenceItem?)
    ensures Follows(c, e, EmitFlowSequenceItem(c, e, empty))
  {
    hide EmitNode, Valid, Below, G.Take;
    if c.state.FlowSequenceFirstItem? {
      EnteredFlow(c, FlowSequenceItem);
      FlowSequenceInside(EnterFlow(c, FlowSequenceItem), e, empty);
    } else {
      FlowSequenceInside(c, e, empty);
    }
  }

  lemma FlowMappingKeyInside(c: Config, e: Event, empty: bool)
    requires Valid(c) && c.state.FlowMappingKey?
    ensures Follows(c, e, EmitFlowMappingKey(c, e, empty))
  {
    hide EmitNode, Valid, Below;
    if e.kind.MappingEnd? {
      LeaveFlowFollows(c);
    } else {
      MemberFollows(c, FlowMappingSimpleValue, e, empty, true);
      MemberFollows(c, FlowMappingValue, e, empty, true);
    }
  }

  lemma FlowMappingKeyFollows(c: Config, e: Event, empty: bool)
    requires Valid(c) && (c.state.FlowMappingFirstKey? || c.state.FlowMappingKey?)
    ensures Follows(c, e, EmitFlowMappingKey(c, e, empty))
  {
    hide EmitNode, Valid, Below, G.Take;
    if c.state.FlowMappingFirstKey? {
      EnteredFlow(c, FlowMappingKey);
      FlowMappingKeyInside(EnterFlow(c, FlowMappingKey), e, empty);
    } else {
      FlowMappingKeyInside(c, e, empty);
    }
  }

  lemma BlockSequenceInside(c: Config, e: Event, empty: bool)
    requires Valid(c) && c.state.BlockSequenceItem?
    ensures Follows(c, e, EmitBlockSequenceItem(c, e, empty))
  {
    hide EmitNode, Valid, Below;
    if e.kind.SequenceEnd? {
      LeaveBlockFollows(c);
    } else {
      MemberFollows(c, BlockSequenceItem, e, empty, false);
    }
  }

  lemma BlockSequenceFollows(c: Config, e: Event, empty: bool)
    requires Valid(c) && (c.state.BlockSequenceFirstItem? || c.state.BlockSequenceItem?)
    ensures Follows(c, e, EmitBlockSequenceItem(c, e, empty))
  {
    hide EmitNode, Valid, Below, G.Take;
    if c.state.BlockSequenceFirstItem? {
      EnteredBlock(c, c.mappingContext && !e.indention, BlockSequenceItem);
      BlockSequenceInside(EnterBlock(c, c.mappingContext && !e.indention, BlockSequenceItem), e, empty);
    } else {
      BlockSequenceInside(c, e, empty);
    }
  }

  lemma BlockMappingKeyInside(c: Config, e: Event, empty: bool)
    requires Valid(c) && c.state.BlockMappingKey?
    ensures Follows(c, e, EmitBlockMappingKey(c, e, empty))
  {
    hide EmitNode, Valid, Below;
    if e.kind.MappingEnd? {
      LeaveBlockFollows(c);
    } else {
      MemberFollows(c, BlockMappingSimpleValue, e, empty, true);
      MemberFollows(c, BlockMappingValue, e, empty, true);
    }
  }

  lemma BlockMappingKeyFollows(c: Config, e: Event, empty: bool)
    requires Valid(c) && (c.state.BlockMappingFirstKey? || c.state.BlockMappingKey?)
    ensures Follows(c, e, EmitBlockMappingKey(c, e, empty))
  {
    hide EmitNode, Valid, Below, G.Take;
    if c.state.BlockMappingFirstKey? {
      EnteredBlock(c, false, BlockMappingKey);
      BlockMappingKeyInside(EnterBlock(c, false, BlockMappingKey), e, empty);
    } else {
      BlockMappingKeyInside(c, e, empty);
    }
  }

  lemma ValuesFollow(c: Config, e: Event, empty: bool)
    requires Valid(c)
    ensures c.state.FlowMappingSimpleValue? || c.state.FlowMappingValue? ==>
      Follows(c, e, EmitFlowMappingValue(c, e, empty))
    ensures c.state.BlockMappingSimpleValue? || c.state.BlockMappingValue? ==>
      Follows(c, e, EmitBlockMappingValue(c, e, empty))
  {
    hide EmitNode, Valid, Below;
    if c.state.FlowMappingSimpleValue? || c.state.FlowMappingValue? {
      MemberFollows(c, FlowMappingKey, e, empty, true);
    }
    if c.state.BlockMappingSimpleValue? || c.state.BlockMappingValue? {
      MemberFollows(c, BlockMappingKey, e, empty, true);
    }
  }

  lemma OuterFollows(c: Config, e: Event)
    requires Valid(c)
    ensures c.state.StreamStart? ==> Follows(c, e, EmitStreamStart(c, e))
    ensures c.state.FirstDocumentStart? || c.state.DocumentStart? ==> Follows(c, e, EmitDocumentStart(c, e))
    ensures c.state.DocumentEnd? ==> Follows(c, e, EmitDocumentEnd(c, e))
    ensures c.state.End? ==> Follows(c, e, None)
  {
  }

  /** Every event with acceptable content is taken exactly when the grammar takes its kind. */
  lemma StepFollows(c: Config, e: Event, empty: bool)
    requires Valid(c)
    ensures e.valid ==> Follows(c, e, Step(c, e, empty))
    ensures !e.valid ==> Step(c, e, empty).None?
  {
    hide Follows, EmitNode, EmitDocumentContent, EmitFlowSequenceItem, EmitFlowMappingKey, EmitFlowMappingValue,
      EmitBlockSequenceItem, EmitBlockMappingKey, EmitBlockMappingValue, EmitStreamStart, EmitDocumentStart,
          EmitDocumentEnd,
      Valid, Below;
    match c.state
    case DocumentContent => ContentFollows(c, e, empty);
    case FlowSequenceFirstItem => FlowSequenceFollows(c, e, empty);
    case FlowSequenceItem => FlowSequenceFollows(c, e, empty);
    case FlowMappingFirstKey => FlowMappingKeyFollows(c, e, empty);
    case FlowMappingKey => FlowMappingKeyFollows(c, e, empty);
    case BlockSequenceFirstItem => BlockSequenceFollows(c, e, empty);
    case BlockSequenceItem => BlockSequenceFollows(c, e, empty);
    case BlockMappingFirstKey => BlockMappingKeyFollows(c, e, empty);
    case BlockMappingKey => BlockMappingKeyFollows(c, e, empty);
    case _ =>
      ValuesFollow(c, e, empty);
      OuterFollows(c, e);
  }
}
