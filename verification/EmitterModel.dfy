/**
 The emitter's state machine over events. What is written is left to the writers; an event
 carries what their checks decide: whether its anchor, tag, directives and flags are
 acceptable, which style it asks for, the lengths that decide on a simple key, and whether
 only indentation has been written on the current line when it is processed.
 */
module EmitterModel {
  import opened Options
  import G = EventGrammar

  /** The lengths of the analysed texts of an event. */
  datatype Sizes = Sizes(anchor: nat, handle: nat, suffix: nat, value: nat, multiline: bool)

  datatype Event = Event(kind: G.Kind, alias: bool, valid: bool, flow: bool, sizes: Sizes, indention: bool)

  datatype State =
    | StreamStart | FirstDocumentStart | DocumentStart | DocumentContent | DocumentEnd
    | FlowSequenceFirstItem | FlowSequenceItem
    | FlowMappingFirstKey | FlowMappingKey | FlowMappingSimpleValue | FlowMappingValue
    | BlockSequenceFirstItem | BlockSequenceItem
    | BlockMappingFirstKey | BlockMappingKey | BlockMappingSimpleValue | BlockMappingValue
    | End

  datatype Config = Config(
    canonical: bool, bestIndent: int, state: State, states: seq<State>,
    indent: int, indents: seq<int>, flowLevel: int, mappingContext: bool)

  // ---------------------------------------------------------------- what a state is waiting for

  predicate Outer(s: State) {
    s.StreamStart? || s.FirstDocumentStart? || s.DocumentStart? || s.DocumentContent? || s.DocumentEnd? || s.End?
  }

  predicate First(s: State) {
    s.FlowSequenceFirstItem? || s.FlowMappingFirstKey? || s.BlockSequenceFirstItem? || s.BlockMappingFirstKey?
  }

  /** A state inside a collection that has been entered. */
  predicate Inside(s: State) {
    !Outer(s) && !First(s)
  }

  predicate Flow(s: State) {
    s.FlowSequenceItem? || s.FlowMappingKey? || s.FlowMappingSimpleValue? || s.FlowMappingValue?
  }

  predicate FlowFirst(s: State) {
    s.FlowSequenceFirstItem? || s.FlowMappingFirstKey?
  }

  const AfterDocument := G.Then(G.Documents, G.Nothing)

  function Needs(s: State, below: G.Needs): G.Needs {
    match s
    case StreamStart => G.Then(G.Stream, G.Nothing)
    case FirstDocumentStart => AfterDocument
    case DocumentStart => AfterDocument
    case DocumentContent => G.Then(G.Root, G.Then(G.RootEnd, AfterDocument))
    case DocumentEnd => G.Then(G.RootEnd, AfterDocument)
    case End => G.Nothing
    case FlowSequenceFirstItem => G.Then(G.ItemOrEnd, below)
    case FlowSequenceItem => G.Then(G.ItemOrEnd, below)
    case BlockSequenceFirstItem => G.Then(G.ItemOrEnd, below)
    case BlockSequenceItem => G.Then(G.ItemOrEnd, below)
    case FlowMappingFirstKey => G.Then(G.KeyOrEnd, below)
    case FlowMappingKey => G.Then(G.KeyOrEnd, below)
    case BlockMappingFirstKey => G.Then(G.KeyOrEnd, below)
    case BlockMappingKey => G.Then(G.KeyOrEnd, below)
    case _ => G.Then(G.Value, below)
  }

  function Below(states: seq<State>): G.Needs {
    if states == [] then G.Nothing else Needs(states[|states| - 1], Below(states[..|states| - 1]))
  }

  function Nesting(c: Config): G.Needs {
    Needs(c.state, Below(c.states))
  }

  // ---------------------------------------------------------------- invariant

  predicate ValidStack(states: seq<State>) {
    && states != [] && states[0] == DocumentEnd
    && forall i :: 0 < i < |states| ==> Inside(states[i])
  }

  /** How many of the stacked collections are in flow style. */
  function FlowDepth(states: seq<State>): (n: nat) {
    if states == [] then 0
    else FlowDepth(states[..|states| - 1]) + if Flow(states[|states| - 1]) then 1 else 0
  }

  /** Inside a flow collection everything is in flow style. */
  predicate FlowOnly(states: seq<State>) {
    forall i, j :: 0 <= i < j < |states| && Flow(states[i]) ==> Flow(states[j])
  }

  /** The levels start below zero, where no collection is open. */
  predicate IndentsFrom(indents: seq<int>, indent: int) {
    && indent >= -1 && (forall i :: 0 <= i < |indents| ==> indents[i] >= -1)
    && (if indents == [] then indent else indents[0]) == -1
  }

  /** The stacks fit the state: levels of indentation and of flow are those of the open collections. */
  predicate Valid(c: Config) {
    if c.state.StreamStart? then
      c.states == [] && c.indents == [] && c.flowLevel == 0
    else if Outer(c.state) then
      2 <= c.bestIndent <= 9 && c.states == [] && c.indents == [] && c.indent == -1 && c.flowLevel == 0
    else
      && 2 <= c.bestIndent <= 9 && IndentsFrom(c.indents, c.indent)
      && ValidStack(c.states) && FlowOnly(c.states)
      && |c.indents| == |c.states| - 1 + (if First(c.state) then 0 else 1)
      && c.flowLevel == FlowDepth(c.states) + (if Flow(c.state) then 1 else 0)
      && (FlowDepth(c.states) > 0 ==> Flow(c.state) || FlowFirst(c.state))
  }

  /** A node may be emitted: the state to return to is on top. */
  predicate NodeReady(c: Config) {
    && 2 <= c.bestIndent <= 9 && IndentsFrom(c.indents, c.indent)
    && ValidStack(c.states) && FlowOnly(c.states)
    && |c.indents| == |c.states| - 1 && c.flowLevel == FlowDepth(c.states)
  }

  // ---------------------------------------------------------------- moves

  function Push(c: Config, s: State): Config {
    c.(states := c.states + [s])
  }

  function Pop(c: Config): Config
    requires c.states != []
  {
    c.(state := c.states[|c.states| - 1], states := c.states[..|c.states| - 1])
  }

  function IncreaseIndent(c: Config, flow: bool, indentless: bool): Config {
    c.(indents := c.indents + [c.indent],
       indent := if c.indent < 0 then (if flow then c.bestIndent else 0)
                 else if indentless then c.indent else c.indent + c.bestIndent)
  }

  function PopIndent(c: Config): Config
    requires c.indents != []
  {
    c.(indent := c.indents[|c.indents| - 1], indents := c.indents[..|c.indents| - 1])
  }

  // ---------------------------------------------------------------- events

  /** Whether the next event ends the collection that `k` starts. */
  predicate Closes(k: G.Kind, next: G.Kind) {
    (k.SequenceStart? && next.SequenceEnd?) || (k.MappingStart? && next.MappingEnd?)
  }

  const MAX_SIMPLE_KEY: nat := 128

  /** How much of the line a node takes: an alias has no tag, and only a scalar has a value. */
  function LineLength(e: Event): nat {
    e.sizes.anchor + (if e.kind.Atom? && e.alias then 0
                      else e.sizes.handle + e.sizes.suffix + if e.kind.Atom? then e.sizes.value else 0)
  }

  /** A node that fits on the line of its key: short, in one line, and with nothing inside. */
  predicate SimpleKey(e: Event, empty: bool) {
    && G.StartsNode(e.kind) && LineLength(e) <= MAX_SIMPLE_KEY
    && if e.kind.Atom? then e.alias || !e.sizes.multiline else empty
  }

  function EmitNode(c: Config, e: Event, empty: bool, mapping: bool): Option<Config>
    requires NodeReady(c)
  {
    var d := c.(mappingContext := mapping);
    if e.kind.Atom? then
      Some(Pop(d))
    else if e.kind.SequenceStart? then
      var flow := c.flowLevel > 0 || c.canonical || e.flow || empty;
      Some(d.(state := if flow then FlowSequenceFirstItem else BlockSequenceFirstItem))
    else if e.kind.MappingStart? then
      var flow := c.flowLevel > 0 || c.canonical || e.flow || empty;
      Some(d.(state := if flow then FlowMappingFirstKey else BlockMappingFirstKey))
    else None
  }

  function EmitStreamStart(c: Config, e: Event): Option<Config> {
    if !e.kind.StreamStart? then None
    else Some(c.(bestIndent := if c.bestIndent < 2 || c.bestIndent > 9 then 2 else c.bestIndent,
                 indent := -1, state := FirstDocumentStart))
  }

  function EmitDocumentStart(c: Config, e: Event): Option<Config> {
    if e.kind.DocumentStart? then Some(c.(state := DocumentContent))
    else if e.kind.StreamEnd? then Some(c.(state := End))
    else None
  }

  function EmitDocumentEnd(c: Config, e: Event): Option<Config> {
    if !e.kind.DocumentEnd? then None else Some(c.(state := DocumentStart))
  }

  /** Entering a flow collection. */
  function EnterFlow(c: Config, s: State): Config {
    IncreaseIndent(c, true, false).(flowLevel := c.flowLevel + 1, state := s)
  }

  function LeaveFlow(c: Config): Config
    requires c.indents != [] && c.states != []
  {
    Pop(PopIndent(c).(flowLevel := c.flowLevel - 1))
  }

  function EnterBlock(c: Config, indentless: bool, s: State): Config {
    IncreaseIndent(c, false, indentless).(state := s)
  }

  function LeaveBlock(c: Config): Config
    requires c.indents != [] && c.states != []
  {
    Pop(PopIndent(c))
  }

  /** A collection state after the collection has been entered. */
  predicate Entered(c: Config, s: State) {
    Valid(c) && c.state == s && Inside(s)
  }

  lemma ReadyAfterPush(c: Config, s: State)
    requires Valid(c) && Inside(c.state) && Inside(s) && Flow(c.state) == Flow(s)
    ensures NodeReady(Push(c, s))
  {
    var states := c.states + [s];
    assert states[..|states| - 1] == c.states;
    FlowOnlyPush(c.states, s);
  }

  lemma {:induction false} FlowDepthZero(states: seq<State>)
    ensures FlowDepth(states) == 0 <==> forall i :: 0 <= i < |states| ==> !Flow(states[i])
  {
    if states != [] {
      FlowDepthZero(states[..|states| - 1]);
    }
  }

  lemma FlowOnlyPush(states: seq<State>, s: State)
    requires FlowOnly(states) && (FlowDepth(states) > 0 ==> Flow(s))
    ensures FlowOnly(states + [s])
  {
    FlowDepthZero(states);
  }

  lemma EnteredFlow(c: Config, s: State)
    requires Valid(c) && FlowFirst(c.state) && Inside(s) && Flow(s)
    ensures Entered(EnterFlow(c, s), s)
  {
  }

  lemma EnteredBlock(c: Config, indentless: bool, s: State)
    requires Valid(c) && First(c.state) && !FlowFirst(c.state) && Inside(s) && !Flow(s)
    ensures Entered(EnterBlock(c, indentless, s), s)
  {
  }

  function EmitDocumentContent(c: Config, e: Event, empty: bool): Option<Config>
    requires Valid(c) && c.state.DocumentContent?
  {
    EmitNode(Push(c, DocumentEnd), e, empty, false)
  }

  function EmitFlowSequenceItem(c: Config, e: Event, empty: bool): Option<Config>
    requires Valid(c) && (c.state.FlowSequenceFirstItem? || c.state.FlowSequenceItem?)
  {
    var d :=
      if c.state.FlowSequenceFirstItem? then EnteredFlow(c, FlowSequenceItem); EnterFlow(c, FlowSequenceItem) else c;
    if e.kind.SequenceEnd? then Some(LeaveFlow(d))
    else
      ReadyAfterPush(d, FlowSequenceItem);
      EmitNode(Push(d, FlowSequenceItem), e, empty, false)
  }

  function EmitFlowMappingKey(c: Config, e: Event, empty: bool): Option<Config>
    requires Valid(c) && (c.state.FlowMappingFirstKey? || c.state.FlowMappingKey?)
  {
    var d := if c.state.FlowMappingFirstKey? then EnteredFlow(c, FlowMappingKey); EnterFlow(c, FlowMappingKey) else c;
    if e.kind.MappingEnd? then Some(LeaveFlow(d))
    else if !c.canonical && SimpleKey(e, empty) then
      ReadyAfterPush(d, FlowMappingSimpleValue);
      EmitNode(Push(d, FlowMappingSimpleValue), e, empty, true)
    else
      ReadyAfterPush(d, FlowMappingValue);
      EmitNode(Push(d, FlowMappingValue), e, empty, true)
  }

  function EmitFlowMappingValue(c: Config, e: Event, empty: bool): Option<Config>
    requires Valid(c) && (c.state.FlowMappingSimpleValue? || c.state.FlowMappingValue?)
  {
    ReadyAfterPush(c, FlowMappingKey);
    EmitNode(Push(c, FlowMappingKey), e, empty, true)
  }

  function EmitBlockSequenceItem(c: Config, e: Event, empty: bool): Option<Config>
    requires Valid(c) && (c.state.BlockSequenceFirstItem? || c.state.BlockSequenceItem?)
  {
    var indentless := c.mappingContext && !e.indention;
    var d :=
      if c.state.BlockSequenceFirstItem? then
        EnteredBlock(c, indentless, BlockSequenceItem);
        EnterBlock(c, indentless, BlockSequenceItem)
      else c;
    if e.kind.SequenceEnd? then Some(LeaveBlock(d))
    else
      ReadyAfterPush(d, BlockSequenceItem);
      EmitNode(Push(d, BlockSequenceItem), e, empty, false)
  }

  function EmitBlockMappingKey(c: Config, e: Event, empty: bool): Option<Config>
    requires Valid(c) && (c.state.BlockMappingFirstKey? || c.state.BlockMappingKey?)
  {
    var d :=
      if c.state.BlockMappingFirstKey? then
        EnteredBlock(c, false, BlockMappingKey);
        EnterBlock(c, false, BlockMappingKey)
      else c;
    if e.kind.MappingEnd? then Some(LeaveBlock(d))
    else if SimpleKey(e, empty) then
      ReadyAfterPush(d, BlockMappingSimpleValue);
      EmitNode(Push(d, BlockMappingSimpleValue), e, empty, true)
    else
      ReadyAfterPush(d, BlockMappingValue);
      EmitNode(Push(d, BlockMappingValue), e, empty, true)
  }

  function EmitBlockMappingValue(c: Config, e: Event, empty: bool): Option<Config>
    requires Valid(c) && (c.state.BlockMappingSimpleValue? || c.state.BlockMappingValue?)
  {
    ReadyAfterPush(c, BlockMappingKey);
    EmitNode(Push(c, BlockMappingKey), e, empty, true)
  }

  /** One event; `empty` says that the next event ends the collection this one starts. */
  function Step(c: Config, e: Event, empty: bool): Option<Config>
    requires Valid(c)
  {
    if !e.valid then None
    else
      match c.state
      case StreamStart => EmitStreamStart(c, e)
      case FirstDocumentStart => EmitDocumentStart(c, e)
      case DocumentStart => EmitDocumentStart(c, e)
      case DocumentContent => EmitDocumentContent(c, e, empty)
      case DocumentEnd => EmitDocumentEnd(c, e)
      case FlowSequenceFirstItem => EmitFlowSequenceItem(c, e, empty)
      case FlowSequenceItem => EmitFlowSequenceItem(c, e, empty)
      case FlowMappingFirstKey => EmitFlowMappingKey(c, e, empty)
      case FlowMappingKey => EmitFlowMappingKey(c, e, empty)
      case FlowMappingSimpleValue => EmitFlowMappingValue(c, e, empty)
      case FlowMappingValue => EmitFlowMappingValue(c, e, empty)
      case BlockSequenceFirstItem => EmitBlockSequenceItem(c, e, empty)
      case BlockSequenceItem => EmitBlockSequenceItem(c, e, empty)
      case BlockMappingFirstKey => EmitBlockMappingKey(c, e, empty)
      case BlockMappingKey => EmitBlockMappingKey(c, e, empty)
      case BlockMappingSimpleValue => EmitBlockMappingValue(c, e, empty)
      case BlockMappingValue => EmitBlockMappingValue(c, e, empty)
      case End => None
  }
}
