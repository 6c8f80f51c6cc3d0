/**
 Over any token stream, the parser's events are a prefix of a well-nested stream, and no
 production pops an empty stack or reads a token that is not there.
 */
module ParserSoundness {
  import G = EventGrammar
  import opened ParserModel

  /** The grammar's automaton follows the parser over one event. */
  ghost predicate Follows(c: Config, r: Result) {
    r.Emit? ==> Valid(r.next) && G.Take(Nesting(c), KindOf(r.event)) == G.Accept(Nesting(r.next))
  }

  lemma NodeFollows(c: Config, block: bool, indentless: bool)
    requires NodeReady(c)
    ensures var r := ParseNode(c, block, indentless);
            r.Emit? ==> && Valid(r.next) && G.StartsNode(KindOf(r.event))
                        && Nesting(r.next) == G.BeginNode(KindOf(r.event), Below(c.states))
  {
    hide MarkedBelow, ValidStack, ResolveTag;
  }

  lemma DocumentStartFollows(c: Config, implicit: bool)
    requires Valid(c) && (c.state.ImplicitDocumentStart? || c.state.DocumentStart?)
    ensures Follows(c, ParseDocumentStart(c, implicit))
  {
    hide ReadDirectives, SkipDocumentEnds, G.Take;
    assert [DocumentEnd][..0] == [];
    var r := ParseDocumentStart(c, implicit);
    if r.Emit? && r.event.EDocumentStart? {
      assert r.next.states == [DocumentEnd];
      assert Below(r.next.states) == Needs(DocumentEnd, Below([]));
    }
    TakeDocuments(KindOf(EStreamEnd), Below([]));
    TakeDocuments(KindOf(EDocumentStart(false, [])), Below([]));
  }

  lemma TakeDocuments(k: G.Kind, below: G.Needs)
    requires k.StreamEnd? || k.DocumentStart?
    ensures G.Take(G.Then(G.Documents, below), k)
         == G.Accept(if k.StreamEnd? then below else G.Then(G.Root, G.Then(G.RootEnd, G.Then(G.Documents, below))))
  {
  }

  lemma BlockSequenceFollows(c: Config, first: bool)
    requires Valid(c) && c.state == if first then BlockSequenceFirstEntry else BlockSequenceEntry
    ensures Follows(c, ParseBlockSequenceEntry(c, first))
  {
    hide ParseNode, MarkedBelow, ValidStack, Below;
    var d := if first then Enter(c, BlockSequenceEntry) else c;
    if |d.toks| > 1 && d.toks[0].TBlockEntry? {
      NodeFollows(Push(Skip(d), BlockSequenceEntry), true, false);
    }
  }

  lemma BlockMappingKeyFollows(c: Config, first: bool)
    requires Valid(c) && c.state == if first then BlockMappingFirstKey else BlockMappingKey
    ensures Follows(c, ParseBlockMappingKey(c, first))
  {
    hide ParseNode, MarkedBelow, ValidStack, Below;
    var d := if first then Enter(c, BlockMappingKey) else c;
    if |d.toks| > 1 && d.toks[0].TKey? {
      NodeFollows(Push(Skip(d), BlockMappingValue), true, true);
    }
  }

  lemma IndentlessFollows(c: Config)
    requires Valid(c) && c.state.IndentlessSequenceEntry?
    ensures Follows(c, ParseIndentlessSequenceEntry(c))
  {
    hide ParseNode, MarkedBelow, ValidStack, Below;
    if c.toks != [] {
      NodeFollows(Push(Skip(c), IndentlessSequenceEntry), true, false);
    }
  }

  lemma BlockMappingValueFollows(c: Config)
    requires Valid(c) && c.state.BlockMappingValue?
    ensures Follows(c, ParseBlockMappingValue(c))
  {
    hide ParseNode, MarkedBelow, ValidStack, Below;
    if c.toks != [] {
      NodeFollows(Push(Skip(c), BlockMappingKey), true, true);
    }
  }

  lemma FlowSequenceFollows(c: Config, first: bool)
    requires Valid(c) && c.state == if first then FlowSequenceFirstEntry else FlowSequenceEntry
    ensures Follows(c, ParseFlowSequenceEntry(c, first))
  {
    hide FlowSequenceItem, MarkedBelow, ValidStack, Below;
    var d := if first then Enter(c, FlowSequenceEntry) else c;
    if d.toks != [] {
      FlowSequenceItemFollows(if !first && d.toks[0].TFlowEntry? then Skip(d) else d);
    }
  }

  lemma FlowSequenceItemFollows(c: Config)
    requires Valid(c) && c.state.FlowSequenceEntry?
    ensures Follows(c, FlowSequenceItem(c))
  {
    hide ParseNode, MarkedBelow, ValidStack, Below;
    NodeFollows(Push(c, FlowSequenceEntry), false, false);
  }

  lemma FlowPairFollows(c: Config)
    requires Valid(c)
    ensures c.state.FlowSequenceEntryMappingKey? ==> Follows(c, ParseFlowSequenceEntryMappingKey(c))
    ensures c.state.FlowSequenceEntryMappingValue? ==> Follows(c, ParseFlowSequenceEntryMappingValue(c))
    ensures c.state.FlowSequenceEntryMappingEnd? ==> Follows(c, ParseFlowSequenceEntryMappingEnd(c))
  {
    hide ParseNode, MarkedBelow, ValidStack, Below;
    if c.state.FlowSequenceEntryMappingKey? {
      NodeFollows(Push(c, FlowSequenceEntryMappingValue), false, false);
    }
    if c.state.FlowSequenceEntryMappingValue? && c.toks != [] {
      NodeFollows(Push(Skip(c), FlowSequenceEntryMappingEnd), false, false);
    }
  }

  lemma FlowMappingKeyFollows(c: Config, first: bool)
    requires Valid(c) && c.state == if first then FlowMappingFirstKey else FlowMappingKey
    ensures Follows(c, ParseFlowMappingKey(c, first))
  {
    hide FlowMappingEntry, MarkedBelow, ValidStack, Below;
    var d := if first then Enter(c, FlowMappingKey) else c;
    if d.toks != [] {
      FlowMappingEntryFollows(if !first && d.toks[0].TFlowEntry? then Skip(d) else d);
    }
  }

  lemma FlowMappingEntryFollows(c: Config)
    requires Valid(c) && c.state.FlowMappingKey?
    ensures Follows(c, FlowMappingEntry(c))
  {
    hide ParseNode, MarkedBelow, ValidStack, Below;
    NodeFollows(Push(c, FlowMappingEmptyValue), false, false);
    if c.toks != [] {
      NodeFollows(Push(Skip(c), FlowMappingValue), false, false);
    }
  }

  lemma FlowMappingValueFollows(c: Config, empty: bool)
    requires Valid(c) && c.state == if empty then FlowMappingEmptyValue else FlowMappingValue
    ensures Follows(c, ParseFlowMappingValue(c, empty))
  {
    hide ParseNode, MarkedBelow, ValidStack, Below;
    if c.toks != [] {
      NodeFollows(Push(Skip(c), FlowMappingKey), false, false);
    }
  }

  lemma SmallProductionsFollow(c: Config)
    requires Valid(c)
    ensures c.state.StreamStart? ==> Follows(c, ParseStreamStart(c))
    ensures c.state.DocumentContent? ==> Follows(c, ParseDocumentContent(c))
    ensures c.state.DocumentEnd? ==> Follows(c, ParseDocumentEnd(c))
  {
    hide ParseNode, MarkedBelow, ValidStack;
    if c.state.DocumentContent? {
      NodeFollows(c, true, false);
    }
  }

  lemma StepFollows(c: Config)
    requires Valid(c) && !c.state.End?
    ensures Follows(c, Step(c))
  {
    hide Follows, Below, ParseNode, ParseDocumentStart, ParseBlockSequenceEntry, ParseBlockMappingKey;
    hide ParseFlowSequenceEntry, ParseFlowMappingKey, ParseIndentlessSequenceEntry, ParseBlockMappingValue;
    hide ParseFlowMappingValue, ParseFlowSequenceEntryMappingKey, ParseFlowSequenceEntryMappingValue;
    hide ParseFlowSequenceEntryMappingEnd, ParseStreamStart, ParseDocumentContent, ParseDocumentEnd;
    match c.state
    case ImplicitDocumentStart => DocumentStartFollows(c, true);
    case DocumentStart => DocumentStartFollows(c, false);
    case BlockNode => NodeStateFollows(c, true, false);
    case BlockNodeOrIndentlessSequence => NodeStateFollows(c, true, true);
    case FlowNode => NodeStateFollows(c, false, false);
    case BlockSequenceFirstEntry => BlockSequenceFollows(c, true);
    case BlockSequenceEntry => BlockSequenceFollows(c, false);
    case IndentlessSequenceEntry => IndentlessFollows(c);
    case BlockMappingFirstKey => BlockMappingKeyFollows(c, true);
    case BlockMappingKey => BlockMappingKeyFollows(c, false);
    case BlockMappingValue => BlockMappingValueFollows(c);
    case FlowSequenceFirstEntry => FlowSequenceFollows(c, true);
    case FlowSequenceEntry => FlowSequenceFollows(c, false);
    case FlowMappingFirstKey => FlowMappingKeyFollows(c, true);
    case FlowMappingKey => FlowMappingKeyFollows(c, false);
    case FlowMappingValue => FlowMappingValueFollows(c, false);
    case FlowMappingEmptyValue => FlowMappingValueFollows(c, true);
    case StreamStart => SmallProductionsFollow(c);
    case DocumentContent => SmallProductionsFollow(c);
    case DocumentEnd => SmallProductionsFollow(c);
    case _ => FlowPairFollows(c);
  }

  lemma NodeStateFollows(c: Config, block: bool, indentless: bool)
    requires Valid(c) && (c.state.BlockNode? || c.state.BlockNodeOrIndentlessSequence? || c.state.FlowNode?)
    ensures Follows(c, ParseNode(c, block, indentless))
  {
    hide ParseNode, MarkedBelow, ValidStack, Below;
    NodeFollows(c, block, indentless);
  }

  // ---------------------------------------------------------------- whole runs

  /** The events of a run of at most `n` steps, and where it stops. */
  ghost function Run(c: Config, n: nat): (seq<Event>, Config)
    requires Valid(c)
    decreases n
  {
    if n == 0 || c.state.End? || !Step(c).Emit? then ([], c)
    else
      StepFollows(c);
      var r := Step(c);
      var (events, last) := Run(r.next, n - 1);
      ([r.event] + events, last)
  }

  function Kinds(events: seq<Event>): (ks: seq<G.Kind>)
    ensures |ks| == |events|
  {
    if events == [] then [] else [KindOf(events[0])] + Kinds(events[1..])
  }

  function Initial(toks: seq<Token>): (c: Config)
    ensures Valid(c) && Nesting(c) == G.Start
  {
    Config(StreamStart, [], [], toks, [])
  }

  lemma {:induction false} RunFollows(c: Config, n: nat)
    requires Valid(c)
    ensures var (events, last) := Run(c, n);
            Valid(last) && G.TakeAll(Nesting(c), Kinds(events)) == G.Accept(Nesting(last))
    decreases n
  {
    hide Valid, Nesting, Step, G.Take;
    if n > 0 && !c.state.End? && Step(c).Emit? {
      StepFollows(c);
      RunFollows(Step(c).next, n - 1);
      var events := Run(c, n).0;
      assert events[1..] == Run(Step(c).next, n - 1).0;
      assert Kinds(events)[1..] == Kinds(events[1..]);
    }
  }

  /**
   Whatever the tokens, the events so far are the beginning of a well-nested stream; at the end they are
   all of one.
   */
  lemma EventsAreWellNested(toks: seq<Token>, n: nat)
    ensures var (events, last) := Run(Initial(toks), n);
            && Valid(last)
            && (exists docs, more :: Kinds(events) + more == G.StreamKinds(docs))
            && (last.state.End? ==> exists docs :: Kinds(events) == G.StreamKinds(docs))
  {
    hide Run, G.StreamKinds;
    var (events, last) := Run(Initial(toks), n);
    RunFollows(Initial(toks), n);
    G.ViableIffPrefix(Kinds(events));
    G.AcceptedIffStream(Kinds(events));
  }
}
