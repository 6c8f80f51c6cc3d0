/**
 Flow-sequence brackets are conserved: along any run, the closing brackets still unread, less
 the opening ones still unread, less the flow sequences still open, never grows. A run that has
 lost a closing bracket can therefore never finish.
 */
module ParserBrackets {
  import G = EventGrammar
  import opened ParserModel
  import opened ParserSoundness

  function Balance(toks: seq<Token>): int {
    if toks == [] then 0
    else Balance(toks[1..]) + (if toks[0].TFlowSequenceEnd? then 1 else if toks[0].TFlowSequenceStart? then -1 else 0)
  }

  lemma {:induction false} BalanceAppend(a: seq<Token>, b: seq<Token>)
    ensures Balance(a + b) == Balance(a) + Balance(b)
  {
    if a == [] {
      assert a + b == b;
    } else {
      assert (a + b)[1..] == a[1..] + b;
      BalanceAppend(a[1..], b);
    }
  }

  function Open(s: State): nat {
    match s
    case FlowSequenceEntry => 1
    case FlowSequenceEntryMappingKey => 1
    case FlowSequenceEntryMappingValue => 1
    case FlowSequenceEntryMappingEnd => 1
    case _ => 0
  }

  function OpenBelow(states: seq<State>): nat {
    if states == [] then 0 else Open(states[|states| - 1]) + OpenBelow(states[..|states| - 1])
  }

  /** Brackets to spare, when the current state does not count. */
  function SpareBelow(c: Config): int { Balance(c.toks) - OpenBelow(c.states) }

  function Spare(c: Config): int { SpareBelow(c) - Open(c.state) }

  /** `a` is what is left of `b`. */
  predicate LeftOf(a: seq<Token>, b: seq<Token>) { |a| <= |b| && a == b[|b| - |a|..] }

  ghost predicate Conserves(c: Config, spare: int, r: Result) {
    r.Emit? ==> Spare(r.next) <= spare && LeftOf(r.next.toks, c.toks)
  }

  lemma PopSpare(c: Config)
    requires NodeReady(c)
    ensures Spare(Pop(c)) == SpareBelow(c)
  {
  }

  lemma PushSpare(c: Config, s: State)
    requires c.states != [] && ValidStack(c.states) && Return(s) && |c.marks| == Marked(s) + MarkedBelow(c.states)
    ensures SpareBelow(Push(c, s)) == SpareBelow(c) - Open(s)
  {
    assert (c.states + [s])[..|c.states|] == c.states;
  }

  lemma PropsConserve(toks: seq<Token>)
    requires toks != []
    ensures var p := ReadProps(toks); Balance(p.toks) == Balance(toks) && LeftOf(p.toks, toks)
  {
    if |toks| > 1 {
      assert toks[1..][1..] == toks[2..];
    }
  }

  lemma NodeConserves(c: Config, block: bool, indentless: bool)
    requires NodeReady(c)
    ensures Conserves(c, SpareBelow(c), ParseNode(c, block, indentless))
  {
    hide ReadProps, ResolveTag, OpenBelow, MarkedBelow, ValidStack;
    if c.toks != [] {
      PopSpare(Skip(c));
      PropsConserve(c.toks);
      var d := c.(toks := ReadProps(c.toks).toks);
      PopSpare(d);
      if d.toks != [] {
        PopSpare(Skip(d));
      }
    }
  }

  /** Calling for a node that returns to `s`. */
  lemma CallConserves(c: Config, s: State, block: bool, indentless: bool)
    requires Valid(c) && c.states != [] && Return(s) && Marked(s) == Marked(c.state)
    ensures Conserves(c, SpareBelow(c) - Open(s), ParseNode(Push(c, s), block, indentless))
  {
    hide ParseNode, Spare, OpenBelow, Balance;
    PushSpare(c, s);
    NodeConserves(Push(c, s), block, indentless);
  }

  lemma {:induction false} DirectivesConserve(c: Config, version: bool, tags: seq<Directive>)
    ensures var r := ReadDirectives(c, version, tags);
            r.Read? ==> Balance(r.next.toks) == Balance(c.toks) && LeftOf(r.next.toks, c.toks)
    decreases |c.toks|
  {
    hide ReadDirectives, Balance, LeftOf;
    LeftOfSelf(c.toks);
    var r := ReadDirectives(c, version, tags);
    var d, v, t := ReadOne(c, version, tags);
    if r.Read? && c.toks != [] && (c.toks[0].TVersion? || c.toks[0].TTagDirective?) {
      SkipConserves(c.toks);
      DirectivesConserve(d, v, t);
      LeftOfTrans(r.next.toks, c.toks[1..], c.toks);
    }
  }

  /** Where reading directives goes on after the first one. */
  lemma ReadOne(c: Config, version: bool, tags: seq<Directive>) returns (d: Config, v: bool, t: seq<Directive>)
    ensures var r := ReadDirectives(c, version, tags);
      r.Read? ==> if c.toks != [] && (c.toks[0].TVersion? || c.toks[0].TTagDirective?)
                  then d.toks == c.toks[1..] && r == ReadDirectives(d, v, t)
                  else r.next.toks == c.toks
  {
    d, v, t := c, version, tags;
    if c.toks != [] && c.toks[0].TVersion? {
      d, v := Skip(c), true;
    } else if c.toks != [] && c.toks[0].TTagDirective? {
      d, t := Skip(c).(dirs := c.dirs + [c.toks[0].directive]), tags + [c.toks[0].directive];
    }
  }

  /** A token that is no flow-sequence bracket may be passed. */
  lemma SkipConserves(toks: seq<Token>)
    requires toks != [] && !toks[0].TFlowSequenceStart? && !toks[0].TFlowSequenceEnd?
    ensures Balance(toks[1..]) == Balance(toks) && LeftOf(toks[1..], toks)
  {
  }

  lemma {:induction false} DocumentEndsConserve(c: Config)
    ensures var d := SkipDocumentEnds(c); Balance(d.toks) == Balance(c.toks) && LeftOf(d.toks, c.toks)
    decreases |c.toks|
  {
    if c.toks != [] && c.toks[0].TDocumentEnd? {
      DocumentEndsConserve(Skip(c));
    }
  }

  lemma DocumentStartConserves(c: Config, implicit: bool)
    requires Valid(c) && (c.state.ImplicitDocumentStart? || c.state.DocumentStart?)
    ensures Conserves(c, Spare(c), ParseDocumentStart(c, implicit))
  {
    hide OpenDocument, SkipDocumentEnds, MarkedBelow, LeftOf;
    DocumentEndsConserve(c);
    LeftOfSelf(c.toks);
    var d := if implicit then c else SkipDocumentEnds(c);
    OpenDocumentConserves(d, implicit);
    var r := OpenDocument(d, implicit);
    if r.Emit? {
      LeftOfTrans(r.next.toks, d.toks, c.toks);
    }
  }

  lemma OpenDocumentConserves(c: Config, implicit: bool)
    requires c.states == []
    ensures Conserves(c, Balance(c.toks), OpenDocument(c, implicit))
  {
    hide ReadDirectives, LeftOf, Balance;
    assert OpenBelow([DocumentEnd]) == 0 by { assert [DocumentEnd][..0] == []; }
    LeftOfSelf(c.toks);
    if c.toks != [] {
      BalanceSkip(c.toks);
    }
    DirectivesConserve(c, false, []);
    match ReadDirectives(c, false, [])
    case Read(_, _, e) =>
      LeftOfSelf(e.toks);
      LeftOfTrans(e.toks[1..], e.toks, c.toks);
      BalanceSkip(e.toks);
    case _ =>
  }

  lemma BalanceSkip(toks: seq<Token>)
    requires toks != []
    ensures !toks[0].TFlowSequenceEnd? && !toks[0].TFlowSequenceStart? ==> Balance(toks[1..]) == Balance(toks)
  {
  }

  lemma LeftOfSelf(a: seq<Token>)
    ensures LeftOf(a, a) && (a != [] ==> LeftOf(a[1..], a))
  {
  }

  /** The stream can only end at a stream-end token. */
  lemma EndsAtStreamEnd(c: Config, implicit: bool) returns (i: nat)
    requires Valid(c) && (c.state.ImplicitDocumentStart? || c.state.DocumentStart?)
    requires ParseDocumentStart(c, implicit).Emit? && ParseDocumentStart(c, implicit).next.state.End?
    ensures i < |c.toks| && c.toks[i].TStreamEnd? && ParseDocumentStart(c, implicit).next.toks == c.toks[i + 1..]
  {
    hide ReadDirectives, SkipDocumentEnds;
    var d := if implicit then c else SkipDocumentEnds(c);
    DocumentEndsConserve(c);
    i := |c.toks| - |d.toks|;
    assert d.toks[0] == c.toks[i] && d.toks[1..] == c.toks[i + 1..];
  }

  lemma BlockSequenceConserves(c: Config)
    requires Valid(c) && c.state.BlockSequenceEntry?
    ensures Conserves(c, Spare(c), ParseBlockSequenceEntry(c, false))
  {
    hide ParseNode, OpenBelow, MarkedBelow, ValidStack;
    if c.toks != [] {
      CallConserves(Skip(c), BlockSequenceEntry, true, false);
      LeaveConserves(c);
    }
  }

  lemma BlockMappingKeyConserves(c: Config)
    requires Valid(c) && c.state.BlockMappingKey?
    ensures Conserves(c, Spare(c), ParseBlockMappingKey(c, false))
  {
    hide ParseNode, OpenBelow, MarkedBelow, ValidStack;
    if c.toks != [] {
      CallConserves(Skip(c), BlockMappingValue, true, true);
      LeaveConserves(c);
    }
  }

  lemma BlockMappingValueConserves(c: Config)
    requires Valid(c) && c.state.BlockMappingValue?
    ensures Conserves(c, Spare(c), ParseBlockMappingValue(c))
  {
    hide ParseNode, OpenBelow, MarkedBelow, ValidStack;
    if c.toks != [] {
      CallConserves(Skip(c), BlockMappingKey, true, true);
    }
  }

  lemma IndentlessConserves(c: Config)
    requires Valid(c) && c.state.IndentlessSequenceEntry?
    ensures Conserves(c, Spare(c), ParseIndentlessSequenceEntry(c))
  {
    hide ParseNode, OpenBelow, MarkedBelow, ValidStack;
    if c.toks != [] {
      CallConserves(Skip(c), IndentlessSequenceEntry, true, false);
      PopSpare(c);
    }
  }

  lemma LeaveConserves(c: Config)
    requires Valid(c) && c.toks != []
    ensures Marked(c.state) == 1 ==> Spare(Leave(c)) == SpareBelow(Skip(c)) && LeftOf(Leave(c).toks, c.toks)
  {
    hide OpenBelow, MarkedBelow;
    if Marked(c.state) == 1 {
      PopSpare(c.(marks := c.marks[..|c.marks| - 1], toks := c.toks[1..]));
    }
  }

  lemma FlowSequenceConserves(c: Config)
    requires Valid(c) && c.state.FlowSequenceEntry?
    ensures Conserves(c, Spare(c), FlowSequenceItem(c))
  {
    hide ParseNode, OpenBelow, MarkedBelow, ValidStack;
    if c.toks != [] {
      LeaveConserves(c);
      CallConserves(c, FlowSequenceEntry, false, false);
    }
  }

  lemma FlowMappingConserves(c: Config)
    requires Valid(c) && c.state.FlowMappingKey?
    ensures Conserves(c, Spare(c), FlowMappingEntry(c))
  {
    hide ParseNode, OpenBelow, MarkedBelow, ValidStack;
    if c.toks != [] {
      LeaveConserves(c);
      CallConserves(c, FlowMappingEmptyValue, false, false);
      CallConserves(Skip(c), FlowMappingValue, false, false);
    }
  }

  lemma FlowValueConserves(c: Config)
    requires Valid(c)
    ensures c.state.FlowMappingValue? ==> Conserves(c, Spare(c), ParseFlowMappingValue(c, false))
    ensures c.state.FlowMappingEmptyValue? ==> Conserves(c, Spare(c), ParseFlowMappingValue(c, true))
  {
    hide ParseNode, OpenBelow, MarkedBelow, ValidStack;
    if c.toks != [] && (c.state.FlowMappingValue? || c.state.FlowMappingEmptyValue?) {
      CallConserves(Skip(c), FlowMappingKey, false, false);
    }
  }

  lemma PairConserves(c: Config)
    requires Valid(c)
    ensures c.state.FlowSequenceEntryMappingKey? ==> Conserves(c, Spare(c), ParseFlowSequenceEntryMappingKey(c))
    ensures c.state.FlowSequenceEntryMappingValue? ==> Conserves(c, Spare(c), ParseFlowSequenceEntryMappingValue(c))
    ensures c.state.FlowSequenceEntryMappingEnd? ==> Conserves(c, Spare(c), ParseFlowSequenceEntryMappingEnd(c))
  {
    hide ParseNode, OpenBelow, MarkedBelow, ValidStack;
    if c.toks != [] {
      if c.state.FlowSequenceEntryMappingKey? {
        CallConserves(c, FlowSequenceEntryMappingValue, false, false);
      }
      if c.state.FlowSequenceEntryMappingValue? {
        CallConserves(Skip(c), FlowSequenceEntryMappingEnd, false, false);
      }
    }
  }

  lemma EnterConserves(c: Config, s: State)
    requires Valid(c) && c.toks != [] && c.states != [] && Marked(c.state) == 0 && Marked(s) == 1 && Return(s)
    requires Open(c.state) == 0 && (Open(s) == 1 <==> c.toks[0].TFlowSequenceStart?) && !c.toks[0].TFlowSequenceEnd?
    ensures Spare(Enter(c, s)) == Spare(c) && LeftOf(Enter(c, s).toks, c.toks)
  {
    hide OpenBelow, MarkedBelow;
  }

  lemma LeftOfTrans(a: seq<Token>, b: seq<Token>, c: seq<Token>)
    requires LeftOf(a, b) && LeftOf(b, c)
    ensures LeftOf(a, c)
  {
  }

  /** In a block collection the first entry is parsed like the others. */
  lemma FirstIsSame(c: Config, s: State)
    requires Valid(c)
    requires ((c.state.BlockSequenceFirstEntry? && s.BlockSequenceEntry?)
        || (c.state.BlockMappingFirstKey? && s.BlockMappingKey?))
    ensures c.toks != [] && c.states != [] && Step(c) == Step(Enter(c, s))
  {
    hide ParseNode, Push, Goto, Leave, Skip, LastMark, MarkedBelow;
    var e := Enter(c, s);
    if |e.toks| > 1 {
      assert e.toks[1..] == c.toks[2..];
    }
  }

  lemma FirstBlockSequenceConserves(c: Config)
    requires Valid(c) && c.state.BlockSequenceFirstEntry?
    ensures Conserves(c, Spare(c), Step(c))
  {
    hide ParseBlockSequenceEntry, Spare, LeftOf, MarkedBelow, ValidStack;
    EnterConserves(c, BlockSequenceEntry);
    var e := Enter(c, BlockSequenceEntry);
    BlockSequenceConserves(e);
    FirstIsSame(c, BlockSequenceEntry);
    var r := Step(c);
    if r.Emit? {
      LeftOfTrans(r.next.toks, e.toks, c.toks);
    }
  }

  lemma FirstBlockMappingConserves(c: Config)
    requires Valid(c) && c.state.BlockMappingFirstKey?
    ensures Conserves(c, Spare(c), Step(c))
  {
    hide ParseBlockMappingKey, Spare, LeftOf, MarkedBelow, ValidStack;
    EnterConserves(c, BlockMappingKey);
    var e := Enter(c, BlockMappingKey);
    BlockMappingKeyConserves(e);
    FirstIsSame(c, BlockMappingKey);
    var r := Step(c);
    if r.Emit? {
      LeftOfTrans(r.next.toks, e.toks, c.toks);
    }
  }

  lemma FirstFlowSequenceConserves(c: Config)
    requires Valid(c) && c.state.FlowSequenceFirstEntry?
    ensures Conserves(c, Spare(c), Step(c))
  {
    hide ParseNode, Spare, LeftOf, MarkedBelow, ValidStack, FlowSequenceItem, FlowMappingEntry;
    EnterConserves(c, FlowSequenceEntry);
    var e := Enter(c, FlowSequenceEntry);
    FlowSequenceConserves(e);
    var r := Step(c);
    if r.Emit? {
      LeftOfTrans(r.next.toks, e.toks, c.toks);
    }
  }

  lemma FirstFlowMappingConserves(c: Config)
    requires Valid(c) && c.state.FlowMappingFirstKey?
    ensures Conserves(c, Spare(c), Step(c))
  {
    hide ParseNode, Spare, LeftOf, MarkedBelow, ValidStack, FlowSequenceItem, FlowMappingEntry;
    EnterConserves(c, FlowMappingKey);
    var e := Enter(c, FlowMappingKey);
    FlowMappingConserves(e);
    var r := Step(c);
    if r.Emit? {
      LeftOfTrans(r.next.toks, e.toks, c.toks);
    }
  }

  /** After a comma, or at the end. */
  lemma SequenceCommaConserves(c: Config)
    requires Valid(c) && c.state.FlowSequenceEntry?
    ensures Conserves(c, Spare(c), Step(c))
  {
    hide ParseNode, OpenBelow, MarkedBelow, ValidStack, FlowSequenceItem, FlowMappingEntry;
    FlowSequenceConserves(c);
    if c.toks != [] && c.toks[0].TFlowEntry? {
      FlowSequenceConserves(Skip(c));
      var r := Step(c);
      if r.Emit? {
        LeftOfTrans(r.next.toks, Skip(c).toks, c.toks);
      }
    }
  }

  /** After a comma, or at the end. */
  lemma MappingCommaConserves(c: Config)
    requires Valid(c) && c.state.FlowMappingKey?
    ensures Conserves(c, Spare(c), Step(c))
  {
    hide ParseNode, OpenBelow, MarkedBelow, ValidStack, FlowSequenceItem, FlowMappingEntry;
    FlowMappingConserves(c);
    if c.toks != [] && c.toks[0].TFlowEntry? {
      FlowMappingConserves(Skip(c));
      var r := Step(c);
      if r.Emit? {
        LeftOfTrans(r.next.toks, Skip(c).toks, c.toks);
      }
    }
  }

  lemma SmallConserve(c: Config)
    requires Valid(c)
    ensures c.state.StreamStart? ==> Conserves(c, Spare(c), ParseStreamStart(c))
    ensures c.state.DocumentContent? ==> Conserves(c, Spare(c), ParseDocumentContent(c))
    ensures c.state.DocumentEnd? ==> Conserves(c, Spare(c), ParseDocumentEnd(c))
    ensures c.state.BlockNode? ==> Conserves(c, Spare(c), ParseNode(c, true, false))
    ensures c.state.BlockNodeOrIndentlessSequence? ==> Conserves(c, Spare(c), ParseNode(c, true, true))
    ensures c.state.FlowNode? ==> Conserves(c, Spare(c), ParseNode(c, false, false))
  {
    hide ParseNode, OpenBelow, MarkedBelow, ValidStack;
    if c.states != [] && Marked(c.state) == 0 {
      NodeConserves(c, true, false);
      NodeConserves(c, true, true);
      NodeConserves(c, false, false);
      PopSpare(c);
    }
  }

  lemma StepConserves(c: Config)
    requires Valid(c) && !c.state.End?
    ensures Conserves(c, Spare(c), Step(c))
  {
    hide Conserves, Spare, ParseNode, ParseDocumentStart, ParseBlockSequenceEntry, ParseBlockMappingKey;
    hide ParseFlowSequenceEntry, ParseFlowMappingKey, ParseIndentlessSequenceEntry, ParseBlockMappingValue;
    hide ParseFlowMappingValue, ParseFlowSequenceEntryMappingKey, ParseFlowSequenceEntryMappingValue;
    hide ParseFlowSequenceEntryMappingEnd, ParseStreamStart, ParseDocumentContent, ParseDocumentEnd;
    match c.state
    case ImplicitDocumentStart => DocumentStartConserves(c, true);
    case DocumentStart => DocumentStartConserves(c, false);
    case BlockSequenceFirstEntry => FirstBlockSequenceConserves(c);
    case BlockMappingFirstKey => FirstBlockMappingConserves(c);
    case FlowSequenceFirstEntry => FirstFlowSequenceConserves(c);
    case FlowMappingFirstKey => FirstFlowMappingConserves(c);
    case FlowSequenceEntry => SequenceCommaConserves(c);
    case FlowMappingKey => MappingCommaConserves(c);
    case FlowMappingValue => FlowValueConserves(c);
    case FlowMappingEmptyValue => FlowValueConserves(c);
    case BlockSequenceEntry => BlockSequenceConserves(c);
    case IndentlessSequenceEntry => IndentlessConserves(c);
    case BlockMappingKey => BlockMappingKeyConserves(c);
    case BlockMappingValue => BlockMappingValueConserves(c);
    case FlowSequenceEntryMappingKey => PairConserves(c);
    case FlowSequenceEntryMappingValue => PairConserves(c);
    case FlowSequenceEntryMappingEnd => PairConserves(c);
    case _ => SmallConserve(c);
  }

  // ---------------------------------------------------------------- runs that cannot finish

  /** A stream-end token is the last one. */
  ghost predicate EndIsLast(toks: seq<Token>) {
    forall i :: 0 <= i < |toks| && toks[i].TStreamEnd? ==> i == |toks| - 1
  }

  ghost predicate Doomed(c: Config)
    requires Valid(c)
  {
    forall n: nat :: !Run(c, n).1.state.End?
  }

  lemma {:induction false} ShortOfBrackets(c: Config, n: nat)
    requires Valid(c) && !c.state.End? && EndIsLast(c.toks) && Spare(c) < 0
    ensures !Run(c, n).1.state.End?
    decreases n
  {
    hide Step, Valid, Spare;
    if n > 0 && Step(c).Emit? {
      var d := Step(c).next;
      StepFollows(c);
      StepConserves(c);
      NotEndedYet(c);
      ShortOfBrackets(d, n - 1);
    }
  }

  lemma NotEndedYet(c: Config)
    requires Valid(c) && !c.state.End? && EndIsLast(c.toks) && Spare(c) < 0 && Step(c).Emit? && Spare(Step(c).next) < 0
    ensures !Step(c).next.state.End?
  {
    hide ParseDocumentStart, MarkedBelow;
    var d := Step(c).next;
    if d.state.End? {
      OnlyDocumentsEnd(c);
      var i := EndsAtStreamEnd(c, c.state.ImplicitDocumentStart?);
      assert d.toks == [];
      StepFollows(c);
    }
  }

  lemma OnlyDocumentsEnd(c: Config)
    requires Valid(c) && !c.state.End? && Step(c).Emit? && Step(c).next.state.End?
    ensures c.state.ImplicitDocumentStart? || c.state.DocumentStart?
  {
    hide MarkedBelow, G.Take, Step, Needs;
    StepFollows(c);
    var r := Step(c);
    EndNeedsNothing(End, G.Nothing, KindOf(r.event));
    if c.states != [] {
      BelowIsSomething(c.states);
    }
    if !c.state.ImplicitDocumentStart? && !c.state.DocumentStart? {
      EndNeedsNothing(c.state, Below(c.states), KindOf(r.event));
    }
  }

  lemma BelowIsSomething(states: seq<State>)
    requires states != [] && ValidStack(states)
    ensures Below(states).Then?
  {
    assert |states| > 1 ==> Return(states[|states| - 1]);
  }

  lemma EndNeedsNothing(s: State, below: G.Needs, k: G.Kind)
    ensures Needs(End, G.Nothing) == G.Nothing
    ensures below.Then? || s.StreamStart? || s.DocumentEnd? ==>
      G.Take(Needs(s, below), k) != G.Accept(G.Nothing) || s.End?
  {
  }
}
