/**
 Every parse comes to a stop: a step costs something of a finite stock, even one that reads no
 token. And while the stream-end token is ahead, the parser never asks for a token that is not there.
 */
module ParserTermination {
  import opened Options
  import opened ParserModel
  import opened ParserSoundness
  import opened ParserBrackets

  const PER_TOKEN: nat := 6

  /** How many more events a state may lead to before the next token. */
  function Rank(s: State): nat {
    match s
    case ImplicitDocumentStart => 4
    case DocumentContent => 2
    case DocumentEnd => 1
    case BlockNode => 2
    case BlockNodeOrIndentlessSequence => 2
    case FlowNode => 2
    case BlockSequenceFirstEntry => 1
    case IndentlessSequenceEntry => 1
    case BlockMappingFirstKey => 1
    case BlockMappingValue => 1
    case FlowSequenceFirstEntry => 1
    case FlowSequenceEntryMappingKey => 4
    case FlowSequenceEntryMappingValue => 2
    case FlowSequenceEntryMappingEnd => 1
    case FlowMappingFirstKey => 1
    case FlowMappingValue => 1
    case FlowMappingEmptyValue => 1
    case _ => 0
  }

  function RankBelow(states: seq<State>): nat {
    if states == [] then 0 else Rank(states[|states| - 1]) + RankBelow(states[..|states| - 1])
  }

  /** The stock without the part of the current state. */
  function StockBelow(c: Config): nat { PER_TOKEN * |c.toks| + RankBelow(c.states) }

  function Stock(c: Config): nat { Rank(c.state) + StockBelow(c) }

  /** The stream-end token is still to come. */
  predicate EndAhead(toks: seq<Token>) { toks != [] && toks[|toks| - 1].TStreamEnd? }

  /** What a production with this much to spend may do. */
  ghost predicate Spends(toks: seq<Token>, stock: int, r: Result) {
    && (r.Emit? ==> Stock(r.next) < stock)
    && (EndAhead(toks) ==> !r.NoToken? && (r.Emit? ==> r.next.state.End? || EndAhead(r.next.toks)))
  }

  lemma PopStock(c: Config)
    requires NodeReady(c)
    ensures Stock(Pop(c)) == StockBelow(c)
  {
  }

  lemma PushStock(c: Config, s: State)
    requires c.states != [] && ValidStack(c.states) && Return(s) && |c.marks| == Marked(s) + MarkedBelow(c.states)
    ensures StockBelow(Push(c, s)) == StockBelow(c) + Rank(s)
  {
    assert (c.states + [s])[..|c.states|] == c.states;
  }

  lemma LeaveStock(c: Config)
    requires Valid(c) && c.toks != [] && Marked(c.state) == 1
    ensures Stock(Leave(c)) + PER_TOKEN == StockBelow(c) && Leave(c).toks == c.toks[1..]
  {
    hide RankBelow, MarkedBelow;
    PopStock(c.(marks := c.marks[..|c.marks| - 1], toks := c.toks[1..]));
  }

  lemma NoEndAhead()
    ensures !EndAhead([])
  {
  }

  /** Any other token may be passed. */
  lemma EndStaysAhead(toks: seq<Token>)
    requires toks != [] && !toks[0].TStreamEnd?
    ensures EndAhead(toks) ==> EndAhead(toks[1..])
  {
  }

  lemma PropsSpend(toks: seq<Token>)
    requires toks != []
    ensures var p := ReadProps(toks);
      && |p.toks| <= |toks| && (p.anchor != "" || p.tagged ==> |p.toks| < |toks|)
      && (EndAhead(toks) ==> EndAhead(p.toks) && p.toks != [])
  {
  }

  lemma UntaggedHasNoTag(dirs: seq<Directive>, p: Props)
    ensures !p.tagged ==> ResolveTag(dirs, p) == Some("")
  {
  }

  /** A node reads its tokens and returns, or stays in front of the start of a collection. */
  lemma NodeEither(c: Config, block: bool, indentless: bool) returns (d: Config)
    requires NodeReady(c)
    ensures d == c.(toks := d.toks)
    ensures var r := ParseNode(c, block, indentless);
      && (r.Emit? ==> (r.next == Pop(d) && |d.toks| < |c.toks|)
                      || (r.next == d.(state := r.next.state) && |d.toks| <= |c.toks| && Rank(r.next.state) == 1))
      && (EndAhead(c.toks) ==> !r.NoToken? && EndAhead(d.toks))
  {
    hide ReadProps, MarkedBelow, ValidStack, ResolveTag, Pop, EndAhead;
    d := c;
    if c.toks == [] {
      assert !EndAhead(c.toks) by { NoEndAhead(); }
    } else {
      if c.toks[0].TAlias? {
        EndStaysAhead(c.toks);
        d := Skip(c);
      } else {
        PropsSpend(c.toks);
        UntaggedHasNoTag(c.dirs, ReadProps(c.toks));
        d := c.(toks := ReadProps(c.toks).toks);
        if d.toks != [] && d.toks[0].TScalar? {
          EndStaysAhead(d.toks);
          d := Skip(d);
        }
      }
    }
  }

  lemma NodeSpends(c: Config, block: bool, indentless: bool)
    requires NodeReady(c)
    ensures Spends(c.toks, StockBelow(c) + 2, ParseNode(c, block, indentless))
  {
    hide ParseNode, RankBelow, MarkedBelow, ValidStack, EndAhead;
    var d := NodeEither(c, block, indentless);
    PopStock(d);
  }

  /** Calling for a node that returns to `s`. */
  lemma CallSpends(c: Config, s: State, block: bool, indentless: bool)
    requires Valid(c) && c.states != [] && Return(s) && Marked(s) == Marked(c.state)
    ensures Spends(c.toks, StockBelow(c) + Rank(s) + 2, ParseNode(Push(c, s), block, indentless))
  {
    hide ParseNode, Stock, StockBelow, EndAhead, MarkedBelow, ValidStack;
    PushStock(c, s);
    NodeSpends(Push(c, s), block, indentless);
  }

  lemma BlockSequenceSpends(c: Config)
    requires Valid(c) && c.state.BlockSequenceEntry?
    ensures Spends(c.toks, Stock(c), ParseBlockSequenceEntry(c, false))
  {
    hide ParseNode, RankBelow, MarkedBelow, ValidStack;
    if c.toks != [] {
      CallSpends(Skip(c), BlockSequenceEntry, true, false);
      LeaveStock(c);
    }
  }

  lemma BlockMappingKeySpends(c: Config)
    requires Valid(c) && c.state.BlockMappingKey?
    ensures Spends(c.toks, Stock(c), ParseBlockMappingKey(c, false))
  {
    hide ParseNode, RankBelow, MarkedBelow, ValidStack;
    if c.toks != [] {
      CallSpends(Skip(c), BlockMappingValue, true, true);
      LeaveStock(c);
    }
  }

  lemma BlockMappingValueSpends(c: Config)
    requires Valid(c) && c.state.BlockMappingValue?
    ensures Spends(c.toks, Stock(c), ParseBlockMappingValue(c))
  {
    hide ParseNode, RankBelow, MarkedBelow, ValidStack;
    if c.toks != [] {
      CallSpends(Skip(c), BlockMappingKey, true, true);
    }
  }

  lemma IndentlessSpends(c: Config)
    requires Valid(c) && c.state.IndentlessSequenceEntry?
    ensures Spends(c.toks, Stock(c), ParseIndentlessSequenceEntry(c))
  {
    hide ParseNode, RankBelow, MarkedBelow, ValidStack;
    if c.toks != [] {
      CallSpends(Skip(c), IndentlessSequenceEntry, true, false);
      PopStock(c);
    }
  }

  /** What follows the bracket or a comma, which paid for it. */
  lemma FlowSequenceItemSpends(c: Config)
    requires Valid(c) && c.state.FlowSequenceEntry?
    ensures Spends(c.toks, Stock(c) + 2, FlowSequenceItem(c))
  {
    hide ParseNode, RankBelow, MarkedBelow, ValidStack;
    if c.toks != [] {
      LeaveStock(c);
      CallSpends(c, FlowSequenceEntry, false, false);
    }
  }

  lemma FlowMappingEntrySpends(c: Config)
    requires Valid(c) && c.state.FlowMappingKey?
    ensures Spends(c.toks, Stock(c) + 3, FlowMappingEntry(c))
  {
    hide ParseNode, RankBelow, MarkedBelow, ValidStack, Leave;
    if c.toks != [] {
      if c.toks[0].TFlowMappingEnd? {
        LeaveStock(c);
      } else if c.toks[0].TKey? {
        CallSpends(Skip(c), FlowMappingValue, false, false);
      } else {
        CallSpends(c, FlowMappingEmptyValue, false, false);
      }
    }
  }

  lemma FlowValueSpends(c: Config)
    requires Valid(c)
    ensures c.state.FlowMappingValue? ==> Spends(c.toks, Stock(c), ParseFlowMappingValue(c, false))
    ensures c.state.FlowMappingEmptyValue? ==> Spends(c.toks, Stock(c), ParseFlowMappingValue(c, true))
  {
    hide ParseNode, RankBelow, MarkedBelow, ValidStack;
    if c.toks != [] && (c.state.FlowMappingValue? || c.state.FlowMappingEmptyValue?) {
      CallSpends(Skip(c), FlowMappingKey, false, false);
    }
  }

  lemma PairSpends(c: Config)
    requires Valid(c)
    ensures c.state.FlowSequenceEntryMappingKey? ==> Spends(c.toks, Stock(c), ParseFlowSequenceEntryMappingKey(c))
    ensures c.state.FlowSequenceEntryMappingValue? ==> Spends(c.toks, Stock(c), ParseFlowSequenceEntryMappingValue(c))
    ensures c.state.FlowSequenceEntryMappingEnd? ==> Spends(c.toks, Stock(c), ParseFlowSequenceEntryMappingEnd(c))
  {
    hide ParseNode, RankBelow, MarkedBelow, ValidStack;
    if c.toks != [] {
      if c.state.FlowSequenceEntryMappingKey? {
        CallSpends(c, FlowSequenceEntryMappingValue, false, false);
      }
      if c.state.FlowSequenceEntryMappingValue? {
        CallSpends(Skip(c), FlowSequenceEntryMappingEnd, false, false);
      }
    }
  }

  lemma EnterSpends(c: Config, s: State)
    requires Valid(c) && c.toks != [] && c.states != [] && Marked(c.state) == 0 && Marked(s) == 1 && Return(s)
    requires StartToken(c.state, c.toks) && !c.toks[0].TStreamEnd?
    ensures Stock(Enter(c, s)) == StockBelow(c) + Rank(s) - PER_TOKEN
    ensures EndAhead(c.toks) ==> EndAhead(Enter(c, s).toks)
  {
    hide RankBelow, MarkedBelow;
  }

  lemma FirstBlockSpends(c: Config)
    requires Valid(c) && (c.state.BlockSequenceFirstEntry? || c.state.BlockMappingFirstKey?)
    ensures Spends(c.toks, Stock(c), Step(c))
  {
    hide Step, StockBelow, EndAhead, MarkedBelow, ValidStack;
    var s := if c.state.BlockSequenceFirstEntry? then BlockSequenceEntry else BlockMappingKey;
    EnterSpends(c, s);
    FirstIsSame(c, s);
    NextBlockSpends(Enter(c, s));
  }

  lemma NextBlockSpends(c: Config)
    requires Valid(c) && (c.state.BlockSequenceEntry? || c.state.BlockMappingKey?)
    ensures Spends(c.toks, Stock(c), Step(c))
  {
    hide ParseBlockSequenceEntry, ParseBlockMappingKey, Spends;
    if c.state.BlockSequenceEntry? {
      BlockSequenceSpends(c);
    } else {
      BlockMappingKeySpends(c);
    }
  }

  lemma FlowSequenceSpends(c: Config, first: bool)
    requires Valid(c) && c.state == if first then FlowSequenceFirstEntry else FlowSequenceEntry
    ensures Spends(c.toks, Stock(c), ParseFlowSequenceEntry(c, first))
  {
    hide FlowSequenceItem, MarkedBelow, ValidStack, RankBelow;
    if first {
      EnterSpends(c, FlowSequenceEntry);
      FlowSequenceItemSpends(Enter(c, FlowSequenceEntry));
    } else if c.toks != [] {
      if c.toks[0].TFlowEntry? {
        FlowSequenceItemSpends(Skip(c));
      } else if c.toks[0].TFlowSequenceEnd? {
        SequenceEndSpends(c);
      }
    }
  }

  lemma SequenceEndSpends(c: Config)
    requires Valid(c) && c.state.FlowSequenceEntry? && c.toks != [] && c.toks[0].TFlowSequenceEnd?
    ensures Spends(c.toks, Stock(c), FlowSequenceItem(c))
  {
    hide RankBelow, MarkedBelow, ValidStack;
    LeaveStock(c);
  }

  lemma FlowMappingSpends(c: Config, first: bool)
    requires Valid(c) && c.state == if first then FlowMappingFirstKey else FlowMappingKey
    ensures Spends(c.toks, Stock(c), ParseFlowMappingKey(c, first))
  {
    hide FlowMappingEntry, MarkedBelow, ValidStack, RankBelow;
    if first {
      EnterSpends(c, FlowMappingKey);
      FlowMappingEntrySpends(Enter(c, FlowMappingKey));
    } else if c.toks != [] {
      if c.toks[0].TFlowEntry? {
        FlowMappingEntrySpends(Skip(c));
      } else if c.toks[0].TFlowMappingEnd? {
        MappingEndSpends(c);
      }
    }
  }

  lemma MappingEndSpends(c: Config)
    requires Valid(c) && c.state.FlowMappingKey? && c.toks != [] && c.toks[0].TFlowMappingEnd?
    ensures Spends(c.toks, Stock(c), FlowMappingEntry(c))
  {
    hide RankBelow, MarkedBelow, ValidStack;
    LeaveStock(c);
  }

  lemma {:induction false} DirectivesSpend(c: Config, version: bool, tags: seq<Directive>)
    ensures var r := ReadDirectives(c, version, tags);
      && (r.Read? ==> |r.next.toks| <= |c.toks|)
      && (EndAhead(c.toks) ==> !r.NoMore? && (r.Read? ==> EndAhead(r.next.toks)))
    decreases |c.toks|
  {
    if c.toks != [] {
      match c.toks[0]
      case TVersion(_, _) => DirectivesSpend(Skip(c), true, tags);
      case TTagDirective(d) => DirectivesSpend(Skip(c).(dirs := c.dirs + [d]), version, tags + [d]);
      case _ =>
    }
  }

  lemma {:induction false} DocumentEndsSpend(c: Config)
    ensures var d := SkipDocumentEnds(c); |d.toks| <= |c.toks| && (EndAhead(c.toks) ==> EndAhead(d.toks))
    decreases |c.toks|
  {
    if c.toks != [] && c.toks[0].TDocumentEnd? {
      DocumentEndsSpend(Skip(c));
    }
  }

  lemma OpenDocumentSpends(c: Config, implicit: bool)
    requires c.states == []
    ensures Spends(c.toks, PER_TOKEN * |c.toks| + (if implicit then 4 else 0), OpenDocument(c, implicit))
  {
    hide ReadDirectives;
    assert RankBelow([DocumentEnd]) == 1 by { assert [DocumentEnd][..0] == []; }
    DirectivesSpend(c, false, []);
  }

  lemma DocumentStartSpends(c: Config, implicit: bool)
    requires Valid(c) && c.state == if implicit then ImplicitDocumentStart else DocumentStart
    ensures Spends(c.toks, Stock(c), ParseDocumentStart(c, implicit))
  {
    hide OpenDocument, SkipDocumentEnds, MarkedBelow, EndAhead;
    DocumentEndsSpend(c);
    OpenDocumentSpends(if implicit then c else SkipDocumentEnds(c), implicit);
  }

  lemma SmallSpend(c: Config)
    requires Valid(c)
    ensures c.state.StreamStart? ==> Spends(c.toks, Stock(c), ParseStreamStart(c))
    ensures c.state.DocumentContent? ==> Spends(c.toks, Stock(c), ParseDocumentContent(c))
    ensures c.state.DocumentEnd? ==> Spends(c.toks, Stock(c), ParseDocumentEnd(c))
    ensures c.state.BlockNode? ==> Spends(c.toks, Stock(c), ParseNode(c, true, false))
    ensures c.state.BlockNodeOrIndentlessSequence? ==> Spends(c.toks, Stock(c), ParseNode(c, true, true))
    ensures c.state.FlowNode? ==> Spends(c.toks, Stock(c), ParseNode(c, false, false))
  {
    hide ParseNode, RankBelow, MarkedBelow, ValidStack;
    if c.states != [] && Marked(c.state) == 0 {
      NodeSpends(c, true, false);
      NodeSpends(c, true, true);
      NodeSpends(c, false, false);
      PopStock(c);
    }
  }

  /** Every event is paid for, and the end of the tokens is never met before the end of the stream. */
  lemma StepSpends(c: Config)
    requires Valid(c) && !c.state.End?
    ensures Spends(c.toks, Stock(c), Step(c))
  {
    hide Spends, Stock, ParseNode, ParseDocumentStart, ParseBlockSequenceEntry, ParseBlockMappingKey;
    hide ParseFlowSequenceEntry, ParseFlowMappingKey, ParseIndentlessSequenceEntry, ParseBlockMappingValue;
    hide ParseFlowMappingValue, ParseFlowSequenceEntryMappingKey, ParseFlowSequenceEntryMappingValue;
    hide ParseFlowSequenceEntryMappingEnd, ParseStreamStart, ParseDocumentContent, ParseDocumentEnd;
    match c.state
    case ImplicitDocumentStart => DocumentStartSpends(c, true);
    case DocumentStart => DocumentStartSpends(c, false);
    case BlockSequenceFirstEntry => FirstBlockSpends(c);
    case BlockMappingFirstKey => FirstBlockSpends(c);
    case BlockSequenceEntry => BlockSequenceSpends(c);
    case BlockMappingKey => BlockMappingKeySpends(c);
    case BlockMappingValue => BlockMappingValueSpends(c);
    case IndentlessSequenceEntry => IndentlessSpends(c);
    case FlowSequenceFirstEntry => FlowSequenceSpends(c, true);
    case FlowSequenceEntry => FlowSequenceSpends(c, false);
    case FlowMappingFirstKey => FlowMappingSpends(c, true);
    case FlowMappingKey => FlowMappingSpends(c, false);
    case FlowMappingValue => FlowValueSpends(c);
    case FlowMappingEmptyValue => FlowValueSpends(c);
    case FlowSequenceEntryMappingKey => PairSpends(c);
    case FlowSequenceEntryMappingValue => PairSpends(c);
    case FlowSequenceEntryMappingEnd => PairSpends(c);
    case _ => SmallSpend(c);
  }

  // ---------------------------------------------------------------- whole runs

  /** A run that has come to its end: the stream has ended, or there is an error. */
  ghost predicate Stopped(c: Config)
    requires Valid(c)
  {
    c.state.End? || !Step(c).Emit?
  }

  /** The parser stops, having emitted a bounded number of events, and with an error unless the stream has ended. */
  lemma {:induction false} RunStops(c: Config, n: nat)
    requires Valid(c) && n >= Stock(c)
    ensures Valid(Run(c, n).1) && Stopped(Run(c, n).1) && |Run(c, n).0| <= Stock(c)
    ensures EndAhead(c.toks) ==> Run(c, n).1.state.End? || Step(Run(c, n).1).Failed?
    decreases n
  {
    hide Step, Valid, Stock, EndAhead;
    if !c.state.End? {
      StepSpends(c);
      StepFollows(c);
      if Step(c).Emit? {
        RunStops(Step(c).next, n - 1);
      }
    }
  }
}
