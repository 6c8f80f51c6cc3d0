/**
 The parser over its documented token grammar: it emits the events of the derivation and
 finishes, exactly when no block mapping entry is without its KEY and no pair with an empty key
 inside a flow sequence gets in its way.
 */
module ParserCompleteness {
  import opened ParserModel
  import opened ParserSoundness
  import opened ParserBrackets
  import opened Derivations
  import opened ParserRuns

  /** The first token of a node tells it apart from everything that can follow a node. */
  lemma FirstToken(n: Node, block: bool, indentless: bool, dirs: seq<Directive>)
    requires Good(n, block, indentless, dirs)
    ensures Tokens(n) != [] && (!Closer(Tokens(n)[0]) || (indentless && Tokens(n)[0].TBlockEntry?))
  {
    hide PropertyTokens, GoodItems, GoodEntries, GoodParts, EntryTokens, PartTokens, ResolveTag;
    if !n.Alias? {
      FirstProperty(n.props, dirs);
    }
  }

  lemma FirstProperty(p: Properties, dirs: seq<Directive>)
    ensures PropertyTokens(p) != [] ==> !Closer(PropertyTokens(p)[0])
    ensures PropertyTokens(p) == [] ==> p.anchor == "" && TagText(dirs, p) == ""
  {
  }

  /** Where an optional node may stand: either it is there, or its slot is filled by an empty scalar. */
  ghost function Slot(n: Node, e: Config, s: State, block: bool, indentless: bool): Result
    requires Valid(e) && e.states != [] && Return(s) && Marked(s) == Marked(e.state)
  {
    if n.Absent? then Emit(EmptyScalar, Goto(e, s)) else ParseNode(Push(e, s), block, indentless)
  }

  lemma SlotReady(e: Config)
    requires Valid(e) && e.states != []
    ensures ValidStack(e.states) && |e.marks| == Marked(e.state) + MarkedBelow(e.states)
  {
  }

  lemma PushTight(e: Config, s: State)
    requires Valid(e) && e.states != [] && Return(s) && Marked(s) == Marked(e.state) && Open(s) == Open(e.state)
    requires Tight(e)
    ensures NodeTight(Push(e, s))
  {
    PushSpare(e, s);
  }

  lemma {:induction false} SlotFate(n: Node, e: Config, s: State, block: bool, indentless: bool, rest: seq<Token>)
    requires Valid(e) && e.states != [] && Return(s) && Marked(s) == Marked(e.state) && Open(s) == Open(e.state)
    requires Tight(e)
    requires GoodOptional(n, block, indentless, e.dirs)
    requires e.toks == Tokens(n) + rest && rest != [] && Closer(rest[0]) && (indentless ==> EndsMappingPart(rest[0]))
    ensures ResultFate(Keyed(n), Slot(n, e, s, block, indentless), Events(n, e.dirs), e.(state := s, toks := rest))
    decreases n, 2
  {
    hide ParseNode, Valid, Good, Step, Tight, NodeTight, Doomed;
    if n.Absent? {
      assert e.toks == rest;
      EmitFate(true, EmptyScalar, e.(state := s), [], e.(state := s, toks := rest));
      assert [EmptyScalar] + [] == [EmptyScalar];
    } else {
      SlotReady(e);
      PushTight(e, s);
      NodeFate(n, Push(e, s), block, indentless, rest);
      PopPush(e, s, rest);
    }
  }

  /** Outside first-entry states, the tokens left do not matter for validity. */
  lemma Retoken(c: Config, toks: seq<Token>)
    requires Valid(c) && StartToken(c.state, [])
    ensures Valid(c.(toks := toks)) && (!Outer(c.state) ==> c.states != [])
  {
  }

  /** A collection left: its mark dropped, and back to the caller. */
  ghost function Left(c: Config, rest: seq<Token>): Config
    requires Valid(c) && Marked(c.state) == 1
  {
    Pop(c.(marks := c.marks[..|c.marks| - 1], toks := rest))
  }

  lemma {:induction false} NodeFate(n: Node, c: Config, block: bool, indentless: bool, rest: seq<Token>)
    requires NodeReady(c) && Good(n, block, indentless, c.dirs) && NodeTight(c)
    requires c.toks == Tokens(n) + rest && rest != [] && Closer(rest[0]) && (indentless ==> EndsMappingPart(rest[0]))
    ensures ResultFate(Keyed(n), ParseNode(c, block, indentless), Events(n, c.dirs), Pop(c.(toks := rest)))
    decreases n, 1
  {
    hide ParseNode, ResolveTag, Valid, ValidStack, Step, PropertyTokens, GoodItems, GoodEntries, GoodParts;
    hide NodeTight, Doomed;
    match n
    case Alias(name) => AliasParses(c, block, indentless, rest);
    case Atom(p, value, style) => AtomParses(n, c, block, indentless, rest);
    case Bare(p) => AtomParses(n, c, block, indentless, rest);
    case BlockSequence(p, items) => BlockSequenceFate(p, items, c, block, indentless, rest);
    case Indentless(p, items) => IndentlessFate(p, items, c, block, indentless, rest);
    case BlockMapping(p, entries) => BlockMappingFate(p, entries, c, block, indentless, rest);
    case FlowSequence(p, parts) => FlowSequenceFate(p, parts, c, block, indentless, rest);
    case FlowMapping(p, parts) => FlowMappingFate(p, parts, c, block, indentless, rest);
  }

  lemma AtomParses(n: Node, c: Config, block: bool, indentless: bool, rest: seq<Token>)
    requires NodeReady(c) && Good(n, block, indentless, c.dirs) && (n.Atom? || n.Bare?)
    requires c.toks == Tokens(n) + rest && rest != [] && Closer(rest[0]) && (indentless ==> EndsMappingPart(rest[0]))
    ensures |Events(n, c.dirs)| == 1
    ensures ParseNode(c, block, indentless) == Emit(Events(n, c.dirs)[0], Pop(c.(toks := rest)))
  {
    hide ParseNode, ResolveTag, Valid, ValidStack, PropertyTokens;
    if n.Atom? {
      var t := TScalar(n.value, n.style);
      assert Tokens(n) + rest == PropertyTokens(n.props) + ([t] + rest);
      NodeContent(c, n.props, [t] + rest, block, indentless);
      assert ([t] + rest)[1..] == rest;
    } else {
      NodeContent(c, n.props, rest, block, indentless);
    }
  }

  lemma AliasParses(c: Config, block: bool, indentless: bool, rest: seq<Token>)
    requires NodeReady(c) && c.toks != [] && c.toks[0].TAlias? && c.toks[1..] == rest
    ensures ParseNode(c, block, indentless) == Emit(EAlias(c.toks[0].name), Pop(c.(toks := rest)))
  {
  }

  // ---------------------------------------------------------------- collections in general

  predicate StartOf(t: Token, first: State, s: State) {
    || (t.TBlockSequenceStart? && first.BlockSequenceFirstEntry? && s.BlockSequenceEntry?)
    || (t.TBlockMappingStart? && first.BlockMappingFirstKey? && s.BlockMappingKey?)
    || (t.TFlowSequenceStart? && first.FlowSequenceFirstEntry? && s.FlowSequenceEntry?)
    || (t.TFlowMappingStart? && first.FlowMappingFirstKey? && s.FlowMappingKey?)
  }

  /** From the start event of a collection to its inside. */
  lemma Entered(p: Properties, t: Token, inner: seq<Token>, c: Config, block: bool, indentless: bool, first: State,
        s: State, e: Event) returns (d: Config)
    requires NodeReady(c) && NodeTight(c) && GoodProps(p, c.dirs) && StartOf(t, first, s)
    requires c.toks == PropertyTokens(p) + ([t] + inner)
    requires ContentOf(t, p.anchor, TagText(c.dirs, p), block, indentless) == Collection(e, first)
    ensures d == c.(toks := [t] + inner, state := first) && Valid(d) && ParseNode(c, block, indentless) == Emit(e, d)
    ensures d.toks[1..] == inner && d.states != []
    ensures var in_ := Enter(d, s);
            && Tight(in_) && in_.toks == inner && in_.dirs == c.dirs && in_.state == s && Valid(in_)
            && forall rest: seq<Token> :: Left(in_, rest) == Pop(c.(toks := rest))
  {
    hide ParseNode, ContentOf, ValidStack, PropertyTokens, MarkedBelow, OpenBelow, EndIsLast, TagText;
    NodeContent(c, p, [t] + inner, block, indentless);
    NodeFollows(c, block, indentless);
    d := c.(toks := [t] + inner, state := first);
    assert d.toks[1..] == inner;
    var in_ := Enter(d, s);
    assert in_.marks[..|in_.marks| - 1] == c.marks;
    PropertiesBalanced(p);
    TightAfter(c, PropertyTokens(p), [t] + inner);
    BalanceAppend([t], inner);
    EndIsLastTail(d.toks);
  }

  lemma EndIsLastTail(toks: seq<Token>)
    requires toks != [] && EndIsLast(toks)
    ensures EndIsLast(toks[1..])
  {
    forall i | 0 <= i < |toks[1..]| && toks[1..][i].TStreamEnd? ensures i == |toks[1..]| - 1 {
      assert toks[i + 1].TStreamEnd?;
    }
  }

  // ---------------------------------------------------------------- block sequences

  /** In a block collection the first entry is parsed like the others. */
  lemma FirstIsNext(good: bool, d: Config, s: State, events: seq<Event>, last: Config)
    requires Valid(d)
    requires ((d.state.BlockSequenceFirstEntry? && s.BlockSequenceEntry?)
        || (d.state.BlockMappingFirstKey? && s.BlockMappingKey?))
    requires d.toks != [] && d.states != [] && Fate(good, Enter(d, s), events, last) && events != []
    ensures Fate(good, d, events, last)
  {
    var e := Enter(d, s);
    FirstIsSame(d, s);
    if !good {
      forall n: nat ensures !Run(d, n).1.state.End? {
        assert !Run(e, n).1.state.End?;
        SameRun(d, e, n);
      }
    }
  }

  lemma SameRun(d: Config, e: Config, n: nat)
    requires Valid(d) && Valid(e) && !d.state.End? && !e.state.End? && Step(d) == Step(e)
    ensures Run(d, n).1.state.End? == Run(e, n).1.state.End?
  {
    hide Step, Valid;
  }

  lemma {:induction false} BlockSequenceFate(p: Properties, items: Items, c: Config, block: bool, indentless: bool,
        rest: seq<Token>)
    requires NodeReady(c) && NodeTight(c) && block && GoodProps(p, c.dirs) && GoodItems(items, c.dirs)
    requires c.toks == PropertyTokens(p) + ([TBlockSequenceStart] + (ItemTokens(items) + [TBlockEnd])) + rest
    requires rest != []
    ensures ResultFate(KeyedItems(items), ParseNode(c, block, indentless), Events(BlockSequence(p, items), c.dirs),
        Pop(c.(toks := rest)))
    decreases items, 3
  {
    hide ParseNode, Step, Valid, ValidStack, PropertyTokens, GoodItems, KeyedItems, ItemTokens, Fate;
    hide ResultFate, Tight, NodeTight, ItemEvents;
    var inner := ItemTokens(items) + ([TBlockEnd] + rest);
    assert c.toks == PropertyTokens(p) + ([TBlockSequenceStart] + inner);
    var ev, events := SequenceEvent(p, c.dirs, false), ItemEvents(items, c.dirs) + [ESequenceEnd];
    var d := Entered(p, TBlockSequenceStart, inner, c, block, indentless, BlockSequenceFirstEntry, BlockSequenceEntry,
          ev);
    ItemsFate(items, Enter(d, BlockSequenceEntry), rest);
    FirstIsNext(KeyedItems(items), d, BlockSequenceEntry, events, Pop(c.(toks := rest)));
    EmitFate(KeyedItems(items), ev, d, events, Pop(c.(toks := rest)));
  }

  lemma {:induction false} ItemsFate(items: Items, c: Config, rest: seq<Token>)
    requires Valid(c) && c.state.BlockSequenceEntry? && GoodItems(items, c.dirs) && Tight(c)
    requires c.toks == ItemTokens(items) + ([TBlockEnd] + rest)
    ensures Fate(KeyedItems(items), c, ItemEvents(items, c.dirs) + [ESequenceEnd], Left(c, rest))
    decreases items, 2
  {
    hide ParseNode, Valid, Tokens, Good, Step, Fate, ResultFate, Keyed, Tight;
    match items
    case NoItem =>
      assert c.toks == [TBlockEnd] + rest && c.toks[1..] == rest;
      SequenceEnds(c, rest);
      assert [] + [ESequenceEnd] == [ESequenceEnd];
    case Item(n, more) =>
      var tail := ItemTokens(more) + ([TBlockEnd] + rest);
      var e, next := Skip(c), c.(toks := tail);
      assert c.toks == [TBlockEntry] + (Tokens(n) + tail) && e.toks == Tokens(n) + tail;
      NodeBalanced(n);
      Retoken(c, e.toks);
      Retoken(c, tail);
      TightAfter(c, [TBlockEntry], Tokens(n) + tail);
      TightAfter(e, Tokens(n), tail);
      ItemStep(n, c, tail);
      SlotFate(n, e, BlockSequenceEntry, true, false, tail);
      FirstFate(Keyed(n), c, Events(n, c.dirs), next);
      ItemsFate(more, next, rest);
      ThenFate(Keyed(n), c, Events(n, c.dirs), next, KeyedItems(more), ItemEvents(more, c.dirs) + [ESequenceEnd],
            Left(c, rest));
      assert Events(n, c.dirs) + (ItemEvents(more, c.dirs) + [ESequenceEnd])
          == ItemEvents(items, c.dirs) + [ESequenceEnd];
  }

  lemma SequenceEnds(c: Config, rest: seq<Token>)
    requires Valid(c) && c.state.BlockSequenceEntry? && c.toks != [] && c.toks[0].TBlockEnd? && c.toks[1..] == rest
    ensures Fate(true, c, [ESequenceEnd], Left(c, rest))
  {
    assert Step(c) == Emit(ESequenceEnd, Left(c, rest));
  }

  lemma ItemStep(n: Node, c: Config, tail: seq<Token>)
    requires Valid(c) && c.state.BlockSequenceEntry? && GoodOptional(n, true, false, c.dirs)
    requires c.toks == [TBlockEntry] + (Tokens(n) + tail) && tail != [] && (tail[0].TBlockEntry? || tail[0].TBlockEnd?)
    ensures Step(c) == Slot(n, Skip(c), BlockSequenceEntry, true, false)
  {
    hide ParseNode, Good;
    assert c.toks[1..] == Tokens(n) + tail;
    if !n.Absent? {
      FirstToken(n, true, false, c.dirs);
    }
  }

  // ---------------------------------------------------------------- indentless sequences

  lemma {:induction false} IndentlessFate(p: Properties, items: Items, c: Config, block: bool, indentless: bool,
        rest: seq<Token>)
    requires NodeReady(c) && NodeTight(c) && indentless && GoodProps(p, c.dirs) && items.Item?
    requires GoodItems(items, c.dirs)
    requires c.toks == PropertyTokens(p) + ItemTokens(items) + rest && rest != [] && EndsMappingPart(rest[0])
    ensures ResultFate(KeyedItems(items), ParseNode(c, block, indentless), Events(Indentless(p, items), c.dirs),
        Pop(c.(toks := rest)))
    decreases items, 3
  {
    hide ParseNode, GoodItems, KeyedItems, Fate, ResultFate, ItemEvents, NodeTight, Tight, Valid;
    var inner := ItemTokens(items) + rest;
    assert c.toks == PropertyTokens(p) + inner && inner[0] == TBlockEntry;
    var d := IndentlessEntered(p, inner, c, block);
    IndentlessItemsFate(items, d, rest);
    var events := ItemEvents(items, c.dirs) + [ESequenceEnd];
    EmitFate(KeyedItems(items), SequenceEvent(p, c.dirs, false), d, events, Pop(c.(toks := rest)));
  }

  /** Into an indentless sequence, which has no start token of its own. */
  lemma IndentlessEntered(p: Properties, inner: seq<Token>, c: Config, block: bool) returns (d: Config)
    requires NodeReady(c) && NodeTight(c) && GoodProps(p, c.dirs) && inner != [] && inner[0].TBlockEntry?
    requires c.toks == PropertyTokens(p) + inner
    ensures d == c.(toks := inner, state := IndentlessSequenceEntry) && Valid(d) && Tight(d)
    ensures ParseNode(c, block, true) == Emit(SequenceEvent(p, c.dirs, false), d)
  {
    hide ParseNode, ValidStack, PropertyTokens, OpenBelow, MarkedBelow, EndIsLast, Balance;
    NodeContent(c, p, inner, block, true);
    NodeFollows(c, block, true);
    d := c.(toks := inner, state := IndentlessSequenceEntry);
    PropertiesBalanced(p);
    TightAfter(c, PropertyTokens(p), inner);
  }

  lemma {:induction false} IndentlessItemsFate(items: Items, c: Config, rest: seq<Token>)
    requires Valid(c) && c.state.IndentlessSequenceEntry? && GoodItems(items, c.dirs) && Tight(c)
    requires c.toks == ItemTokens(items) + rest && rest != [] && EndsMappingPart(rest[0])
    ensures Fate(KeyedItems(items), c, ItemEvents(items, c.dirs) + [ESequenceEnd], Pop(c.(toks := rest)))
    decreases items, 2
  {
    hide ParseNode, Tokens, Good, Step, Fate, ResultFate, Keyed, Tight, ValidStack, MarkedBelow;
    match items
    case NoItem =>
      assert c.toks == rest;
      IndentlessEnds(c);
      assert [] + [ESequenceEnd] == [ESequenceEnd];
    case Item(n, more) =>
      var tail := ItemTokens(more) + rest;
      var e, next := Skip(c), c.(toks := tail);
      assert c.toks == [TBlockEntry] + (Tokens(n) + tail) && e.toks == Tokens(n) + tail;
      NodeBalanced(n);
      TightAfter(c, [TBlockEntry], Tokens(n) + tail);
      TightAfter(e, Tokens(n), tail);
      IndentlessStep(n, c, tail);
      SlotFate(n, e, IndentlessSequenceEntry, true, false, tail);
      FirstFate(Keyed(n), c, Events(n, c.dirs), next);
      IndentlessItemsFate(more, next, rest);
      ThenFate(Keyed(n), c, Events(n, c.dirs), next, KeyedItems(more), ItemEvents(more, c.dirs) + [ESequenceEnd],
            Pop(c.(toks := rest)));
      assert Events(n, c.dirs) + (ItemEvents(more, c.dirs) + [ESequenceEnd])
          == ItemEvents(items, c.dirs) + [ESequenceEnd];
  }

  lemma IndentlessEnds(c: Config)
    requires Valid(c) && c.state.IndentlessSequenceEntry? && c.toks != [] && !c.toks[0].TBlockEntry?
    ensures Fate(true, c, [ESequenceEnd], Pop(c))
  {
    assert Step(c) == Emit(ESequenceEnd, Pop(c));
  }

  lemma IndentlessStep(n: Node, c: Config, tail: seq<Token>)
    requires Valid(c) && c.state.IndentlessSequenceEntry? && GoodOptional(n, true, false, c.dirs)
    requires c.toks == [TBlockEntry] + (Tokens(n) + tail) && tail != []
    requires tail[0].TBlockEntry? || EndsMappingPart(tail[0])
    ensures Step(c) == Slot(n, Skip(c), IndentlessSequenceEntry, true, false)
  {
    hide ParseNode, Good;
    assert c.toks[1..] == Tokens(n) + tail;
    if !n.Absent? {
      FirstToken(n, true, false, c.dirs);
    }
  }

  // ---------------------------------------------------------------- block mappings

  lemma {:induction false} BlockMappingFate(p: Properties, entries: Entries, c: Config, block: bool, indentless: bool,
        rest: seq<Token>)
    requires NodeReady(c) && NodeTight(c) && block && GoodProps(p, c.dirs) && GoodEntries(entries, c.dirs)
    requires c.toks == PropertyTokens(p) + ([TBlockMappingStart] + (EntryTokens(entries) + [TBlockEnd])) + rest
    requires rest != []
    ensures ResultFate(KeyedEntries(entries), ParseNode(c, block, indentless),
                       Events(BlockMapping(p, entries), c.dirs), Pop(c.(toks := rest)))
    decreases entries, 3
  {
    hide ParseNode, Step, Valid, ValidStack, PropertyTokens, GoodEntries, KeyedEntries, EntryTokens, Fate;
    hide ResultFate, Tight, NodeTight, EntryEvents;
    var inner := EntryTokens(entries) + ([TBlockEnd] + rest);
    assert c.toks == PropertyTokens(p) + ([TBlockMappingStart] + inner);
    var ev, events := MappingEvent(p, c.dirs, false), EntryEvents(entries, c.dirs) + [EMappingEnd];
    var d := Entered(p, TBlockMappingStart, inner, c, block, indentless, BlockMappingFirstKey, BlockMappingKey, ev);
    EntriesFate(entries, Enter(d, BlockMappingKey), rest);
    FirstIsNext(KeyedEntries(entries), d, BlockMappingKey, events, Pop(c.(toks := rest)));
    EmitFate(KeyedEntries(entries), ev, d, events, Pop(c.(toks := rest)));
  }

  lemma {:induction false} EntriesFate(entries: Entries, c: Config, rest: seq<Token>)
    requires Valid(c) && c.state.BlockMappingKey? && GoodEntries(entries, c.dirs) && Tight(c)
    requires c.toks == EntryTokens(entries) + ([TBlockEnd] + rest)
    ensures Fate(KeyedEntries(entries), c, EntryEvents(entries, c.dirs) + [EMappingEnd], Left(c, rest))
    decreases entries, 2
  {
    hide ParseNode, Valid, Tokens, Good, Step, Fate, ResultFate, Keyed, KeyedValue, Tight, ValueTokens;
    hide GoodValue, GoodOptional;
    match entries
    case NoEntry =>
      assert c.toks == [TBlockEnd] + rest && c.toks[1..] == rest;
      MappingEnds(c, rest);
      assert [] + [EMappingEnd] == [EMappingEnd];
    case Entry(k, v, more) =>
      var tail := EntryTokens(more) + ([TBlockEnd] + rest);
      var next, last := c.(toks := tail), Left(c, rest);
      assert c.toks == [TKey] + (Tokens(k) + (ValueTokens(v) + tail));
      Retoken(c, tail);
      EntryFate(entries, c, tail);
      EntriesFate(more, next, rest);
      var ke, ve, me := Events(k, c.dirs), ValueEvents(v, c.dirs), EntryEvents(more, c.dirs) + [EMappingEnd];
      ThenFate(Keyed(k) && KeyedValue(v), c, ke + ve, next, KeyedEntries(more), me, last);
      assert ke + ve + me == EntryEvents(entries, c.dirs) + [EMappingEnd];
    case Keyless(n, more) =>
      assert c.toks[0] == TValue;
      KeylessFate(c, EntryEvents(entries, c.dirs) + [EMappingEnd], Left(c, rest));
  }

  lemma KeylessFate(c: Config, events: seq<Event>, last: Config)
    requires Valid(c) && c.state.BlockMappingKey? && c.toks != [] && c.toks[0].TValue?
    ensures Fate(false, c, events, last)
  {
    assert Step(c).Failed?;
    DoomedStep(c);
  }

  lemma {:induction false} EntryFate(entries: Entries, c: Config, tail: seq<Token>)
    requires entries.Entry? && Valid(c) && c.state.BlockMappingKey? && GoodEntries(entries, c.dirs) && Tight(c)
    requires c.toks == [TKey] + (Tokens(entries.key) + (ValueTokens(entries.value) + tail))
    requires tail != [] && EndsMappingPart(tail[0]) && (tail[0].TValue? ==> entries.value.HasValue?)
    ensures Tight(c.(toks := tail))
    ensures Fate(Keyed(entries.key) && KeyedValue(entries.value), c,
                 Events(entries.key, c.dirs) + ValueEvents(entries.value, c.dirs), c.(toks := tail))
    decreases entries, 1
  {
    hide ParseNode, Tokens, Good, Step, Fate, ResultFate, Keyed, Tight, GoodOptional, ValidStack, MarkedBelow;
    var k, v := entries.key, entries.value;
    var vt := ValueTokens(v) + tail;
    var e := Skip(c);
    var m := c.(state := BlockMappingValue, toks := vt);
    assert e.toks == Tokens(k) + vt;
    NodeBalanced(k);
    ValueBalanced(v);
    TightAfter(c, [TKey], Tokens(k) + vt);
    TightAfter(e, Tokens(k), vt);
    TightAfter(c.(toks := vt), ValueTokens(v), tail);
    StateTight(c.(toks := vt), BlockMappingValue);
    KeyStep(k, c, vt);
    SlotFate(k, e, BlockMappingValue, true, true, vt);
    FirstFate(Keyed(k), c, Events(k, c.dirs), m);
    ValueFate(v, m, tail);
    ThenFate(Keyed(k), c, Events(k, c.dirs), m, KeyedValue(v), ValueEvents(v, c.dirs), c.(toks := tail));
  }

  lemma StateTight(c: Config, s: State)
    requires Open(s) == Open(c.state) && Tight(c)
    ensures Tight(c.(state := s))
  {
  }

  lemma {:induction false} ValueFate(v: Value, c: Config, tail: seq<Token>)
    requires Valid(c) && c.state.BlockMappingValue? && GoodValue(v, true, c.dirs) && Tight(c)
    requires c.toks == ValueTokens(v) + tail && tail != [] && EndsMappingPart(tail[0])
    requires (tail[0].TValue? ==> v.HasValue?)
    ensures Fate(KeyedValue(v), c, ValueEvents(v, c.dirs), c.(state := BlockMappingKey, toks := tail))
    decreases v, 3
  {
    hide ParseNode, Tokens, Good, Step, Fate, ResultFate, Keyed, Tight, GoodOptional, ValidStack, MarkedBelow;
    match v
    case NoValue =>
      assert c.toks == tail;
      NoValueStep(c);
    case HasValue(n) =>
      var e := Skip(c);
      assert c.toks == [TValue] + (Tokens(n) + tail) && e.toks == Tokens(n) + tail;
      TightAfter(c, [TValue], Tokens(n) + tail);
      ValueStep(n, c, tail);
      SlotFate(n, e, BlockMappingKey, true, true, tail);
      FirstFate(Keyed(n), c, Events(n, c.dirs), c.(state := BlockMappingKey, toks := tail));
  }

  lemma NoValueStep(c: Config)
    requires Valid(c) && c.state.BlockMappingValue? && c.toks != [] && !c.toks[0].TValue?
    ensures Fate(true, c, [EmptyScalar], c.(state := BlockMappingKey))
  {
    assert Step(c) == Emit(EmptyScalar, c.(state := BlockMappingKey));
  }

  lemma MappingEnds(c: Config, rest: seq<Token>)
    requires Valid(c) && c.state.BlockMappingKey? && c.toks != [] && c.toks[0].TBlockEnd? && c.toks[1..] == rest
    ensures Fate(true, c, [EMappingEnd], Left(c, rest))
  {
    assert Step(c) == Emit(EMappingEnd, Left(c, rest));
  }

  lemma KeyStep(n: Node, c: Config, tail: seq<Token>)
    requires Valid(c) && c.state.BlockMappingKey? && GoodOptional(n, true, true, c.dirs)
    requires c.toks == [TKey] + (Tokens(n) + tail) && tail != [] && EndsMappingPart(tail[0])
    ensures Step(c) == Slot(n, Skip(c), BlockMappingValue, true, true)
  {
    hide ParseNode, Good;
    assert c.toks[1..] == Tokens(n) + tail;
    if !n.Absent? {
      FirstToken(n, true, true, c.dirs);
    }
  }

  lemma ValueStep(n: Node, c: Config, tail: seq<Token>)
    requires Valid(c) && c.state.BlockMappingValue? && GoodOptional(n, true, true, c.dirs)
    requires c.toks == [TValue] + (Tokens(n) + tail) && tail != [] && EndsMappingPart(tail[0])
    ensures Step(c) == Slot(n, Skip(c), BlockMappingKey, true, true)
  {
    hide ParseNode, Good;
    assert c.toks[1..] == Tokens(n) + tail;
    if !n.Absent? {
      FirstToken(n, true, true, c.dirs);
    }
  }

  // ---------------------------------------------------------------- flow mappings

  lemma {:induction false} FlowMappingFate(p: Properties, parts: Parts, c: Config, block: bool, indentless: bool,
        rest: seq<Token>)
    requires NodeReady(c) && NodeTight(c) && GoodProps(p, c.dirs) && GoodParts(parts, c.dirs)
    requires c.toks == PropertyTokens(p) + ([TFlowMappingStart] + (PartTokens(parts) + [TFlowMappingEnd])) + rest
    requires rest != []
    ensures ResultFate(KeyedParts(parts, false), ParseNode(c, block, indentless),
                       Events(FlowMapping(p, parts), c.dirs), Pop(c.(toks := rest)))
    decreases parts, 3
  {
    hide ParseNode, Valid, ValidStack, PropertyTokens, GoodParts, KeyedParts, PartTokens, Fate, ResultFate;
    hide Tight, NodeTight, MappingPartEvents, FlowMappingEntry;
    var inner := PartTokens(parts) + ([TFlowMappingEnd] + rest);
    assert c.toks == PropertyTokens(p) + ([TFlowMappingStart] + inner);
    var ev, events, last := MappingEvent(p, c.dirs, true), MappingPartEvents(parts, c.dirs) + [EMappingEnd],
          Pop(c.(toks := rest));
    var d := Entered(p, TFlowMappingStart, inner, c, block, indentless, FlowMappingFirstKey, FlowMappingKey, ev);
    MappingPartsFate(parts, Enter(d, FlowMappingKey), rest);
    assert Step(d) == FlowMappingEntry(Enter(d, FlowMappingKey));
    FirstFate(KeyedParts(parts, false), d, events, last);
    EmitFate(KeyedParts(parts, false), ev, d, events, last);
  }

  /** What follows a part: a separator or the end of the collection. */
  function AfterPart(comma: bool, more: Parts, end: Token, rest: seq<Token>): seq<Token> {
    (if comma then [TFlowEntry] else []) + (PartTokens(more) + ([end] + rest))
  }

  predicate KeyedPart(part: Part) {
    match part
    case Single(n) => Keyed(n)
    case Pair(k, v) => Keyed(k) && KeyedValue(v)
  }

  function MappingPartEvent(part: Part, dirs: seq<Directive>): seq<Event> {
    match part
    case Single(n) => Events(n, dirs) + [EmptyScalar]
    case Pair(k, v) => Events(k, dirs) + ValueEvents(v, dirs)
  }

  lemma {:induction false} MappingPartsFate(parts: Parts, c: Config, rest: seq<Token>)
    requires Valid(c) && c.state.FlowMappingKey? && GoodParts(parts, c.dirs) && Tight(c)
    requires c.toks == PartTokens(parts) + ([TFlowMappingEnd] + rest)
    ensures ResultFate(KeyedParts(parts, false), FlowMappingEntry(c),
                       MappingPartEvents(parts, c.dirs) + [EMappingEnd], Left(c, rest))
    decreases parts, 2
  {
    hide ParseNode, Valid, Tokens, Good, Fate, ResultFate, Keyed, Tight, FlowMappingEntry, OnePartTokens, KeyedPart;
    match parts
    case NoPart =>
      assert c.toks == [TFlowMappingEnd] + rest && c.toks[1..] == rest;
      FlowMappingEnds(c, rest);
      assert [] + [EMappingEnd] == [EMappingEnd];
    case More(part, comma, more) =>
      var after, tail := PartTokens(more) + ([TFlowMappingEnd] + rest), AfterPart(comma, more, TFlowMappingEnd, rest);
      var next, item, last := c.(toks := tail), c.(toks := after), Left(c, rest);
      assert c.toks == OnePartTokens(part) + tail;
      PartBalanced(part);
      TightAfter(c, OnePartTokens(part), tail);
      TightAfter(next, if comma then [TFlowEntry] else [], after);
      Retoken(c, tail);
      Retoken(c, after);
      MappingPartFate(parts, c, tail);
      MappingPartsFate(more, item, rest);
      MappingSeparator(comma, next, after);
      var pe, me := MappingPartEvent(part, c.dirs), MappingPartEvents(more, c.dirs) + [EMappingEnd];
      FirstFate(KeyedParts(more, false), next, me, last);
      ResultThenFate(KeyedPart(part), FlowMappingEntry(c), pe, next, KeyedParts(more, false), me, last);
      assert pe + me == MappingPartEvents(parts, c.dirs) + [EMappingEnd];
      KeyedMore(parts, false);
  }

  lemma KeyedMore(parts: Parts, inSequence: bool)
    requires parts.More? && (inSequence ==> HarmlessPair(parts.part, parts.comma, parts.more))
    ensures KeyedParts(parts, inSequence) == (KeyedPart(parts.part) && KeyedParts(parts.more, inSequence))
  {
  }

  lemma MappingSeparator(comma: bool, next: Config, after: seq<Token>)
    requires Valid(next) && next.state.FlowMappingKey? && after != []
    requires next.toks == (if comma then [TFlowEntry] else []) + after && (!comma ==> after[0] == TFlowMappingEnd)
    ensures Valid(next.(toks := after)) && Step(next) == FlowMappingEntry(next.(toks := after))
  {
    hide FlowMappingEntry;
    if comma {
      assert next.toks[1..] == after;
    } else {
      assert next.toks == after;
    }
  }

  lemma FlowMappingEnds(c: Config, rest: seq<Token>)
    requires Valid(c) && c.state.FlowMappingKey? && c.toks != [] && c.toks[0].TFlowMappingEnd? && c.toks[1..] == rest
    ensures ResultFate(true, FlowMappingEntry(c), [EMappingEnd], Left(c, rest))
  {
    assert FlowMappingEntry(c) == Emit(EMappingEnd, Left(c, rest));
  }

  predicate EndsMappingPair(t: Token) { t.TFlowEntry? || t.TFlowMappingEnd? }

  lemma {:induction false} MappingPartFate(parts: Parts, c: Config, tail: seq<Token>)
    requires parts.More? && Valid(c) && c.state.FlowMappingKey? && GoodParts(parts, c.dirs) && Tight(c)
    requires c.toks == OnePartTokens(parts.part) + tail && tail != [] && EndsMappingPair(tail[0])
    ensures ResultFate(KeyedPart(parts.part), FlowMappingEntry(c), MappingPartEvent(parts.part, c.dirs),
        c.(toks := tail))
    decreases parts, 1
  {
    hide ParseNode, Tokens, Good, Step, Fate, ResultFate, Keyed, Tight, FlowMappingEntry, ValidStack, MarkedBelow;
    match parts.part
    case Single(n) =>
      var m := c.(state := FlowMappingEmptyValue, toks := tail);
      MappingSingleStep(n, c, tail);
      SlotFate(n, c, FlowMappingEmptyValue, false, false, tail);
      EmptyValueStep(m);
      ResultThenFate(Keyed(n), FlowMappingEntry(c), Events(n, c.dirs), m, true, [EmptyScalar], c.(toks := tail));
    case Pair(k, v) =>
      var vt := ValueTokens(v) + tail;
      var m := c.(state := FlowMappingValue, toks := vt);
      PairTight(k, c, vt);
      MappingKeyStep(k, c, vt);
      SlotFate(k, Skip(c), FlowMappingValue, false, false, vt);
      FlowValueFate(v, m, tail);
      ResultThenFate(Keyed(k), FlowMappingEntry(c), Events(k, c.dirs), m, KeyedValue(v), ValueEvents(v, c.dirs),
            c.(toks := tail));
  }

  /** The brackets still match at the key and behind it. */
  lemma PairTight(k: Node, c: Config, vt: seq<Token>)
    requires Valid(c) && c.state.FlowMappingKey? && c.states != [] && Tight(c) && c.toks == [TKey] + (Tokens(k) + vt)
    requires vt != []
    ensures Valid(Skip(c)) && Skip(c).toks == Tokens(k) + vt && Tight(Skip(c))
    ensures Tight(c.(state := FlowMappingValue, toks := vt)) && Valid(c.(state := FlowMappingValue, toks := vt))
  {
    hide Tokens, Tight, ValidStack, MarkedBelow;
    var e := Skip(c);
    assert e.toks == Tokens(k) + vt;
    NodeBalanced(k);
    TightAfter(c, [TKey], Tokens(k) + vt);
    TightAfter(e, Tokens(k), vt);
    StateTight(c.(toks := vt), FlowMappingValue);
  }

  lemma MappingSingleStep(n: Node, c: Config, tail: seq<Token>)
    requires Valid(c) && c.state.FlowMappingKey? && c.states != [] && Good(n, false, false, c.dirs)
    requires c.toks == Tokens(n) + tail
    ensures FlowMappingEntry(c) == Slot(n, c, FlowMappingEmptyValue, false, false)
  {
    hide ParseNode;
    FirstToken(n, false, false, c.dirs);
  }

  lemma EmptyValueStep(c: Config)
    requires Valid(c) && c.state.FlowMappingEmptyValue? && c.toks != []
    ensures Fate(true, c, [EmptyScalar], c.(state := FlowMappingKey))
  {
    assert Step(c) == Emit(EmptyScalar, c.(state := FlowMappingKey));
  }

  lemma MappingKeyStep(n: Node, c: Config, tail: seq<Token>)
    requires Valid(c) && c.state.FlowMappingKey? && GoodOptional(n, false, false, c.dirs)
    requires c.toks == [TKey] + (Tokens(n) + tail) && tail != [] && (tail[0].TValue? || EndsMappingPair(tail[0]))
    ensures FlowMappingEntry(c) == Slot(n, Skip(c), FlowMappingValue, false, false)
  {
    hide ParseNode, Good;
    assert c.toks[1..] == Tokens(n) + tail;
    if !n.Absent? {
      FirstToken(n, false, false, c.dirs);
    }
  }

  lemma {:induction false} FlowValueFate(v: Value, c: Config, tail: seq<Token>)
    requires Valid(c) && c.state.FlowMappingValue? && GoodValue(v, false, c.dirs) && Tight(c)
    requires c.toks == ValueTokens(v) + tail && tail != [] && EndsMappingPair(tail[0])
    ensures Fate(KeyedValue(v), c, ValueEvents(v, c.dirs), c.(state := FlowMappingKey, toks := tail))
    decreases v, 3
  {
    hide ParseNode, Tokens, Good, Step, Fate, ResultFate, Keyed, Tight, GoodOptional, ValidStack, MarkedBelow;
    match v
    case NoValue =>
      assert c.toks == tail;
      NoFlowValueStep(c);
    case HasValue(n) =>
      var e := Skip(c);
      assert c.toks == [TValue] + (Tokens(n) + tail) && e.toks == Tokens(n) + tail;
      TightAfter(c, [TValue], Tokens(n) + tail);
      FlowValueStep(n, c, tail);
      SlotFate(n, e, FlowMappingKey, false, false, tail);
      FirstFate(Keyed(n), c, Events(n, c.dirs), c.(state := FlowMappingKey, toks := tail));
  }

  lemma NoFlowValueStep(c: Config)
    requires Valid(c) && c.state.FlowMappingValue? && c.toks != [] && !c.toks[0].TValue?
    ensures Fate(true, c, [EmptyScalar], c.(state := FlowMappingKey))
  {
    assert Step(c) == Emit(EmptyScalar, c.(state := FlowMappingKey));
  }

  lemma FlowValueStep(n: Node, c: Config, tail: seq<Token>)
    requires Valid(c) && c.state.FlowMappingValue? && GoodOptional(n, false, false, c.dirs)
    requires c.toks == [TValue] + (Tokens(n) + tail) && tail != [] && EndsMappingPair(tail[0])
    ensures Step(c) == Slot(n, Skip(c), FlowMappingKey, false, false)
  {
    hide ParseNode, Good;
    assert c.toks[1..] == Tokens(n) + tail;
    if !n.Absent? {
      FirstToken(n, false, false, c.dirs);
    }
  }

  // ---------------------------------------------------------------- flow sequences

  lemma {:induction false} FlowSequenceFate(p: Properties, parts: Parts, c: Config, block: bool, indentless: bool,
        rest: seq<Token>)
    requires NodeReady(c) && NodeTight(c) && GoodProps(p, c.dirs) && GoodParts(parts, c.dirs)
    requires c.toks == PropertyTokens(p) + ([TFlowSequenceStart] + (PartTokens(parts) + [TFlowSequenceEnd])) + rest
    requires rest != []
    ensures ResultFate(KeyedParts(parts, true), ParseNode(c, block, indentless),
                       Events(FlowSequence(p, parts), c.dirs), Pop(c.(toks := rest)))
    decreases parts, 3
  {
    hide ParseNode, Valid, ValidStack, PropertyTokens, GoodParts, KeyedParts, PartTokens, Fate, ResultFate;
    hide Tight, NodeTight, SequencePartEvents, FlowSequenceItem;
    var inner := PartTokens(parts) + ([TFlowSequenceEnd] + rest);
    assert c.toks == PropertyTokens(p) + ([TFlowSequenceStart] + inner);
    var ev, events, last := SequenceEvent(p, c.dirs, true), SequencePartEvents(parts, c.dirs) + [ESequenceEnd],
          Pop(c.(toks := rest));
    var d := Entered(p, TFlowSequenceStart, inner, c, block, indentless, FlowSequenceFirstEntry, FlowSequenceEntry, ev);
    SequencePartsFate(parts, Enter(d, FlowSequenceEntry), rest);
    assert Step(d) == FlowSequenceItem(Enter(d, FlowSequenceEntry));
    FirstFate(KeyedParts(parts, true), d, events, last);
    EmitFate(KeyedParts(parts, true), ev, d, events, last);
  }

  function SequencePartEvent(part: Part, dirs: seq<Directive>): seq<Event> {
    match part
    case Single(n) => Events(n, dirs)
    case Pair(k, v) => [EMappingStart("", "", true, true)] + (Events(k, dirs) + (ValueEvents(v, dirs) + [EMappingEnd]))
  }

  lemma {:induction false} SequencePartsFate(parts: Parts, c: Config, rest: seq<Token>)
    requires Valid(c) && c.state.FlowSequenceEntry? && GoodParts(parts, c.dirs) && Tight(c)
    requires c.toks == PartTokens(parts) + ([TFlowSequenceEnd] + rest)
    ensures ResultFate(KeyedParts(parts, true), FlowSequenceItem(c),
                       SequencePartEvents(parts, c.dirs) + [ESequenceEnd], Left(c, rest))
    decreases parts, 2
  {
    hide ParseNode, Valid, Tokens, Good, Fate, ResultFate, Keyed, Tight, FlowSequenceItem, OnePartTokens;
    hide KeyedPart, SequencePartEvent;
    match parts
    case NoPart =>
      assert c.toks == [TFlowSequenceEnd] + rest && c.toks[1..] == rest;
      FlowSequenceEnds(c, rest);
      assert [] + [ESequenceEnd] == [ESequenceEnd];
    case More(part, comma, more) =>
      if !HarmlessPair(part, comma, more) || (part == Pair(Absent, NoValue)) {
        EmptyKeyFate(parts, c, rest);
      } else {
        var after := PartTokens(more) + ([TFlowSequenceEnd] + rest);
        var tail := AfterPart(comma, more, TFlowSequenceEnd, rest);
        var next, item, last := c.(toks := tail), c.(toks := after), Left(c, rest);
        assert c.toks == OnePartTokens(part) + tail;
        PartBalanced(part);
        TightAfter(c, OnePartTokens(part), tail);
        TightAfter(next, if comma then [TFlowEntry] else [], after);
        Retoken(c, tail);
        Retoken(c, after);
        SequencePartFate(parts, c, tail);
        SequencePartsFate(more, item, rest);
        SequenceSeparator(comma, next, after);
        var pe, me := SequencePartEvent(part, c.dirs), SequencePartEvents(more, c.dirs) + [ESequenceEnd];
        FirstFate(KeyedParts(more, true), next, me, last);
        ResultThenFate(KeyedPart(part), FlowSequenceItem(c), pe, next, KeyedParts(more, true), me, last);
        SequencePartSplit(parts, c.dirs);
        assert pe + me == SequencePartEvents(parts, c.dirs) + [ESequenceEnd];
        KeyedMore(parts, true);
      }
  }

  lemma SequencePartSplit(parts: Parts, dirs: seq<Directive>)
    requires parts.More?
    ensures SequencePartEvents(parts, dirs)
      == SequencePartEvent(parts.part, dirs) + SequencePartEvents(parts.more, dirs)
  {
  }

  lemma SequenceSeparator(comma: bool, next: Config, after: seq<Token>)
    requires Valid(next) && next.state.FlowSequenceEntry? && after != []
    requires next.toks == (if comma then [TFlowEntry] else []) + after && (!comma ==> after[0] == TFlowSequenceEnd)
    ensures Valid(next.(toks := after)) && Step(next) == FlowSequenceItem(next.(toks := after))
  {
    hide FlowSequenceItem;
    if comma {
      assert next.toks[1..] == after;
    } else {
      assert next.toks == after;
    }
  }

  lemma FlowSequenceEnds(c: Config, rest: seq<Token>)
    requires Valid(c) && c.state.FlowSequenceEntry? && c.toks != [] && c.toks[0].TFlowSequenceEnd?
    requires c.toks[1..] == rest
    ensures ResultFate(true, FlowSequenceItem(c), [ESequenceEnd], Left(c, rest))
  {
    assert FlowSequenceItem(c) == Emit(ESequenceEnd, Left(c, rest));
  }

  predicate EndsSequencePair(t: Token) { t.TFlowEntry? || t.TFlowSequenceEnd? }

  lemma {:induction false} SequencePartFate(parts: Parts, c: Config, tail: seq<Token>)
    requires parts.More? && Valid(c) && c.state.FlowSequenceEntry? && GoodParts(parts, c.dirs) && Tight(c)
    requires c.toks == OnePartTokens(parts.part) + tail && tail != [] && EndsSequencePair(tail[0])
    requires parts.part.Pair? && parts.part.key.Absent? ==> parts.part.value == HasValue(Absent)
    ensures ResultFate(KeyedPart(parts.part), FlowSequenceItem(c), SequencePartEvent(parts.part, c.dirs),
        c.(toks := tail))
    decreases parts, 1
  {
    hide ParseNode, Tokens, Good, Step, Fate, ResultFate, Keyed, Tight, FlowSequenceItem, ValidStack, MarkedBelow;
    match parts.part
    case Single(n) =>
      SequenceSingleStep(n, c, tail);
      SlotFate(n, c, FlowSequenceEntry, false, false, tail);
    case Pair(k, v) =>
      var m := c.(state := FlowSequenceEntryMappingKey, toks := c.toks[1..]);
      SequencePairStart(c);
      assert c.toks == [TKey] + (Tokens(k) + ValueTokens(v) + tail);
      TightAfter(c, [TKey], Tokens(k) + ValueTokens(v) + tail);
      StateTight(c.(toks := m.toks), FlowSequenceEntryMappingKey);
      PairFate(parts.part, m, tail);
      EmitFate(KeyedPart(parts.part), EMappingStart("", "", true, true), m,
               Events(k, c.dirs) + (ValueEvents(v, c.dirs) + [EMappingEnd]), c.(toks := tail));
  }

  lemma SequenceSingleStep(n: Node, c: Config, tail: seq<Token>)
    requires Valid(c) && c.state.FlowSequenceEntry? && c.states != [] && Good(n, false, false, c.dirs)
    requires c.toks == Tokens(n) + tail
    ensures FlowSequenceItem(c) == Slot(n, c, FlowSequenceEntry, false, false)
  {
    hide ParseNode;
    FirstToken(n, false, false, c.dirs);
  }

  lemma SequencePairStart(c: Config)
    requires Valid(c) && c.state.FlowSequenceEntry? && c.toks != [] && c.toks[0].TKey?
    ensures var m := c.(state := FlowSequenceEntryMappingKey, toks := c.toks[1..]);
            Valid(m) && FlowSequenceItem(c) == Emit(EMappingStart("", "", true, true), m)
  {
  }

  /** A pair whose key is there, or whose key and value are both empty around a value indicator. */
  lemma {:induction false} PairFate(part: Part, c: Config, tail: seq<Token>)
    requires part.Pair? && Valid(c) && c.state.FlowSequenceEntryMappingKey? && Tight(c)
    requires GoodOptional(part.key, false, false, c.dirs) && GoodValue(part.value, false, c.dirs)
    requires c.toks == Tokens(part.key) + ValueTokens(part.value) + tail && tail != [] && EndsSequencePair(tail[0])
    requires part.key.Absent? ==> part.value == HasValue(Absent)
    ensures Fate(KeyedPart(part), c, Events(part.key, c.dirs) + (ValueEvents(part.value, c.dirs) + [EMappingEnd]),
        c.(state := FlowSequenceEntry, toks := tail))
    decreases part, 2
  {
    hide ParseNode, Good, Step, Fate, ResultFate, Keyed, Tight, ValidStack, MarkedBelow, ValueTokens;
    hide ValueEvents, Tokens, Events;
    var k, v := part.key, part.value;
    var last := c.(state := FlowSequenceEntry, toks := tail);
    if k.Absent? {
      EmptyPairFate(c, tail);
    } else {
      var vt := ValueTokens(v) + tail;
      var m := c.(state := FlowSequenceEntryMappingValue, toks := vt);
      assert c.toks == Tokens(k) + vt;
      NodeBalanced(k);
      TightAfter(c, Tokens(k), vt);
      StateTight(c.(toks := vt), FlowSequenceEntryMappingValue);
      PairKeyStep(k, c, vt);
      ValueStarts(v, tail);
      SlotFate(k, c, FlowSequenceEntryMappingValue, false, false, vt);
      FirstFate(Keyed(k), c, Events(k, c.dirs), m);
      PairValueFate(v, m, tail);
      ThenFate(Keyed(k), c, Events(k, c.dirs), m, KeyedValue(v), ValueEvents(v, c.dirs) + [EMappingEnd], last);
    }
  }

  lemma ValueStarts(v: Value, tail: seq<Token>)
    requires tail != []
    ensures var s := ValueTokens(v) + tail; s != [] && (s[0].TValue? || s[0] == tail[0])
  {
  }

  lemma EmptyPairFate(c: Config, tail: seq<Token>)
    requires Valid(c) && c.state.FlowSequenceEntryMappingKey?
    requires c.toks == Tokens(Absent) + ValueTokens(HasValue(Absent)) + tail && tail != [] && EndsSequencePair(tail[0])
    ensures Fate(KeyedPart(Pair(Absent, HasValue(Absent))), c,
                 Events(Absent, c.dirs) + (ValueEvents(HasValue(Absent), c.dirs) + [EMappingEnd]),
                 c.(state := FlowSequenceEntry, toks := tail))
  {
    hide Fate, Step;
    assert c.toks == [TValue] + tail && c.toks[1..] == tail;
    EmptyPairSteps(c, c.(state := FlowSequenceEntry, toks := tail), tail);
    assert [EmptyScalar] + ([EmptyScalar] + [EMappingEnd]) == [EmptyScalar, EmptyScalar, EMappingEnd];
  }

  lemma PairKeyStep(n: Node, c: Config, tail: seq<Token>)
    requires Valid(c) && c.state.FlowSequenceEntryMappingKey? && c.states != [] && !n.Absent?
    requires GoodOptional(n, false, false, c.dirs) && c.toks == Tokens(n) + tail
    ensures Step(c) == Slot(n, c, FlowSequenceEntryMappingValue, false, false)
  {
    hide ParseNode, Good;
    FirstToken(n, false, false, c.dirs);
  }

  /** The token after an empty key is skipped; what follows is not a value indicator. */
  lemma EmptyPairSteps(c: Config, last: Config, tail: seq<Token>)
    requires Valid(c) && c.state.FlowSequenceEntryMappingKey? && c.toks != []
    requires (c.toks[0].TValue? || EndsSequencePair(c.toks[0]))
    requires c.toks[1..] == tail && tail != [] && !tail[0].TValue?
    requires last == c.(state := FlowSequenceEntry, toks := tail)
    ensures Fate(true, c, [EmptyScalar, EmptyScalar, EMappingEnd], last)
  {
    hide ParseNode, ValidStack, MarkedBelow;
    var v := c.(state := FlowSequenceEntryMappingValue, toks := tail);
    var e := c.(state := FlowSequenceEntryMappingEnd, toks := tail);
    assert Step(c) == Emit(EmptyScalar, v);
    assert Step(v) == Emit(EmptyScalar, e);
    assert Step(e) == Emit(EMappingEnd, last);
    assert Leads(e, [EMappingEnd], last);
    assert [EmptyScalar, EMappingEnd][1..] == [EMappingEnd];
    assert Leads(v, [EmptyScalar, EMappingEnd], last);
    assert [EmptyScalar, EmptyScalar, EMappingEnd][1..] == [EmptyScalar, EMappingEnd];
  }

  lemma {:induction false} PairValueFate(v: Value, c: Config, tail: seq<Token>)
    requires Valid(c) && c.state.FlowSequenceEntryMappingValue? && GoodValue(v, false, c.dirs) && Tight(c)
    requires c.toks == ValueTokens(v) + tail && tail != [] && EndsSequencePair(tail[0])
    ensures Fate(KeyedValue(v), c, ValueEvents(v, c.dirs) + [EMappingEnd], c.(state := FlowSequenceEntry, toks := tail))
    decreases v, 3
  {
    hide ParseNode, Tokens, Good, Step, Fate, ResultFate, Keyed, Tight, GoodOptional, ValidStack, MarkedBelow;
    var m, last := c.(state := FlowSequenceEntryMappingEnd, toks := tail), c.(state := FlowSequenceEntry, toks := tail);
    PairEndStep(m);
    match v
    case NoValue =>
      assert c.toks == tail;
      NoPairValueStep(c);
      ThenFate(true, c, [EmptyScalar], m, true, [EMappingEnd], last);
    case HasValue(n) =>
      var e := Skip(c);
      assert c.toks == [TValue] + (Tokens(n) + tail) && e.toks == Tokens(n) + tail;
      TightAfter(c, [TValue], Tokens(n) + tail);
      PairValueStep(n, c, tail);
      SlotFate(n, e, FlowSequenceEntryMappingEnd, false, false, tail);
      FirstFate(Keyed(n), c, Events(n, c.dirs), m);
      ThenFate(Keyed(n), c, Events(n, c.dirs), m, true, [EMappingEnd], last);
  }

  lemma PairEndStep(c: Config)
    requires Valid(c) && c.state.FlowSequenceEntryMappingEnd? && c.toks != []
    ensures Fate(true, c, [EMappingEnd], c.(state := FlowSequenceEntry))
  {
    assert Step(c) == Emit(EMappingEnd, c.(state := FlowSequenceEntry));
  }

  lemma NoPairValueStep(c: Config)
    requires Valid(c) && c.state.FlowSequenceEntryMappingValue? && c.toks != [] && !c.toks[0].TValue?
    ensures Fate(true, c, [EmptyScalar], c.(state := FlowSequenceEntryMappingEnd))
  {
    assert Step(c) == Emit(EmptyScalar, c.(state := FlowSequenceEntryMappingEnd));
  }

  lemma PairValueStep(n: Node, c: Config, tail: seq<Token>)
    requires Valid(c) && c.state.FlowSequenceEntryMappingValue? && GoodOptional(n, false, false, c.dirs)
    requires c.toks == [TValue] + (Tokens(n) + tail) && tail != [] && EndsSequencePair(tail[0])
    ensures Step(c) == Slot(n, Skip(c), FlowSequenceEntryMappingEnd, false, false)
  {
    hide ParseNode, Good;
    assert c.toks[1..] == Tokens(n) + tail;
    if !n.Absent? {
      FirstToken(n, false, false, c.dirs);
    }
  }

  // ---------------------------------------------------------------- pairs with an empty key

  /** An empty key with no value, or with a value of its own: fine before a last comma, fatal otherwise. */
  lemma EmptyKeyFate(parts: Parts, c: Config, rest: seq<Token>)
    requires parts.More? && parts.part.Pair? && parts.part.key.Absent? && parts.part.value != HasValue(Absent)
    requires Valid(c) && c.state.FlowSequenceEntry? && GoodParts(parts, c.dirs) && Tight(c)
    requires c.toks == PartTokens(parts) + ([TFlowSequenceEnd] + rest)
    ensures ResultFate(KeyedParts(parts, true), FlowSequenceItem(c),
                       SequencePartEvents(parts, c.dirs) + [ESequenceEnd], Left(c, rest))
  {
    hide ParseNode, Good, Step, Fate, ResultFate, Tight, FlowSequenceItem, ValidStack, MarkedBelow, Events;
    hide SequencePartEvents;
    var v, start, last := parts.part.value, EMappingStart("", "", true, true), Left(c, rest);
    var tail := AfterPart(parts.comma, parts.more, TFlowSequenceEnd, rest);
    var m := c.(state := FlowSequenceEntryMappingKey, toks := ValueTokens(v) + tail);
    EmptyKeyTokens(parts, rest);
    assert c.toks[1..] == m.toks;
    SequencePairStart(c);
    if v.NoValue? && parts.comma && parts.more.NoPart? {
      hide KeyedParts, GoodParts;
      LastCommaKeyed(parts);
      assert m.toks[0] == TFlowEntry && m.toks[1..] == [TFlowSequenceEnd] + rest;
      LastCommaSteps(c, m, rest);
      EmptyPairEvents(parts, c.dirs);
      EmitFate(true, start, m, [EmptyScalar, EmptyScalar, EMappingEnd, ESequenceEnd], last);
    } else {
      EmptyKeyDoomed(parts, c, m, rest);
      DoomedResult(start, m, SequencePartEvents(parts, c.dirs) + [ESequenceEnd], last);
    }
  }

  lemma EmptyKeyTokens(parts: Parts, rest: seq<Token>)
    requires parts.More? && parts.part.Pair? && parts.part.key.Absent?
    ensures PartTokens(parts) + ([TFlowSequenceEnd] + rest)
         == [TKey] + (ValueTokens(parts.part.value) + AfterPart(parts.comma, parts.more, TFlowSequenceEnd, rest))
  {
    assert OnePartTokens(parts.part) == [TKey] + ValueTokens(parts.part.value);
  }

  lemma LastCommaKeyed(parts: Parts)
    requires parts == More(Pair(Absent, NoValue), true, NoPart)
    ensures KeyedParts(parts, true)
  {
    assert KeyedParts(NoPart, true);
  }

  lemma EmptyPairEvents(parts: Parts, dirs: seq<Directive>)
    requires parts.More? && parts.part == Pair(Absent, NoValue) && parts.more.NoPart?
    ensures SequencePartEvents(parts, dirs) + [ESequenceEnd]
         == [EMappingStart("", "", true, true)] + [EmptyScalar, EmptyScalar, EMappingEnd, ESequenceEnd]
  {
    assert SequencePartEvents(NoPart, dirs) == [];
    SequencePartSplit(parts, dirs);
  }

  lemma DoomedResult(e: Event, m: Config, events: seq<Event>, d: Config)
    requires Valid(m) && Doomed(m)
    ensures ResultFate(false, Emit(e, m), events, d)
  {
  }

  lemma LastCommaSteps(c: Config, m: Config, rest: seq<Token>)
    requires Valid(c) && c.state.FlowSequenceEntry? && Valid(m)
    requires m == c.(state := FlowSequenceEntryMappingKey, toks := m.toks)
    requires m.toks != [] && m.toks[0].TFlowEntry? && m.toks[1..] == [TFlowSequenceEnd] + rest
    ensures Fate(true, m, [EmptyScalar, EmptyScalar, EMappingEnd, ESequenceEnd], Left(c, rest))
  {
    hide ParseNode, Step, Fate, ResultFate, FlowSequenceItem;
    var last := c.(toks := [TFlowSequenceEnd] + rest);
    EmptyPairSteps(m, last, last.toks);
    Retoken(c, last.toks);
    assert last.toks[1..] == rest;
    FlowSequenceEnds(last, rest);
    SequenceSeparator(false, last, last.toks) by { assert [] + last.toks == last.toks; }
    FirstFate(true, last, [ESequenceEnd], Left(c, rest));
    ThenFate(true, m, [EmptyScalar, EmptyScalar, EMappingEnd], last, true, [ESequenceEnd], Left(c, rest));
    assert [EmptyScalar, EmptyScalar, EMappingEnd] + [ESequenceEnd]
        == [EmptyScalar, EmptyScalar, EMappingEnd, ESequenceEnd];
  }

  lemma EmptyKeyDoomed(parts: Parts, c: Config, m: Config, rest: seq<Token>)
    requires parts.More? && parts.part.Pair? && parts.part.key.Absent? && parts.part.value != HasValue(Absent)
    requires !(parts.part.value.NoValue? && parts.comma && parts.more.NoPart?)
    requires Valid(c) && c.state.FlowSequenceEntry? && GoodParts(parts, c.dirs) && Tight(c)
    requires c.toks == [TKey] + m.toks && m == c.(state := FlowSequenceEntryMappingKey, toks := m.toks) && Valid(m)
    requires m.toks == ValueTokens(parts.part.value) + AfterPart(parts.comma, parts.more, TFlowSequenceEnd, rest)
    ensures Doomed(m)
  {
    hide ParseNode, Step, Keyed, Tight, ValidStack, MarkedBelow;
    var v := parts.part.value;
    TightAfter(c, [TKey], m.toks);
    StateTight(c.(toks := m.toks), FlowSequenceEntryMappingKey);
    if v.NoValue? && !parts.comma {
      assert m.toks == [TFlowSequenceEnd] + rest && m.toks[1..] == rest;
      BracketSkipped(m);
    } else {
      var tail := m.toks[1..];
      assert tail != [] && !tail[0].TValue? && !EndsSequencePair(tail[0]) by {
        NextIsNoSeparator(parts, c.dirs, m.toks, rest);
      }
      SeparatorSkipped(c, m, tail);
    }
  }

  lemma NextIsNoSeparator(parts: Parts, dirs: seq<Directive>, toks: seq<Token>, rest: seq<Token>)
    requires parts.More? && parts.part.Pair? && parts.part.key.Absent? && parts.part.value != HasValue(Absent)
    requires GoodParts(parts, dirs)
    requires parts.part.value.HasValue? || (parts.comma && parts.more.More?)
    requires toks == ValueTokens(parts.part.value) + AfterPart(parts.comma, parts.more, TFlowSequenceEnd, rest)
    ensures |toks| > 1 && (toks[0].TValue? || EndsSequencePair(toks[0])) && !toks[1].TValue?
    ensures !EndsSequencePair(toks[1])
  {
    if parts.part.value.HasValue? {
      PresentValue(parts.part.value);
      assert GoodValue(parts.part.value, false, dirs);
      assert GoodOptional(parts.part.value.node, false, false, dirs);
      FirstToken(parts.part.value.node, false, false, dirs);
    } else {
      assert GoodParts(parts.more, dirs);
      var part := parts.more.part;
      if part.Single? {
        FirstToken(part.node, false, false, dirs);
      }
      assert toks[1] == OnePartTokens(part)[0];
    }
  }

  lemma PresentValue(v: Value)
    requires v.HasValue? && v != HasValue(Absent)
    ensures !v.node.Absent?
  {
  }

  /** A separator or value indicator was skipped: the next token cannot continue the sequence. */
  lemma SeparatorSkipped(c: Config, m: Config, tail: seq<Token>)
    requires Valid(c) && c.state.FlowSequenceEntry? && Valid(m)
    requires m == c.(state := FlowSequenceEntryMappingKey, toks := m.toks)
    requires m.toks != [] && (m.toks[0].TValue? || EndsSequencePair(m.toks[0])) && m.toks[1..] == tail
    requires tail != [] && !tail[0].TValue? && !EndsSequencePair(tail[0])
    ensures Doomed(m)
  {
    hide ParseNode, Step, ValidStack, MarkedBelow;
    var last := c.(toks := tail);
    EmptyPairSteps(m, last, tail);
    assert Step(last).Failed? by { StuckStep(last); }
    DoomedStep(last);
    DoomedBefore(m, [EmptyScalar, EmptyScalar, EMappingEnd], last);
  }

  lemma StuckStep(c: Config)
    requires Valid(c) && c.state.FlowSequenceEntry? && c.toks != [] && !EndsSequencePair(c.toks[0])
    ensures Step(c).Failed?
  {
  }

  /** The closing bracket itself was skipped: there are not enough of them left. */
  lemma BracketSkipped(m: Config)
    requires Valid(m) && m.state.FlowSequenceEntryMappingKey? && m.toks != [] && m.toks[0].TFlowSequenceEnd? && Tight(m)
    ensures Doomed(m)
  {
    hide ParseNode, ValidStack, MarkedBelow;
    var d := m.(state := FlowSequenceEntryMappingValue, toks := m.toks[1..]);
    assert Step(m) == Emit(EmptyScalar, d);
    assert EndIsLast(d.toks) by {
      forall i | 0 <= i < |d.toks| && d.toks[i].TStreamEnd? ensures i == |d.toks| - 1 {
        assert m.toks[i + 1].TStreamEnd?;
      }
    }
    forall n: nat ensures !Run(d, n).1.state.End? {
      ShortOfBrackets(d, n);
    }
    DoomedStep(m);
  }
}
