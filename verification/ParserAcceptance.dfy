/**
 The other direction: whatever the parser reads to its end is a stream of the documented
 grammar, and what it emitted are the events of that stream. The one liberty it takes is in
 pairs of flow sequences, where it drops the token after a KEY unread.

 A finished run is taken apart from the front: every lemma here finds the part of a derivation
 that the first events of a run belong to, and the rest of the run.
 */
module ParserAcceptance {
  import opened Options
  import opened ParserModel
  import opened ParserSoundness
  import opened ParserBrackets
  import opened Derivations
  import opened ParserRuns
  import opened ParserCompleteness
  import opened ParserStreams
  import opened ParserTermination

  // ---------------------------------------------------------------- tokens that are dropped

  /** The tokens that may be dropped after a KEY. */
  predicate Droppable(t: Token) { t.TValue? || t.TFlowEntry? || t.TFlowSequenceEnd? }

  /** `kept` is `toks` with some tokens dropped, each right after a KEY. */
  ghost predicate Drops(toks: seq<Token>, kept: seq<Token>)
    decreases |toks|
  {
    if toks == [] then kept == []
    else
      && kept != [] && kept[0] == toks[0]
      && (|| Drops(toks[1..], kept[1..])
          || (toks[0].TKey? && |toks| > 1 && Droppable(toks[1]) && Drops(toks[2..], kept[1..])))
  }

  lemma {:induction false} DropsNothing(toks: seq<Token>)
    ensures Drops(toks, toks)
    decreases |toks|
  {
    if toks != [] {
      DropsNothing(toks[1..]);
    }
  }

  lemma {:induction false} DropsAppend(a: seq<Token>, a': seq<Token>, b: seq<Token>, b': seq<Token>)
    requires Drops(a, a') && Drops(b, b')
    ensures Drops(a + b, a' + b')
    decreases |a|
  {
    if a == [] {
      assert a + b == b && a' + b' == b';
    } else {
      assert (a + b)[1..] == a[1..] + b && (a' + b')[1..] == a'[1..] + b';
      if Drops(a[1..], a'[1..]) {
        DropsAppend(a[1..], a'[1..], b, b');
      } else {
        assert (a + b)[2..] == a[2..] + b && (a + b)[1] == a[1];
        DropsAppend(a[2..], a'[1..], b, b');
      }
    }
  }

  lemma DropsAfter(t: Token, a: seq<Token>, a': seq<Token>)
    requires Drops(a, a')
    ensures Drops([t] + a, [t] + a')
  {
    DropsNothing([t]);
    DropsAppend([t], [t], a, a');
  }

  /** The scanner never produces an anchor without a name. */
  predicate Named(toks: seq<Token>) { forall i :: 0 <= i < |toks| ==> toks[i] != TAnchor("") }

  lemma NamedRest(a: seq<Token>, b: seq<Token>)
    requires Named(a + b)
    ensures Named(b)
  {
    forall i | 0 <= i < |b|
      ensures b[i] != TAnchor("")
    {
      assert (a + b)[|a| + i] == b[i];
    }
  }

  lemma Regroup<T>(a: seq<T>, b: seq<T>, c: seq<T>, d: seq<T>)
    ensures a + (b + c) + d == a + (b + (c + d)) && b + c + d == b + (c + d)
  {
  }

  // ---------------------------------------------------------------- finished runs

  /** The run emits the events and finishes. */
  ghost predicate Finishes(c: Config, events: seq<Event>) {
    exists last: Config :: last.state.End? && Leads(c, events, last)
  }

  ghost predicate ResultFinishes(r: Result, events: seq<Event>) {
    events != [] && r.Emit? && r.event == events[0] && Finishes(r.next, events[1..])
  }

  lemma FinishesStep(c: Config, events: seq<Event>)
    requires Finishes(c, events) && !c.state.End?
    ensures Valid(c) && ResultFinishes(Step(c), events)
  {
    hide Step, Valid;
    var last: Config :| last.state.End? && Leads(c, events, last);
    assert events != [];
    assert Leads(Step(c).next, events[1..], last);
  }

  lemma FinishedAtEnd(c: Config, events: seq<Event>)
    requires Finishes(c, events) && c.state.End?
    ensures events == []
  {
    hide Step, Valid;
    var last: Config :| last.state.End? && Leads(c, events, last);
  }

  // ---------------------------------------------------------------- properties

  lemma PropsTaken(toks: seq<Token>, dirs: seq<Directive>) returns (p: Properties)
    requires toks != [] && Named(toks)
    ensures toks == PropertyTokens(p) + ReadProps(toks).toks && p.anchor == ReadProps(toks).anchor
    ensures TagOf(dirs, p) == ResolveTag(dirs, ReadProps(toks))
  {
    hide ResolveTag, TagOf;
    var r := ReadProps(toks);
    p := Properties(r.anchor, if r.tagged then Tag(r.handle, r.suffix) else NoTag, toks[0].TTag?);
    TagAgrees(dirs, p, r.toks);
    if toks[0].TAnchor? {
      assert toks[0].name != "";
    } else if toks[0].TTag? && |toks| > 1 && toks[1].TAnchor? {
      assert toks[1].name != "";
    }
  }

  // ---------------------------------------------------------------- nodes

  /** What a node that has been read leaves: the caller's state, the tokens after it, the events after it. */
  ghost predicate TakenNode(n: Node, c: Config, block: bool, indentless: bool, events: seq<Event>, used: seq<Token>,
        rest: seq<Token>, after: seq<Event>)
    requires NodeReady(c)
  {
    && Good(n, block, indentless, c.dirs) && c.toks == used + rest && Drops(used, Tokens(n))
    && events == Events(n, c.dirs) + after && Finishes(Pop(c.(toks := rest)), after)
  }

  /** An optional node at a place that continues in state `s`. */
  ghost predicate TakenSlot(n: Node, e: Config, s: State, block: bool, indentless: bool, events: seq<Event>,
        used: seq<Token>, rest: seq<Token>, after: seq<Event>) {
    && GoodOptional(n, block, indentless, e.dirs) && e.toks == used + rest && Drops(used, Tokens(n))
    && events == Events(n, e.dirs) + after && Finishes(e.(state := s, toks := rest), after)
  }

  lemma {:induction false} SlotTaken(absent: bool, e: Config, s: State, block: bool, indentless: bool,
        events: seq<Event>) returns (n: Node, used: seq<Token>, rest: seq<Token>, after: seq<Event>)
    requires Valid(e) && e.states != [] && Return(s) && Marked(s) == Marked(e.state) && Named(e.toks)
    requires ValidStack(e.states) && |e.marks| == Marked(s) + MarkedBelow(e.states)
    requires ResultFinishes(if absent then Emit(EmptyScalar, Goto(e, s)) else ParseNode(Push(e, s), block, indentless),
                            events)
    ensures TakenSlot(n, e, s, block, indentless, events, used, rest, after) && (absent <==> n.Absent?)
    ensures |after| < |events|
    decreases |events|, 2
  {
    hide ParseNode, Valid, Good, Finishes, MarkedBelow, ValidStack;
    if absent {
      n, used, rest, after := Absent, [], e.toks, events[1..];
      assert e.toks == [] + e.toks && events == [NO_NODE] + after;
    } else {
      n, used, rest, after := NodeTaken(Push(e, s), block, indentless, events);
      PopPush(e, s, rest);
      NotAbsent(n, block, indentless, e.dirs);
    }
  }

  lemma NotAbsent(n: Node, block: bool, indentless: bool, dirs: seq<Directive>)
    requires Good(n, block, indentless, dirs)
    ensures !n.Absent?
  {
  }

  lemma {:induction false} NodeTaken(c: Config, block: bool, indentless: bool, events: seq<Event>)
    returns (n: Node, used: seq<Token>, rest: seq<Token>, after: seq<Event>)
    requires NodeReady(c) && ResultFinishes(ParseNode(c, block, indentless), events) && Named(c.toks)
    ensures TakenNode(n, c, block, indentless, events, used, rest, after)
    ensures |after| < |events|
    decreases |events|, 1
  {
    hide ParseNode, Finishes, Good, Pop, ValidStack, MarkedBelow, Events, Tokens;
    if c.toks != [] && c.toks[0].TAlias? {
      n, used, rest, after := AliasTaken(c, block, indentless, events);
    } else {
      var p, toks := NodeSplit(c, block, indentless, events);
      n, used, rest, after := ContentTaken(c, p, toks, block, indentless, events);
    }
  }

  lemma AliasTaken(c: Config, block: bool, indentless: bool, events: seq<Event>)
    returns (n: Node, used: seq<Token>, rest: seq<Token>, after: seq<Event>)
    requires NodeReady(c) && ResultFinishes(ParseNode(c, block, indentless), events)
    requires c.toks != [] && c.toks[0].TAlias?
    ensures TakenNode(n, c, block, indentless, events, used, rest, after) && |after| < |events|
  {
    hide Finishes, Pop, ValidStack, MarkedBelow;
    n, used, rest, after := Alias(c.toks[0].name), [c.toks[0]], c.toks[1..], events[1..];
    assert c.toks == used + rest && events == [events[0]] + after;
    DropsNothing(used);
  }

  /** What a node with properties came to. */
  ghost predicate ContentFinishes(c: Config, p: Properties, toks: seq<Token>, block: bool, indentless: bool,
        events: seq<Event>)
    requires NodeReady(c)
  {
    && toks != [] && c.toks == PropertyTokens(p) + toks && GoodProps(p, c.dirs) && events != []
    && (var d, tag := c.(toks := toks), TagText(c.dirs, p);
        match ContentOf(toks[0], p.anchor, tag, block, indentless) {
          case Scalar(e) => e == events[0] && Finishes(Pop(Skip(d)), events[1..])
          case Collection(e, first) => e == events[0] && Finishes(d.(state := first), events[1..])
          case Missing =>
            && (p.anchor != "" || tag != "") && EScalar(p.anchor, tag, "", tag == "", false, Plain) == events[0]
            && Finishes(Pop(d), events[1..])
        })
  }

  lemma NodeSplit(c: Config, block: bool, indentless: bool, events: seq<Event>)
    returns (p: Properties, toks: seq<Token>)
    requires NodeReady(c) && ResultFinishes(ParseNode(c, block, indentless), events) && Named(c.toks)
    requires c.toks == [] || !c.toks[0].TAlias?
    ensures ContentFinishes(c, p, toks, block, indentless, events) && Named(toks)
  {
    hide Finishes, Pop, ValidStack, MarkedBelow, ReadProps, ResolveTag, TagOf, PropertyTokens, ContentOf;
    p := PropsTaken(c.toks, c.dirs);
    toks := ReadProps(c.toks).toks;
    NamedRest(PropertyTokens(p), toks);
  }

  lemma {:induction false} ContentTaken(c: Config, p: Properties, toks: seq<Token>, block: bool, indentless: bool,
        events: seq<Event>) returns (n: Node, used: seq<Token>, rest: seq<Token>, after: seq<Event>)
    requires NodeReady(c) && ContentFinishes(c, p, toks, block, indentless, events) && Named(toks)
    ensures TakenNode(n, c, block, indentless, events, used, rest, after) && |after| < |events|
    decreases |events|, 0
  {
    hide Finishes, Pop, ValidStack, MarkedBelow, PropertyTokens, TagOf, Drops, Good, Events, Tokens, TagText;
    hide TakenNode, GoodProps;
    var content := ContentOf(toks[0], p.anchor, TagText(c.dirs, p), block, indentless);
    if !content.Collection? {
      n, used, rest, after := ScalarTaken(c, p, toks, block, indentless, events);
    } else if content.first.BlockSequenceFirstEntry? {
      n, used, rest, after := BlockSequenceTaken(c, p, toks, block, indentless, events);
    } else if content.first.IndentlessSequenceEntry? {
      n, used, rest, after := IndentlessSequenceTaken(c, p, toks, block, indentless, events);
    } else if content.first.BlockMappingFirstKey? {
      n, used, rest, after := BlockMappingTaken(c, p, toks, block, indentless, events);
    } else if content.first.FlowSequenceFirstEntry? {
      n, used, rest, after := FlowSequenceTaken(c, p, toks, block, indentless, events);
    } else {
      n, used, rest, after := FlowMappingTaken(c, p, toks, block, indentless, events);
    }
  }

  lemma ScalarTaken(c: Config, p: Properties, toks: seq<Token>, block: bool, indentless: bool, events: seq<Event>)
    returns (n: Node, used: seq<Token>, rest: seq<Token>, after: seq<Event>)
    requires NodeReady(c) && ContentFinishes(c, p, toks, block, indentless, events)
    requires !ContentOf(toks[0], p.anchor, TagText(c.dirs, p), block, indentless).Collection?
    ensures TakenNode(n, c, block, indentless, events, used, rest, after) && |after| < |events|
  {
    hide Finishes, Pop, ValidStack, MarkedBelow, PropertyTokens, TagOf, Drops;
    after := events[1..];
    assert events == [events[0]] + after;
    if toks[0].TScalar? {
      n, used, rest := Atom(p, toks[0].value, toks[0].style), PropertyTokens(p) + [toks[0]], toks[1..];
      assert c.toks == used + rest;
    } else {
      n, used, rest := Bare(p), PropertyTokens(p), toks;
    }
    DropsNothing(used);
  }

  lemma FinishesFrom(c: Config, events: seq<Event>)
    requires Valid(c) && !c.state.End? && ResultFinishes(Step(c), events)
    ensures Finishes(c, events)
  {
    hide Step, Valid;
    var last: Config :| last.state.End? && Leads(Step(c).next, events[1..], last);
    assert Leads(c, events, last);
  }

  // ---------------------------------------------------------------- block collections

  ghost predicate TakenItems(items: Items, c: Config, events: seq<Event>, used: seq<Token>, rest: seq<Token>,
        after: seq<Event>)
    requires Valid(c) && Marked(c.state) == 1
  {
    && GoodItems(items, c.dirs) && c.toks == used + ([TBlockEnd] + rest) && Drops(used, ItemTokens(items))
    && events == ItemEvents(items, c.dirs) + ([ESequenceEnd] + after) && Finishes(Left(c, rest), after)
  }

  /** An item in front of others. */
  lemma {:induction false} ItemJoined(n: Node, more: Items, used1: seq<Token>, used2: seq<Token>, tail: seq<Token>,
        dirs: seq<Directive>, after: seq<Event>)
    requires Drops(used1, Tokens(n)) && Drops(used2, ItemTokens(more))
    ensures var used := [TBlockEntry] + (used1 + used2);
            Drops(used, ItemTokens(Item(n, more))) && used + tail == [TBlockEntry] + (used1 + (used2 + tail))
    ensures Events(n, dirs) + (ItemEvents(more, dirs) + ([ESequenceEnd] + after))
         == ItemEvents(Item(n, more), dirs) + ([ESequenceEnd] + after)
  {
    hide Events, Tokens, Drops;
    DropsAppend(used1, Tokens(n), used2, ItemTokens(more));
    DropsAfter(TBlockEntry, used1 + used2, Tokens(n) + ItemTokens(more));
    Regroup([TBlockEntry], used1, used2, tail);
    Regroup([], Events(n, dirs), ItemEvents(more, dirs), [ESequenceEnd] + after);
  }

  lemma {:induction false} ItemsTaken(c: Config, events: seq<Event>)
    returns (items: Items, used: seq<Token>, rest: seq<Token>, after: seq<Event>)
    requires Valid(c) && c.state.BlockSequenceEntry? && Finishes(c, events) && Named(c.toks)
    ensures TakenItems(items, c, events, used, rest, after) && |after| < |events|
    decreases |events|, 3
  {
    hide ParseNode, Finishes, Good, Pop, ValidStack, MarkedBelow, Events, Tokens, Drops, Valid, Named, GoodOptional;
    hide LastMark;
    FinishesStep(c, events);
    if c.toks[0].TBlockEnd? {
      items, used, rest, after := NoItem, [], c.toks[1..], events[1..];
      DropsNothing([]);
      assert c.toks == [] + ([TBlockEnd] + rest) && events == [] + ([ESequenceEnd] + after);
    } else {
      var e := Skip(c);
      var n, used1, rest1, after1;
      assert c.toks == [TBlockEntry] + e.toks;
      NamedRest([TBlockEntry], e.toks);
      Retoken(c, e.toks);
      SlotReady(e);
      n, used1, rest1, after1 :=
        SlotTaken(e.toks[0].TBlockEntry? || e.toks[0].TBlockEnd?, e, BlockSequenceEntry, true, false, events);
      NamedRest(used1, rest1);
      var d := c.(toks := rest1);
      Retoken(c, rest1);
      var more, used2;
      more, used2, rest, after := ItemsTaken(d, after1);
      items, used := Item(n, more), [TBlockEntry] + (used1 + used2);
      ItemJoined(n, more, used1, used2, [TBlockEnd] + rest, c.dirs, after);
    }
  }

  ghost predicate TakenIndentless(items: Items, c: Config, events: seq<Event>, used: seq<Token>, rest: seq<Token>,
        after: seq<Event>)
    requires NodeReady(c)
  {
    && GoodItems(items, c.dirs) && c.toks == used + rest && Drops(used, ItemTokens(items))
    && events == ItemEvents(items, c.dirs) + ([ESequenceEnd] + after) && Finishes(Pop(c.(toks := rest)), after)
  }

  lemma IndentlessStep(c: Config)
    requires Valid(c) && c.state.IndentlessSequenceEntry? && Step(c).Emit?
    ensures c.toks != [] && NodeReady(c)
    ensures !c.toks[0].TBlockEntry? ==> Step(c) == Emit(ESequenceEnd, Pop(c))
    ensures c.toks[0].TBlockEntry? ==>
      var e := Skip(c);
      && e.toks != [] && Valid(e) && ValidStack(e.states) && |e.marks| == MarkedBelow(e.states)
      && Step(c) == if e.toks[0].TBlockEntry? || EndsMappingPart(e.toks[0])
                    then Emit(EmptyScalar, Goto(e, IndentlessSequenceEntry))
                    else ParseNode(Push(e, IndentlessSequenceEntry), true, false)
  {
    hide ParseNode, Pop;
    Retoken(c, c.toks[1..]);
  }

  lemma IndentlessReady(c: Config)
    requires Valid(c) && c.state.IndentlessSequenceEntry?
    ensures NodeReady(c) && c.states != []
  {
  }

  lemma {:induction false} IndentlessTaken(c: Config, events: seq<Event>)
    returns (items: Items, used: seq<Token>, rest: seq<Token>, after: seq<Event>)
    requires Valid(c) && NodeReady(c) && c.state.IndentlessSequenceEntry? && Finishes(c, events) && Named(c.toks)
    ensures TakenIndentless(items, c, events, used, rest, after) && |after| < |events|
    ensures c.toks != [] && (c.toks[0].TBlockEntry? ==> items.Item?)
    decreases |events|, 3
  {
    hide ParseNode, Finishes, Good, Pop, ValidStack, MarkedBelow, Events, Tokens, Drops, Valid, Named, GoodOptional;
    hide Step;
    FinishesStep(c, events);
    IndentlessStep(c);
    if !c.toks[0].TBlockEntry? {
      items, used, rest, after := NoItem, [], c.toks, events[1..];
      DropsNothing([]);
      assert c.toks == [] + c.toks && events == [] + ([ESequenceEnd] + after) && c == c.(toks := rest);
    } else {
      var e := Skip(c);
      var n, used1, rest1, after1;
      assert c.toks == [TBlockEntry] + e.toks;
      NamedRest([TBlockEntry], e.toks);
      var t := e.toks[0];
      n, used1, rest1, after1 :=
        SlotTaken(t.TBlockEntry? || EndsMappingPart(t), e, IndentlessSequenceEntry, true, false, events);
      NamedRest(used1, rest1);
      var d := c.(toks := rest1);
      Retoken(c, rest1);
      IndentlessReady(d);
      var more, used2;
      more, used2, rest, after := IndentlessTaken(d, after1);
      items, used := Item(n, more), [TBlockEntry] + (used1 + used2);
      ItemJoined(n, more, used1, used2, rest, c.dirs, after);
    }
  }

  // ---------------------------------------------------------------- values

  predicate IsValueState(s: State) { s.BlockMappingValue? || s.FlowMappingValue? || s.FlowSequenceEntryMappingValue? }

  /** The state after the value of a pair. */
  function AfterValue(s: State): State {
    if s.BlockMappingValue? then BlockMappingKey
    else if s.FlowMappingValue? then FlowMappingKey
    else FlowSequenceEntryMappingEnd
  }

  /** The tokens in front of which a value is left out. */
  predicate NoValueBefore(s: State, t: Token) {
    if s.BlockMappingValue? then EndsMappingPart(t)
    else if s.FlowMappingValue? then t.TFlowEntry? || t.TFlowMappingEnd?
    else t.TFlowEntry? || t.TFlowSequenceEnd?
  }

  lemma ValueStep(c: Config)
    requires Valid(c) && IsValueState(c.state) && Step(c).Emit?
    ensures c.toks != [] && c.states != [] && Return(AfterValue(c.state)) && Marked(AfterValue(c.state)) == 1
    ensures !c.toks[0].TValue? ==> Step(c) == Emit(EmptyScalar, Goto(c, AfterValue(c.state)))
    ensures c.toks[0].TValue? ==>
      var e, s := Skip(c), AfterValue(c.state);
      && e.toks != [] && Valid(e) && ValidStack(e.states) && |e.marks| == Marked(s) + MarkedBelow(e.states)
      && Step(c) == if NoValueBefore(c.state, e.toks[0]) then Emit(EmptyScalar, Goto(e, s))
                    else ParseNode(Push(e, s), c.state.BlockMappingValue?, c.state.BlockMappingValue?)
  {
    hide ParseNode, MarkedBelow;
    SlotReady(c);
    Retoken(c, c.toks[1..]);
  }

  ghost predicate TakenValue(v: Value, c: Config, events: seq<Event>, used: seq<Token>, rest: seq<Token>,
        after: seq<Event>) {
    && GoodValue(v, c.state.BlockMappingValue?, c.dirs) && c.toks == used + rest && Drops(used, ValueTokens(v))
    && events == ValueEvents(v, c.dirs) + after && Finishes(c.(state := AfterValue(c.state), toks := rest), after)
  }

  lemma {:induction false} ValueTaken(c: Config, events: seq<Event>)
    returns (v: Value, used: seq<Token>, rest: seq<Token>, after: seq<Event>)
    requires Valid(c) && IsValueState(c.state) && Finishes(c, events) && Named(c.toks)
    ensures TakenValue(v, c, events, used, rest, after) && |after| < |events|
    decreases |events|, 4
  {
    hide ParseNode, Finishes, Good, ValidStack, MarkedBelow, Tokens, Drops, Valid, Named, Step, AfterValue;
    hide NoValueBefore, GoodOptional;
    FinishesStep(c, events);
    ValueStep(c);
    if c.toks[0].TValue? {
      v, used, rest, after := ValueNodeTaken(c, events);
    } else {
      v, used, rest, after := NoValue, [], c.toks, events[1..];
      DropsNothing([]);
      assert c.toks == [] + c.toks && events == [NO_NODE] + after;
    }
  }

  lemma {:induction false} ValueNodeTaken(c: Config, events: seq<Event>)
    returns (v: Value, used: seq<Token>, rest: seq<Token>, after: seq<Event>)
    requires Valid(c) && IsValueState(c.state) && Finishes(c, events) && Named(c.toks)
    requires c.toks != [] && c.toks[0].TValue?
    ensures TakenValue(v, c, events, used, rest, after) && |after| < |events|
    decreases |events|, 3
  {
    hide ParseNode, Finishes, Good, Pop, ValidStack, MarkedBelow, Events, Tokens, Drops, Valid, Named, Step, AfterValue;
    hide NoValueBefore, GoodOptional;
    FinishesStep(c, events);
    ValueStep(c);
    var e, s := Skip(c), AfterValue(c.state);
    assert c.toks == [TValue] + e.toks;
    NamedRest([TValue], e.toks);
    var block := c.state.BlockMappingValue?;
    var n, used1;
    n, used1, rest, after := SlotTaken(NoValueBefore(c.state, e.toks[0]), e, s, block, block, events);
    v, used := HasValue(n), [TValue] + used1;
    DropsAfter(TValue, used1, Tokens(n));
    Regroup([], [TValue], used1, rest);
  }

  // ---------------------------------------------------------------- block mappings

  lemma EntryStep(c: Config)
    requires Valid(c) && c.state.BlockMappingKey? && Step(c).Emit?
    ensures c.toks != [] && c.states != [] && (c.toks[0].TBlockEnd? || c.toks[0].TKey?)
    ensures c.toks[0].TBlockEnd? ==> Step(c) == Emit(EMappingEnd, Left(c, c.toks[1..]))
    ensures c.toks[0].TKey? ==>
      var e := Skip(c);
      && e.toks != [] && Valid(e) && ValidStack(e.states) && |e.marks| == 1 + MarkedBelow(e.states)
      && Step(c) == if EndsMappingPart(e.toks[0]) then Emit(EmptyScalar, Goto(e, BlockMappingValue))
                    else ParseNode(Push(e, BlockMappingValue), true, true)
  {
    hide ParseNode, Pop, LastMark;
    Retoken(c, c.toks[1..]);
  }

  ghost predicate TakenEntries(entries: Entries, c: Config, events: seq<Event>, used: seq<Token>, rest: seq<Token>,
        after: seq<Event>)
    requires Valid(c) && Marked(c.state) == 1
  {
    && GoodEntries(entries, c.dirs) && !entries.Keyless?
    && c.toks == used + ([TBlockEnd] + rest) && Drops(used, EntryTokens(entries))
    && events == EntryEvents(entries, c.dirs) + ([EMappingEnd] + after) && Finishes(Left(c, rest), after)
  }

  /** An entry in front of others. */
  lemma {:induction false} EntryJoined(k: Node, v: Value, more: Entries, used1: seq<Token>, used2: seq<Token>,
        used3: seq<Token>, rest: seq<Token>, dirs: seq<Directive>, after: seq<Event>)
    requires Drops(used1, Tokens(k)) && Drops(used2, ValueTokens(v)) && Drops(used3, EntryTokens(more))
    ensures var used, tail := [TKey] + (used1 + (used2 + used3)), [TBlockEnd] + rest;
            && Drops(used, EntryTokens(Entry(k, v, more)))
            && used + tail == [TKey] + (used1 + (used2 + (used3 + tail)))
    ensures var tail := [EMappingEnd] + after;
            Events(k, dirs) + (ValueEvents(v, dirs) + (EntryEvents(more, dirs) + tail))
            == EntryEvents(Entry(k, v, more), dirs) + tail
  {
    hide Events, Tokens, Drops, ValueTokens, ValueEvents;
    DropsAppend(used2, ValueTokens(v), used3, EntryTokens(more));
    DropsAppend(used1, Tokens(k), used2 + used3, ValueTokens(v) + EntryTokens(more));
    DropsAfter(TKey, used1 + (used2 + used3), Tokens(k) + (ValueTokens(v) + EntryTokens(more)));
    Regroup([TKey], used1, used2 + used3, [TBlockEnd] + rest);
    Regroup([], used2, used3, [TBlockEnd] + rest);
    var tail := [EMappingEnd] + after;
    Regroup([], Events(k, dirs), ValueEvents(v, dirs) + EntryEvents(more, dirs), tail);
    Regroup([], ValueEvents(v, dirs), EntryEvents(more, dirs), tail);
  }

  lemma {:induction false} EntriesTaken(c: Config, events: seq<Event>)
    returns (entries: Entries, used: seq<Token>, rest: seq<Token>, after: seq<Event>)
    requires Valid(c) && c.state.BlockMappingKey? && Finishes(c, events) && Named(c.toks)
    ensures TakenEntries(entries, c, events, used, rest, after) && |after| < |events|
    decreases |events|, 5
  {
    hide ParseNode, Finishes, Good, Pop, ValidStack, MarkedBelow, Events, Tokens, Drops, Valid, Named, GoodOptional;
    hide Step, ValueTokens, ValueEvents, GoodValue;
    FinishesStep(c, events);
    EntryStep(c);
    if c.toks[0].TBlockEnd? {
      entries, used, rest, after := NoEntry, [], c.toks[1..], events[1..];
      DropsNothing([]);
      assert c.toks == [] + ([TBlockEnd] + rest) && events == [] + ([EMappingEnd] + after);
    } else {
      var e := Skip(c);
      assert c.toks == [TKey] + e.toks;
      NamedRest([TKey], e.toks);
      var k, used1, rest1, after1 := SlotTaken(EndsMappingPart(e.toks[0]), e, BlockMappingValue, true, true, events);
      NamedRest(used1, rest1);
      var m := c.(state := BlockMappingValue, toks := rest1);
      FinishesStep(m, after1);
      var v, used2, rest2, after2 := ValueTaken(m, after1);
      NamedRest(used2, rest2);
      var d := c.(toks := rest2);
      Retoken(c, rest2);
      var more, used3;
      more, used3, rest, after := EntriesTaken(d, after2);
      entries := Entry(k, v, more);
      used := [TKey] + (used1 + (used2 + used3));
      EntryJoined(k, v, more, used1, used2, used3, rest, c.dirs, after);
    }
  }

  // ---------------------------------------------------------------- flow collections

  predicate GoodPart(part: Part, dirs: seq<Directive>) {
    match part
    case Single(n) => Good(n, false, false, dirs)
    case Pair(k, v) => GoodOptional(k, false, false, dirs) && GoodValue(v, false, dirs)
  }

  /** One part of a flow collection that has been read; the parser is where a comma or the end comes. */
  ghost predicate TakenPart(part: Part, partEvents: seq<Event>, c: Config, events: seq<Event>, used: seq<Token>,
        rest: seq<Token>, after: seq<Event>) {
    && GoodPart(part, c.dirs) && c.toks == used + rest && Drops(used, OnePartTokens(part))
    && events == partEvents + after && Finishes(c.(toks := rest), after)
  }

  /** A key and its value, joined. */
  lemma PairJoined(k: Node, v: Value, used1: seq<Token>, used2: seq<Token>, rest: seq<Token>)
    requires Drops(used1, Tokens(k)) && Drops(used2, ValueTokens(v))
    ensures var used := [TKey] + (used1 + used2);
            Drops(used, OnePartTokens(Pair(k, v))) && used + rest == [TKey] + (used1 + (used2 + rest))
  {
    hide Tokens, ValueTokens, Drops;
    DropsAppend(used1, Tokens(k), used2, ValueTokens(v));
    DropsAfter(TKey, used1 + used2, Tokens(k) + ValueTokens(v));
    Regroup([TKey], used1, used2, rest);
  }

  lemma MappingEntryStep(c: Config)
    requires Valid(c) && c.state.FlowMappingKey? && FlowMappingEntry(c).Emit?
    ensures c.toks != [] && c.states != [] && ValidStack(c.states) && |c.marks| == 1 + MarkedBelow(c.states)
    ensures c.toks[0].TFlowMappingEnd? ==> FlowMappingEntry(c) == Emit(EMappingEnd, Left(c, c.toks[1..]))
    ensures c.toks[0].TKey? ==>
      var e := Skip(c);
      && e.toks != [] && Valid(e)
      && FlowMappingEntry(c) == if e.toks[0].TValue? || e.toks[0].TFlowEntry? || e.toks[0].TFlowMappingEnd?
                                then Emit(EmptyScalar, Goto(e, FlowMappingValue))
                                else ParseNode(Push(e, FlowMappingValue), false, false)
    ensures !c.toks[0].TFlowMappingEnd? && !c.toks[0].TKey? ==>
      FlowMappingEntry(c) == ParseNode(Push(c, FlowMappingEmptyValue), false, false)
  {
    hide ParseNode, Pop;
    SlotReady(c);
    Retoken(c, c.toks[1..]);
  }

  lemma EmptyValueStep(m: Config, events: seq<Event>)
    requires m.state.FlowMappingEmptyValue? && Finishes(m, events)
    ensures events != [] && events[0] == NO_NODE && Finishes(m.(state := FlowMappingKey), events[1..])
  {
    hide Finishes;
    FinishesStep(m, events);
  }

  lemma {:induction false} MappingPartTaken(c: Config, events: seq<Event>)
    returns (part: Part, used: seq<Token>, rest: seq<Token>, after: seq<Event>)
    requires Valid(c) && c.state.FlowMappingKey? && Named(c.toks) && c.toks != [] && !c.toks[0].TFlowMappingEnd?
    requires ResultFinishes(FlowMappingEntry(c), events)
    ensures TakenPart(part, MappingPartEvent(part, c.dirs), c, events, used, rest, after) && |after| < |events|
    decreases |events|, 5
  {
    hide ParseNode, Finishes, Good, Pop, ValidStack, MarkedBelow, Events, Tokens, Drops, Valid, Named, Step;
    hide FlowMappingEntry, ValueTokens, ValueEvents;
    MappingEntryStep(c);
    if c.toks[0].TKey? {
      var e := Skip(c);
      assert c.toks == [TKey] + e.toks;
      NamedRest([TKey], e.toks);
      var t := e.toks[0];
      var k, used1, rest1, after1 := SlotTaken(t.TValue? || t.TFlowEntry? || t.TFlowMappingEnd?, e, FlowMappingValue,
                                               false, false, events);
      NamedRest(used1, rest1);
      var m := c.(state := FlowMappingValue, toks := rest1);
      FinishesStep(m, after1);
      var v, used2;
      v, used2, rest, after := ValueTaken(m, after1);
      part, used := Pair(k, v), [TKey] + (used1 + used2);
      PairJoined(k, v, used1, used2, rest);
      Regroup([], Events(k, c.dirs), ValueEvents(v, c.dirs), after);
    } else {
      var n, after1;
      n, used, rest, after1 := SlotTaken(false, c, FlowMappingEmptyValue, false, false, events);
      EmptyValueStep(c.(state := FlowMappingEmptyValue, toks := rest), after1);
      part, after := Single(n), after1[1..];
      assert after1 == [NO_NODE] + after;
      Regroup([], Events(n, c.dirs), [NO_NODE], after);
    }
  }

  // ---------------------------------------------------------------- parts of a flow sequence

  lemma PairKeyStep(m: Config)
    requires Valid(m) && m.state.FlowSequenceEntryMappingKey? && Step(m).Emit?
    ensures m.toks != [] && m.states != [] && ValidStack(m.states) && |m.marks| == 1 + MarkedBelow(m.states)
    ensures Valid(Skip(m))
    ensures Step(m) == if Droppable(m.toks[0]) then Emit(EmptyScalar, Goto(Skip(m), FlowSequenceEntryMappingValue))
                       else ParseNode(Push(m, FlowSequenceEntryMappingValue), false, false)
  {
    hide ParseNode, Pop;
    SlotReady(m);
    Retoken(m, m.toks[1..]);
  }

  /** The key of a pair; without one, the token that was looked at is dropped. */
  lemma {:induction false} PairKeyTaken(m: Config, events: seq<Event>)
    returns (k: Node, used: seq<Token>, rest: seq<Token>, after: seq<Event>)
    requires m.state.FlowSequenceEntryMappingKey? && Finishes(m, events) && Named(m.toks)
    ensures GoodOptional(k, false, false, m.dirs) && m.toks == used + rest && Drops([TKey] + used, [TKey] + Tokens(k))
    ensures events == Events(k, m.dirs) + after
    ensures Finishes(m.(state := FlowSequenceEntryMappingValue, toks := rest), after) && |after| < |events|
    decreases |events|, 3
  {
    hide ParseNode, Finishes, Good, Pop, ValidStack, MarkedBelow, Valid, Named, Step;
    FinishesStep(m, events);
    PairKeyStep(m);
    if Droppable(m.toks[0]) {
      k, used, rest, after := Absent, [m.toks[0]], m.toks[1..], events[1..];
      assert m.toks == used + rest && events == [NO_NODE] + after;
      var toks := [TKey] + used;
      assert [TKey] + Tokens(k) == [TKey] && toks[2..] == [] && [TKey][1..] == [];
      assert Drops(toks, [TKey]);
    } else {
      k, used, rest, after := SlotTaken(false, m, FlowSequenceEntryMappingValue, false, false, events);
      DropsAfter(TKey, used, Tokens(k));
    }
  }

  lemma SequenceItemStep(c: Config)
    requires Valid(c) && c.state.FlowSequenceEntry? && FlowSequenceItem(c).Emit?
    ensures c.toks != [] && c.states != [] && ValidStack(c.states) && |c.marks| == 1 + MarkedBelow(c.states)
    ensures c.toks[0].TFlowSequenceEnd? ==> FlowSequenceItem(c) == Emit(ESequenceEnd, Left(c, c.toks[1..]))
    ensures c.toks[0].TKey? ==>
      FlowSequenceItem(c) == Emit(EMappingStart("", "", true, true), Skip(c).(state := FlowSequenceEntryMappingKey))
    ensures !c.toks[0].TFlowSequenceEnd? && !c.toks[0].TKey? ==>
      FlowSequenceItem(c) == ParseNode(Push(c, FlowSequenceEntry), false, false)
  {
    hide ParseNode, Pop;
    SlotReady(c);
  }

  lemma PairEndStep(m: Config, events: seq<Event>)
    requires m.state.FlowSequenceEntryMappingEnd? && Finishes(m, events)
    ensures events != [] && events[0] == EMappingEnd && Finishes(m.(state := FlowSequenceEntry), events[1..])
  {
    hide Finishes;
    FinishesStep(m, events);
  }

  /** A pair of a flow sequence, behind its KEY. */
  lemma {:induction false} PairTaken(c: Config, events: seq<Event>)
    returns (k: Node, v: Value, used: seq<Token>, rest: seq<Token>, after: seq<Event>)
    requires c.state.FlowSequenceEntryMappingKey? && Finishes(c, events) && Named(c.toks)
    ensures GoodPart(Pair(k, v), c.dirs) && c.toks == used + rest && Drops([TKey] + used, OnePartTokens(Pair(k, v)))
    ensures events == Events(k, c.dirs) + (ValueEvents(v, c.dirs) + ([EMappingEnd] + after))
    ensures Finishes(c.(state := FlowSequenceEntry, toks := rest), after) && |after| < |events|
    decreases |events|, 5
  {
    hide Finishes, Good, Pop, ValidStack, MarkedBelow, Valid, Named, Step, Drops, Tokens, Events, ValueTokens;
    hide ValueEvents, GoodOptional;
    var used1, rest1, after1, used2, after2;
    k, used1, rest1, after1 := PairKeyTaken(c, events);
    NamedRest(used1, rest1);
    var m := c.(state := FlowSequenceEntryMappingValue, toks := rest1);
    FinishesStep(m, after1);
    v, used2, rest, after2 := ValueTaken(m, after1);
    PairEndStep(c.(state := FlowSequenceEntryMappingEnd, toks := rest), after2);
    used, after := used1 + used2, after2[1..];
    assert after2 == [EMappingEnd] + after;
    DropsAppend([TKey] + used1, [TKey] + Tokens(k), used2, ValueTokens(v));
    Regroup([], [TKey], used1, used2);
    Regroup([], [TKey], Tokens(k), ValueTokens(v));
    Regroup([], used1, used2, rest);
  }

  lemma {:induction false} SequencePartTaken(c: Config, events: seq<Event>)
    returns (part: Part, used: seq<Token>, rest: seq<Token>, after: seq<Event>)
    requires Valid(c) && c.state.FlowSequenceEntry? && Named(c.toks) && c.toks != [] && !c.toks[0].TFlowSequenceEnd?
    requires ResultFinishes(FlowSequenceItem(c), events)
    ensures TakenPart(part, SequencePartEvent(part, c.dirs), c, events, used, rest, after) && |after| < |events|
    decreases |events|, 6
  {
    hide ParseNode, Finishes, Good, Pop, ValidStack, MarkedBelow, Events, Tokens, Drops, Valid, Named, Step;
    hide FlowSequenceItem, ValueEvents, GoodOptional, GoodValue, ValueTokens;
    SequenceItemStep(c);
    if c.toks[0].TKey? {
      var e := Skip(c).(state := FlowSequenceEntryMappingKey);
      assert c.toks == [TKey] + e.toks;
      NamedRest([TKey], e.toks);
      var k, v, used1;
      k, v, used1, rest, after := PairTaken(e, events[1..]);
      part, used := Pair(k, v), [TKey] + used1;
      Regroup([], [TKey], used1, rest);
      PairEvents(k, v, c.dirs, after);
      assert events == [events[0]] + events[1..];
    } else {
      var n;
      n, used, rest, after := SlotTaken(false, c, FlowSequenceEntry, false, false, events);
      assert c.(state := FlowSequenceEntry, toks := rest) == c.(toks := rest);
      part := Single(n);
      OptionalIsGood(n, c.dirs);
    }
  }

  lemma OptionalIsGood(n: Node, dirs: seq<Directive>)
    requires GoodOptional(n, false, false, dirs) && !n.Absent?
    ensures Good(n, false, false, dirs)
  {
  }

  lemma {:induction false} PairEvents(k: Node, v: Value, dirs: seq<Directive>, after: seq<Event>)
    ensures [EMappingStart("", "", true, true)] + (Events(k, dirs) + (ValueEvents(v, dirs) + ([EMappingEnd] + after)))
         == SequencePartEvent(Pair(k, v), dirs) + after
  {
    hide Events, ValueEvents;
    Regroup([EMappingStart("", "", true, true)], Events(k, dirs), ValueEvents(v, dirs) + [EMappingEnd], after);
    Regroup([], ValueEvents(v, dirs), [EMappingEnd], after);
  }

  // ---------------------------------------------------------------- whole flow collections

  function CommaTokens(comma: bool): seq<Token> { if comma then [TFlowEntry] else [] }

  lemma CommaSplit(toks: seq<Token>, comma: bool)
    requires toks != [] && comma == toks[0].TFlowEntry?
    ensures toks == CommaTokens(comma) + (if comma then toks[1..] else toks)
  {
  }

  /** A part in front of others. */
  lemma {:induction false} PartJoined(part: Part, comma: bool, more: Parts, used1: seq<Token>, used2: seq<Token>,
        tail: seq<Token>)
    requires Drops(used1, OnePartTokens(part)) && Drops(used2, PartTokens(more))
    ensures var used := used1 + (CommaTokens(comma) + used2);
            && Drops(used, PartTokens(More(part, comma, more)))
            && used + tail == used1 + (CommaTokens(comma) + (used2 + tail))
  {
    hide Drops, OnePartTokens;
    DropsNothing(CommaTokens(comma));
    DropsAppend(CommaTokens(comma), CommaTokens(comma), used2, PartTokens(more));
    DropsAppend(used1, OnePartTokens(part), CommaTokens(comma) + used2, CommaTokens(comma) + PartTokens(more));
    Regroup(used1, CommaTokens(comma), used2, tail);
  }

  lemma NoParts(dirs: seq<Directive>)
    ensures GoodParts(NoPart, dirs) && PartTokens(NoPart) == []
    ensures MappingPartEvents(NoPart, dirs) == [] && SequencePartEvents(NoPart, dirs) == []
  {
  }

  lemma {:induction false} PartIsGood(part: Part, comma: bool, more: Parts, dirs: seq<Directive>)
    requires GoodPart(part, dirs) && GoodParts(more, dirs) && (more.More? ==> comma)
    ensures GoodParts(More(part, comma, more), dirs)
    ensures MappingPartEvents(More(part, comma, more), dirs)
         == MappingPartEvent(part, dirs) + MappingPartEvents(more, dirs)
    ensures SequencePartEvents(More(part, comma, more), dirs)
         == SequencePartEvent(part, dirs) + SequencePartEvents(more, dirs)
  {
    hide Good, Events, ValueEvents, GoodValue, GoodOptional;
  }

  lemma MappingCommaStep(c: Config)
    requires Valid(c) && c.state.FlowMappingKey? && Step(c).Emit?
    ensures c.toks != [] && (c.toks[0].TFlowMappingEnd? || c.toks[0].TFlowEntry?)
    ensures c.toks[0].TFlowMappingEnd? ==> Step(c) == FlowMappingEntry(c)
    ensures c.toks[0].TFlowEntry? ==> Valid(Skip(c)) && Step(c) == FlowMappingEntry(Skip(c))
  {
    hide ParseNode, Pop, LastMark, FlowMappingEntry;
    Retoken(c, c.toks[1..]);
  }

  ghost predicate TakenMappingParts(parts: Parts, c: Config, events: seq<Event>, used: seq<Token>, rest: seq<Token>,
        after: seq<Event>)
    requires Valid(c) && Marked(c.state) == 1
  {
    && GoodParts(parts, c.dirs) && c.toks == used + ([TFlowMappingEnd] + rest) && Drops(used, PartTokens(parts))
    && events == MappingPartEvents(parts, c.dirs) + ([EMappingEnd] + after) && Finishes(Left(c, rest), after)
  }

  lemma {:induction false} MappingPartsTaken(c: Config, events: seq<Event>)
    returns (parts: Parts, used: seq<Token>, rest: seq<Token>, after: seq<Event>)
    requires Valid(c) && c.state.FlowMappingKey? && Named(c.toks) && ResultFinishes(FlowMappingEntry(c), events)
    ensures TakenMappingParts(parts, c, events, used, rest, after) && |after| < |events|
    ensures c.toks != [] && (c.toks[0].TFlowMappingEnd? ==> parts.NoPart?)
    decreases |events|, 7
  {
    hide ParseNode, Finishes, Good, Pop, ValidStack, MarkedBelow, Drops, Valid, Named, Step, FlowMappingEntry;
    hide OnePartTokens, GoodPart, GoodParts, PartTokens, CommaTokens, MappingPartEvent, MappingPartEvents;
    NoParts(c.dirs);
    MappingEntryStep(c);
    if c.toks[0].TFlowMappingEnd? {
      parts, used, rest, after := NoPart, [], c.toks[1..], events[1..];
      DropsNothing([]);
      assert c.toks == [] + ([TFlowMappingEnd] + rest) && events == [] + ([EMappingEnd] + after);
    } else {
      var part, used1, rest1, after1 := MappingPartTaken(c, events);
      NamedRest(used1, rest1);
      var d := c.(toks := rest1);
      Retoken(c, rest1);
      FinishesStep(d, after1);
      MappingCommaStep(d);
      var comma := d.toks[0].TFlowEntry?;
      var e := if comma then Skip(d) else d;
      CommaSplit(d.toks, comma);
      NamedRest(CommaTokens(comma), e.toks);
      var more, used2;
      more, used2, rest, after := MappingPartsTaken(e, after1);
      parts, used := More(part, comma, more), used1 + (CommaTokens(comma) + used2);
      PartIsGood(part, comma, more, c.dirs);
      PartJoined(part, comma, more, used1, used2, [TFlowMappingEnd] + rest);
      Regroup([], MappingPartEvent(part, c.dirs), MappingPartEvents(more, c.dirs), [EMappingEnd] + after);
    }
  }

  lemma SequenceCommaStep(c: Config)
    requires Valid(c) && c.state.FlowSequenceEntry? && Step(c).Emit?
    ensures c.toks != [] && (c.toks[0].TFlowSequenceEnd? || c.toks[0].TFlowEntry?)
    ensures c.toks[0].TFlowSequenceEnd? ==> Step(c) == FlowSequenceItem(c)
    ensures c.toks[0].TFlowEntry? ==> Valid(Skip(c)) && Step(c) == FlowSequenceItem(Skip(c))
  {
    hide ParseNode, Pop, LastMark, FlowSequenceItem;
    Retoken(c, c.toks[1..]);
  }

  ghost predicate TakenSequenceParts(parts: Parts, c: Config, events: seq<Event>, used: seq<Token>, rest: seq<Token>,
        after: seq<Event>)
    requires Valid(c) && Marked(c.state) == 1
  {
    && GoodParts(parts, c.dirs) && c.toks == used + ([TFlowSequenceEnd] + rest) && Drops(used, PartTokens(parts))
    && events == SequencePartEvents(parts, c.dirs) + ([ESequenceEnd] + after) && Finishes(Left(c, rest), after)
  }

  lemma {:induction false} SequencePartsTaken(c: Config, events: seq<Event>)
    returns (parts: Parts, used: seq<Token>, rest: seq<Token>, after: seq<Event>)
    requires Valid(c) && c.state.FlowSequenceEntry? && Named(c.toks) && ResultFinishes(FlowSequenceItem(c), events)
    ensures TakenSequenceParts(parts, c, events, used, rest, after) && |after| < |events|
    ensures c.toks != [] && (c.toks[0].TFlowSequenceEnd? ==> parts.NoPart?)
    decreases |events|, 7
  {
    hide ParseNode, Finishes, Good, Pop, ValidStack, MarkedBelow, Drops, Valid, Named, Step, FlowSequenceItem;
    hide OnePartTokens, GoodPart, GoodParts, PartTokens, CommaTokens, SequencePartEvent, SequencePartEvents;
    NoParts(c.dirs);
    SequenceItemStep(c);
    if c.toks[0].TFlowSequenceEnd? {
      parts, used, rest, after := NoPart, [], c.toks[1..], events[1..];
      DropsNothing([]);
      assert c.toks == [] + ([TFlowSequenceEnd] + rest) && events == [] + ([ESequenceEnd] + after);
    } else {
      var part, used1, rest1, after1 := SequencePartTaken(c, events);
      NamedRest(used1, rest1);
      var d := c.(toks := rest1);
      Retoken(c, rest1);
      FinishesStep(d, after1);
      SequenceCommaStep(d);
      var comma := d.toks[0].TFlowEntry?;
      var e := if comma then Skip(d) else d;
      CommaSplit(d.toks, comma);
      NamedRest(CommaTokens(comma), e.toks);
      var more, used2;
      more, used2, rest, after := SequencePartsTaken(e, after1);
      parts, used := More(part, comma, more), used1 + (CommaTokens(comma) + used2);
      PartIsGood(part, comma, more, c.dirs);
      PartJoined(part, comma, more, used1, used2, [TFlowSequenceEnd] + rest);
      Regroup([], SequencePartEvent(part, c.dirs), SequencePartEvents(more, c.dirs), [ESequenceEnd] + after);
    }
  }

  // ---------------------------------------------------------------- collections with their properties

  /** The tokens of a collection around its inside. */
  lemma WrapJoined(p: Properties, t: Token, used: seq<Token>, kept: seq<Token>, end: Token, rest: seq<Token>)
    requires Drops(used, kept)
    ensures var all := PropertyTokens(p) + ([t] + (used + [end]));
            && Drops(all, PropertyTokens(p) + ([t] + (kept + [end])))
            && all + rest == PropertyTokens(p) + ([t] + (used + ([end] + rest)))
  {
    hide PropertyTokens, Drops;
    DropsNothing([end]);
    DropsAppend(used, kept, [end], [end]);
    DropsAfter(t, used + [end], kept + [end]);
    DropsNothing(PropertyTokens(p));
    DropsAppend(PropertyTokens(p), PropertyTokens(p), [t] + (used + [end]), [t] + (kept + [end]));
    Regroup(PropertyTokens(p), [t], used + [end], rest);
    Regroup([], used, [end], rest);
  }

  lemma LeftIsPop(c: Config, toks: seq<Token>, first: State, s: State, rest: seq<Token>)
    requires NodeReady(c) && toks != [] && Marked(first) == 0 && Marked(s) == 1 && Return(s)
    requires Valid(c.(toks := toks, state := first))
    ensures var e := Enter(c.(toks := toks, state := first), s); Left(e, rest) == Pop(c.(toks := rest))
  {
    var d := c.(toks := toks, state := first);
    var e := Enter(d, s);
    assert e.marks[..|e.marks| - 1] == c.marks;
  }

  lemma EventsOfWrapped<T>(e: T, inner: seq<T>, end: T, after: seq<T>)
    ensures [e] + (inner + ([end] + after)) == [e] + (inner + [end]) + after
  {
  }

  /** A collection, from its inside. */
  lemma {:induction false} WrapTaken(n: Node, c: Config, p: Properties, toks: seq<Token>, block: bool,
        indentless: bool, events: seq<Event>, used: seq<Token>, kept: seq<Token>, end: Token, inner: seq<Event>,
        last: Event, rest: seq<Token>, after: seq<Event>)
    requires NodeReady(c) && Good(n, block, indentless, c.dirs) && toks != [] && events != []
    requires c.toks == PropertyTokens(p) + toks && toks[1..] == used + ([end] + rest) && Drops(used, kept)
    requires Tokens(n) == PropertyTokens(p) + ([toks[0]] + (kept + [end]))
    requires Events(n, c.dirs) == [events[0]] + (inner + [last]) && events[1..] == inner + ([last] + after)
    requires Finishes(Pop(c.(toks := rest)), after)
    ensures TakenNode(n, c, block, indentless, events, PropertyTokens(p) + ([toks[0]] + (used + [end])), rest, after)
  {
    hide Finishes, Pop, ValidStack, MarkedBelow, PropertyTokens, Drops, Good, Tokens, Events;
    WrapJoined(p, toks[0], used, kept, end, rest);
    assert toks == [toks[0]] + toks[1..] && events == [events[0]] + events[1..];
    EventsOfWrapped(events[0], inner, last, after);
  }

  /** The first step inside a collection is a step of the collection entered. */
  lemma EnterFinishes(d: Config, s: State, events: seq<Event>) returns (e: Config)
    requires Valid(d) && Finishes(d, events)
    requires d.toks != [] && StartOf(d.toks[0], d.state, s)
    ensures d.states != [] && e == Enter(d, s) && Valid(e) && e.toks == d.toks[1..]
    ensures s.BlockSequenceEntry? || s.BlockMappingKey? ==> Finishes(e, events)
    ensures s.FlowSequenceEntry? ==> ResultFinishes(FlowSequenceItem(e), events)
    ensures s.FlowMappingKey? ==> ResultFinishes(FlowMappingEntry(e), events)
  {
    hide Finishes, MarkedBelow, ValidStack;
    FinishesStep(d, events);
    e := Enter(d, s);
    if s.BlockSequenceEntry? || s.BlockMappingKey? {
      hide Step;
      FirstIsSame(d, s);
      FinishesFrom(e, events);
    }
  }

  lemma BlockSequenceStarts(c: Config, p: Properties, toks: seq<Token>, block: bool, indentless: bool,
        events: seq<Event>)
    requires NodeReady(c) && ContentFinishes(c, p, toks, block, indentless, events)
    requires toks[0].TBlockSequenceStart? && block
    ensures toks != [] && events != [] && events[0] == SequenceEvent(p, c.dirs, false)
    ensures GoodProps(p, c.dirs) && c.toks == PropertyTokens(p) + toks
    ensures Finishes(c.(toks := toks, state := BlockSequenceFirstEntry), events[1..])
  {
    hide Finishes, PropertyTokens, TagOf, ValidStack, MarkedBelow;
  }

  lemma BlockSequenceShape(p: Properties, items: Items, dirs: seq<Directive>, block: bool, indentless: bool)
    requires GoodItems(items, dirs) && GoodProps(p, dirs) && block
    ensures var n := BlockSequence(p, items);
            && Good(n, block, indentless, dirs)
            && Tokens(n) == PropertyTokens(p) + ([TBlockSequenceStart] + (ItemTokens(items) + [TBlockEnd]))
            && Events(n, dirs) == [SequenceEvent(p, dirs, false)] + (ItemEvents(items, dirs) + [ESequenceEnd])
  {
    hide PropertyTokens, TagOf, GoodItems, ItemTokens, ItemEvents;
  }

  lemma {:induction false} BlockSequenceTaken(c: Config, p: Properties, toks: seq<Token>, block: bool, indentless: bool,
        events: seq<Event>) returns (n: Node, used: seq<Token>, rest: seq<Token>, after: seq<Event>)
    requires NodeReady(c) && ContentFinishes(c, p, toks, block, indentless, events) && Named(toks)
    requires toks[0].TBlockSequenceStart? && block
    ensures TakenNode(n, c, block, indentless, events, used, rest, after) && |after| < |events|
    decreases |events| - 1, 8
  {
    hide Finishes, Pop, ValidStack, MarkedBelow, PropertyTokens, TagOf, Drops, Valid, Step;
    hide GoodItems, ItemTokens, ItemEvents, ContentFinishes, Good, Tokens, Events, TagText;
    BlockSequenceStarts(c, p, toks, block, indentless, events);
    var d := c.(toks := toks, state := BlockSequenceFirstEntry);
    FinishesStep(d, events[1..]);
    var e := EnterFinishes(d, BlockSequenceEntry, events[1..]);
    NamedTail(toks);
    var inner, used1;
    inner, used1, rest, after := ItemsTaken(e, events[1..]);
    n := BlockSequence(p, inner);
    used := PropertyTokens(p) + ([toks[0]] + (used1 + [TBlockEnd]));
    BlockSequenceShape(p, inner, c.dirs, block, indentless);
    LeftIsPop(c, toks, BlockSequenceFirstEntry, BlockSequenceEntry, rest);
    WrapTaken(n, c, p, toks, block, indentless, events, used1, ItemTokens(inner), TBlockEnd,
              ItemEvents(inner, c.dirs), ESequenceEnd, rest, after);
  }

  lemma BlockMappingStarts(c: Config, p: Properties, toks: seq<Token>, block: bool, indentless: bool,
        events: seq<Event>)
    requires NodeReady(c) && ContentFinishes(c, p, toks, block, indentless, events)
    requires toks[0].TBlockMappingStart? && block
    ensures toks != [] && events != [] && events[0] == MappingEvent(p, c.dirs, false)
    ensures GoodProps(p, c.dirs) && c.toks == PropertyTokens(p) + toks
    ensures Finishes(c.(toks := toks, state := BlockMappingFirstKey), events[1..])
  {
    hide Finishes, PropertyTokens, TagOf, ValidStack, MarkedBelow;
  }

  lemma BlockMappingShape(p: Properties, entries: Entries, dirs: seq<Directive>, block: bool, indentless: bool)
    requires GoodEntries(entries, dirs) && GoodProps(p, dirs) && block
    ensures var n := BlockMapping(p, entries);
            && Good(n, block, indentless, dirs)
            && Tokens(n) == PropertyTokens(p) + ([TBlockMappingStart] + (EntryTokens(entries) + [TBlockEnd]))
            && Events(n, dirs) == [MappingEvent(p, dirs, false)] + (EntryEvents(entries, dirs) + [EMappingEnd])
  {
    hide PropertyTokens, TagOf, GoodEntries, EntryTokens, EntryEvents;
  }

  lemma {:induction false} BlockMappingTaken(c: Config, p: Properties, toks: seq<Token>, block: bool, indentless: bool,
        events: seq<Event>) returns (n: Node, used: seq<Token>, rest: seq<Token>, after: seq<Event>)
    requires NodeReady(c) && ContentFinishes(c, p, toks, block, indentless, events) && Named(toks)
    requires toks[0].TBlockMappingStart? && block
    ensures TakenNode(n, c, block, indentless, events, used, rest, after) && |after| < |events|
    decreases |events| - 1, 8
  {
    hide Finishes, Pop, ValidStack, MarkedBelow, PropertyTokens, TagOf, Drops, Valid, Step;
    hide GoodEntries, EntryTokens, EntryEvents, ContentFinishes, Good, Tokens, Events, TagText;
    BlockMappingStarts(c, p, toks, block, indentless, events);
    var d := c.(toks := toks, state := BlockMappingFirstKey);
    FinishesStep(d, events[1..]);
    var e := EnterFinishes(d, BlockMappingKey, events[1..]);
    NamedTail(toks);
    var inner, used1;
    inner, used1, rest, after := EntriesTaken(e, events[1..]);
    n := BlockMapping(p, inner);
    used := PropertyTokens(p) + ([toks[0]] + (used1 + [TBlockEnd]));
    BlockMappingShape(p, inner, c.dirs, block, indentless);
    LeftIsPop(c, toks, BlockMappingFirstKey, BlockMappingKey, rest);
    WrapTaken(n, c, p, toks, block, indentless, events, used1, EntryTokens(inner), TBlockEnd,
              EntryEvents(inner, c.dirs), EMappingEnd, rest, after);
  }

  lemma FlowSequenceStarts(c: Config, p: Properties, toks: seq<Token>, block: bool, indentless: bool,
        events: seq<Event>)
    requires NodeReady(c) && ContentFinishes(c, p, toks, block, indentless, events)
    requires toks[0].TFlowSequenceStart?
    ensures toks != [] && events != [] && events[0] == SequenceEvent(p, c.dirs, true)
    ensures GoodProps(p, c.dirs) && c.toks == PropertyTokens(p) + toks
    ensures Finishes(c.(toks := toks, state := FlowSequenceFirstEntry), events[1..])
  {
    hide Finishes, PropertyTokens, TagOf, ValidStack, MarkedBelow;
  }

  lemma FlowSequenceShape(p: Properties, parts: Parts, dirs: seq<Directive>, block: bool, indentless: bool)
    requires GoodParts(parts, dirs) && GoodProps(p, dirs)
    ensures var n := FlowSequence(p, parts);
            && Good(n, block, indentless, dirs)
            && Tokens(n) == PropertyTokens(p) + ([TFlowSequenceStart] + (PartTokens(parts) + [TFlowSequenceEnd]))
            && Events(n, dirs) == [SequenceEvent(p, dirs, true)] + (SequencePartEvents(parts, dirs) + [ESequenceEnd])
  {
    hide PropertyTokens, TagOf, GoodParts, PartTokens, SequencePartEvents;
  }

  lemma {:induction false} FlowSequenceTaken(c: Config, p: Properties, toks: seq<Token>, block: bool, indentless: bool,
        events: seq<Event>) returns (n: Node, used: seq<Token>, rest: seq<Token>, after: seq<Event>)
    requires NodeReady(c) && ContentFinishes(c, p, toks, block, indentless, events) && Named(toks)
    requires toks[0].TFlowSequenceStart?
    ensures TakenNode(n, c, block, indentless, events, used, rest, after) && |after| < |events|
    decreases |events| - 1, 8
  {
    hide Finishes, Pop, ValidStack, MarkedBelow, PropertyTokens, TagOf, Drops, Valid, Step;
    hide GoodParts, PartTokens, SequencePartEvents, ContentFinishes, Good, Tokens, Events, TagText;
    FlowSequenceStarts(c, p, toks, block, indentless, events);
    var d := c.(toks := toks, state := FlowSequenceFirstEntry);
    FinishesStep(d, events[1..]);
    var e := EnterFinishes(d, FlowSequenceEntry, events[1..]);
    NamedTail(toks);
    var inner, used1;
    inner, used1, rest, after := SequencePartsTaken(e, events[1..]);
    n := FlowSequence(p, inner);
    used := PropertyTokens(p) + ([toks[0]] + (used1 + [TFlowSequenceEnd]));
    FlowSequenceShape(p, inner, c.dirs, block, indentless);
    LeftIsPop(c, toks, FlowSequenceFirstEntry, FlowSequenceEntry, rest);
    WrapTaken(n, c, p, toks, block, indentless, events, used1, PartTokens(inner), TFlowSequenceEnd,
              SequencePartEvents(inner, c.dirs), ESequenceEnd, rest, after);
  }

  lemma FlowMappingStarts(c: Config, p: Properties, toks: seq<Token>, block: bool, indentless: bool,
        events: seq<Event>)
    requires NodeReady(c) && ContentFinishes(c, p, toks, block, indentless, events)
    requires toks[0].TFlowMappingStart?
    ensures toks != [] && events != [] && events[0] == MappingEvent(p, c.dirs, true)
    ensures GoodProps(p, c.dirs) && c.toks == PropertyTokens(p) + toks
    ensures Finishes(c.(toks := toks, state := FlowMappingFirstKey), events[1..])
  {
    hide Finishes, PropertyTokens, TagOf, ValidStack, MarkedBelow;
  }

  lemma FlowMappingShape(p: Properties, parts: Parts, dirs: seq<Directive>, block: bool, indentless: bool)
    requires GoodParts(parts, dirs) && GoodProps(p, dirs)
    ensures var n := FlowMapping(p, parts);
            && Good(n, block, indentless, dirs)
            && Tokens(n) == PropertyTokens(p) + ([TFlowMappingStart] + (PartTokens(parts) + [TFlowMappingEnd]))
            && Events(n, dirs) == [MappingEvent(p, dirs, true)] + (MappingPartEvents(parts, dirs) + [EMappingEnd])
  {
    hide PropertyTokens, TagOf, GoodParts, PartTokens, MappingPartEvents;
  }

  lemma {:induction false} FlowMappingTaken(c: Config, p: Properties, toks: seq<Token>, block: bool, indentless: bool,
        events: seq<Event>) returns (n: Node, used: seq<Token>, rest: seq<Token>, after: seq<Event>)
    requires NodeReady(c) && ContentFinishes(c, p, toks, block, indentless, events) && Named(toks)
    requires toks[0].TFlowMappingStart?
    ensures TakenNode(n, c, block, indentless, events, used, rest, after) && |after| < |events|
    decreases |events| - 1, 8
  {
    hide Finishes, Pop, ValidStack, MarkedBelow, PropertyTokens, TagOf, Drops, Valid, Step;
    hide GoodParts, PartTokens, MappingPartEvents, ContentFinishes, Good, Tokens, Events, TagText;
    FlowMappingStarts(c, p, toks, block, indentless, events);
    var d := c.(toks := toks, state := FlowMappingFirstKey);
    FinishesStep(d, events[1..]);
    var e := EnterFinishes(d, FlowMappingKey, events[1..]);
    NamedTail(toks);
    var inner, used1;
    inner, used1, rest, after := MappingPartsTaken(e, events[1..]);
    n := FlowMapping(p, inner);
    used := PropertyTokens(p) + ([toks[0]] + (used1 + [TFlowMappingEnd]));
    FlowMappingShape(p, inner, c.dirs, block, indentless);
    LeftIsPop(c, toks, FlowMappingFirstKey, FlowMappingKey, rest);
    WrapTaken(n, c, p, toks, block, indentless, events, used1, PartTokens(inner), TFlowMappingEnd,
              MappingPartEvents(inner, c.dirs), EMappingEnd, rest, after);
  }

  lemma NamedTail(toks: seq<Token>)
    requires toks != [] && Named(toks)
    ensures Named(toks[1..])
  {
  }

  lemma {:induction false} IndentlessSequenceTaken(c: Config, p: Properties, toks: seq<Token>, block: bool,
        indentless: bool, events: seq<Event>) returns (n: Node, used: seq<Token>, rest: seq<Token>, after: seq<Event>)
    requires NodeReady(c) && ContentFinishes(c, p, toks, block, indentless, events) && Named(toks)
    requires toks[0].TBlockEntry? && indentless
    ensures TakenNode(n, c, block, indentless, events, used, rest, after) && |after| < |events|
    decreases |events| - 1, 8
  {
    hide Finishes, Pop, ValidStack, MarkedBelow, PropertyTokens, TagOf, Drops, Valid, Step, GoodItems, ItemTokens;
    hide ItemEvents;
    var d := c.(toks := toks, state := IndentlessSequenceEntry);
    FinishesStep(d, events[1..]);
    var items, used1;
    items, used1, rest, after := IndentlessTaken(d, events[1..]);
    n, used := Indentless(p, items), PropertyTokens(p) + used1;
    DropsNothing(PropertyTokens(p));
    DropsAppend(PropertyTokens(p), PropertyTokens(p), used1, ItemTokens(items));
    Regroup([], PropertyTokens(p), used1, rest);
    EventsOfWrapped(events[0], ItemEvents(items, c.dirs), ESequenceEnd, after);
    assert events == [events[0]] + events[1..];
    assert Pop(d.(toks := rest)) == Pop(c.(toks := rest)) by { PopIgnoresState(c, rest); }
  }

  lemma PopIgnoresState(c: Config, rest: seq<Token>)
    requires NodeReady(c)
    ensures Pop(c.(state := IndentlessSequenceEntry, toks := rest)) == Pop(c.(toks := rest))
  {
  }

  // ---------------------------------------------------------------- documents

  lemma {:induction false} SplitDirectives(c: Config, version: bool, tags: seq<Directive>)
    returns (ds: seq<Token>, rest: seq<Token>)
    requires ReadDirectives(c, version, tags).Read?
    ensures c.toks == ds + rest && GoodDirectives(ds, version, c.dirs) && rest != [] && !IsDirective(rest[0])
    decreases |c.toks|
  {
    hide HasHandle, WithDefaults;
    var t := c.toks[0];
    if !IsDirective(t) {
      ds, rest := [], c.toks;
    } else {
      if t.TVersion? {
        ds, rest := SplitDirectives(Skip(c), true, tags);
      } else {
        ds, rest := SplitDirectives(Skip(c).(dirs := c.dirs + [t.directive]), version, tags + [t.directive]);
      }
      assert c.toks == [t] + c.toks[1..];
      assert ([t] + ds)[1..] == ds;
      ds := [t] + ds;
    }
  }

  lemma {:induction false} SplitEnds(c: Config) returns (k: nat)
    ensures var d := SkipDocumentEnds(c);
            c.toks == Ends(k) + d.toks && (d.toks != [] ==> !d.toks[0].TDocumentEnd?)
    decreases |c.toks|
  {
    if c.toks != [] && c.toks[0].TDocumentEnd? {
      var n := SplitEnds(Skip(c));
      k := n + 1;
      var rest := SkipDocumentEnds(c).toks;
      assert c.toks == [TDocumentEnd] + c.toks[1..] && c.toks[1..] == Ends(n) + rest;
      Regroup([], [TDocumentEnd], Ends(n), rest);
    } else {
      k := 0;
    }
  }

  lemma {:induction false} RootTaken(c: Config, events: seq<Event>)
    returns (n: Node, used: seq<Token>, rest: seq<Token>, after: seq<Event>)
    requires AtRoot(c) && Finishes(c, events) && Named(c.toks)
    ensures if c.state.BlockNode? then Good(n, true, false, c.dirs) else GoodOptional(n, true, false, c.dirs)
    ensures c.toks == used + rest && Drops(used, Tokens(n)) && events == Events(n, c.dirs) + after
    ensures Finishes(Config(DocumentEnd, [], [], rest, c.dirs), after) && |after| < |events|
  {
    hide ParseNode, Finishes, Good, Pop, NodeReady, Named;
    AtRootReady(c);
    FinishesStep(c, events);
    assert c.(toks := c.toks) == c;
    if c.state.DocumentContent? && AfterRoot(c.toks[0]) {
      n, used, rest, after := Absent, [], c.toks, events[1..];
      assert c.toks == [] + c.toks && events == [NO_NODE] + after;
      DropsNothing([]);
    } else {
      n, used, rest, after := NodeTaken(c, true, false, events);
    }
  }

  /** The end of a document, explicit or not. */
  lemma DocumentEndTaken(toks: seq<Token>, dirs: seq<Directive>, events: seq<Event>) returns (next: Config)
    requires Finishes(Config(DocumentEnd, [], [], toks, dirs), events) && Named(toks)
    ensures Named(next.toks)
    ensures toks != [] && events != [] && events[0] == EDocumentEnd(!toks[0].TDocumentEnd?)
    ensures next == Config(DocumentStart, [], [], if toks[0].TDocumentEnd? then toks[1..] else toks, [])
    ensures Finishes(next, events[1..])
  {
    hide Finishes;
    var c := Config(DocumentEnd, [], [], toks, dirs);
    FinishesStep(c, events);
    next := Step(c).next;
  }

  /** A document up to the next one; `k` says how many more DOCUMENT-END tokens follow it. */
  lemma EndsJoined(toks: seq<Token>, k: nat, tail: seq<Token>)
    requires toks != [] && (if toks[0].TDocumentEnd? then toks[1..] else toks) == Ends(k) + tail
    ensures var ends := if toks[0].TDocumentEnd? then k + 1 else 0;
            toks == Ends(ends) + tail && (ends == 0) == !toks[0].TDocumentEnd?
  {
    if toks[0].TDocumentEnd? {
      assert toks == [TDocumentEnd] + toks[1..];
    }
  }

  /** Where documents start, explicitly. */
  ghost predicate ExplicitlyBetween(c: Config) {
    && Between(c)
    && (c.state.ImplicitDocumentStart? ==> c.toks != [] && (StartsExplicitDocument(c.toks[0]) || c.toks[0].TStreamEnd?))
  }

  /** The documents of a stream and its end, behind `k` DOCUMENT-END tokens. */
  ghost predicate TakenDocuments(k: nat, docs: Documents, c: Config, events: seq<Event>, used: seq<Token>,
        rest: seq<Token>) {
    && GoodDocuments(docs) && c.toks == Ends(k) + (used + ([TStreamEnd] + rest)) && Drops(used, DocumentsTokens(docs))
    && events == DocumentsEvents(docs) + [EStreamEnd] && (c.state.ImplicitDocumentStart? ==> k == 0)
  }

  lemma BetweenStep(c: Config, events: seq<Event>) returns (e: Config, k: nat)
    requires ExplicitlyBetween(c) && Finishes(c, events)
    ensures Between(e) && e == c.(toks := e.toks) && c.toks == Ends(k) + e.toks
    ensures c.state.ImplicitDocumentStart? ==> k == 0
    ensures e.toks != []
    ensures e.state.ImplicitDocumentStart? ==> StartsExplicitDocument(e.toks[0]) || e.toks[0].TStreamEnd?
    ensures ResultFinishes(OpenDocument(e, e.state.ImplicitDocumentStart?), events)
  {
    hide Finishes, OpenDocument;
    FinishesStep(c, events);
    if c.state.ImplicitDocumentStart? {
      e, k := c, 0;
    } else {
      e := SkipDocumentEnds(c);
      k := SplitEnds(c);
      assert e.toks != [] by { OpenNeedsToken(e, false); }
    }
  }

  lemma OpenNeedsToken(c: Config, implicit: bool)
    requires OpenDocument(c, implicit).Emit?
    ensures c.toks != []
  {
  }

  lemma StreamEndTaken(e: Config, events: seq<Event>)
    requires e.toks != [] && e.toks[0].TStreamEnd?
    requires ResultFinishes(OpenDocument(e, e.state.ImplicitDocumentStart?), events)
    ensures events == [EStreamEnd]
  {
    hide Finishes;
    FinishedAtEnd(Skip(e).(state := End), events[1..]);
    assert events == [events[0]] + events[1..];
  }

  /** A document's directives and its DOCUMENT-START. */
  lemma StartTaken(e: Config, events: seq<Event>) returns (ds: seq<Token>, toks: seq<Token>)
    requires Between(e) && e.toks != [] && !e.toks[0].TStreamEnd?
    requires e.state.ImplicitDocumentStart? ==> StartsExplicitDocument(e.toks[0])
    requires ResultFinishes(OpenDocument(e, e.state.ImplicitDocumentStart?), events)
    ensures e.toks == ds + ([TDocumentStart] + toks) && GoodDirectives(ds, false, [])
    ensures events[0] == EDocumentStart(VersionIn(ds), TagsIn(ds))
    ensures Finishes(Config(DocumentContent, [DocumentEnd], [], toks, Scope(ds)), events[1..])
  {
    hide Finishes, ReadDirectives, WithDefaults, VersionIn, TagsIn, Scope, GoodDirectives;
    var rest;
    ds, rest := SplitDirectives(e, false, []);
    DirectivesRead(ds, e, false, [], rest);
    toks := rest[1..];
    assert rest == [TDocumentStart] + toks;
    FirstDirective(ds, e.dirs);
    DocumentOpens(ds, e, rest);
  }

  lemma FirstDirective(ds: seq<Token>, dirs: seq<Directive>)
    requires GoodDirectives(ds, false, dirs)
    ensures ds != [] ==> IsDirective(ds[0])
  {
  }

  /** A document in front of others, put together. */
  lemma {:induction false} DocumentJoined(d: Document, more: Documents, used1: seq<Token>, used2: seq<Token>,
        tail: seq<Token>)
    requires Drops(used1, Tokens(d.root)) && Drops(used2, DocumentsTokens(more))
    ensures var used := d.directives + ([TDocumentStart] + (used1 + Ends(d.ends))) + used2;
            && Drops(used, DocumentsTokens(Another(d, more)))
            && used + tail == d.directives + ([TDocumentStart] + (used1 + (Ends(d.ends) + (used2 + tail))))
  {
    hide Drops, Tokens, Ends;
    var body, kept := used1 + Ends(d.ends), Tokens(d.root) + Ends(d.ends);
    DropsNothing(Ends(d.ends));
    DropsAppend(used1, Tokens(d.root), Ends(d.ends), Ends(d.ends));
    DropsAfter(TDocumentStart, body, kept);
    DropsNothing(d.directives);
    DropsAppend(d.directives, d.directives, [TDocumentStart] + body, [TDocumentStart] + kept);
    DropsAppend(d.directives + ([TDocumentStart] + body), DocumentTokens(d), used2, DocumentsTokens(more));
    DocumentRegroup(d.directives, used1, Ends(d.ends), used2, tail);
  }

  lemma DocumentRegroup(ds: seq<Token>, root: seq<Token>, ends: seq<Token>, more: seq<Token>, tail: seq<Token>)
    ensures ds + ([TDocumentStart] + (root + ends)) + more + tail
         == ds + ([TDocumentStart] + (root + (ends + (more + tail))))
  {
    Regroup([], ds, [TDocumentStart] + (root + ends), more);
    Regroup([], [TDocumentStart], root + ends, more + tail);
    Regroup([], root, ends, more + tail);
    Regroup([], ds + ([TDocumentStart] + (root + ends)), more, tail);
    Regroup([], ds, [TDocumentStart] + (root + ends), more + tail);
  }

  lemma DocumentEventsJoined(d: Document, more: Documents, events: seq<Event>, rest: seq<Event>, last: seq<Event>)
    requires events != [] && rest != [] && last == DocumentsEvents(more) + [EStreamEnd]
    requires events[0] == EDocumentStart(VersionIn(d.directives), TagsIn(d.directives))
    requires events[1..] == Events(d.root, Scope(d.directives)) + rest
    requires rest[0] == EDocumentEnd(d.ends == 0) && rest[1..] == last
    ensures events == DocumentsEvents(Another(d, more)) + [EStreamEnd]
  {
    hide Events, Scope, VersionIn, TagsIn, DocumentsEvents;
    assert events == [events[0]] + events[1..] && rest == [rest[0]] + rest[1..];
    var root, end := Events(d.root, Scope(d.directives)), [rest[0]];
    assert DocumentsEvents(Another(d, more)) == DocumentEvents(d) + DocumentsEvents(more) by {
      MoreDocuments(d, more);
    }
    Regroup([events[0]], root, end, last);
    Regroup([], DocumentEvents(d), DocumentsEvents(more), [EStreamEnd]);
  }

  lemma MoreDocuments(d: Document, more: Documents)
    ensures DocumentsEvents(Another(d, more)) == DocumentEvents(d) + DocumentsEvents(more)
  {
    hide DocumentEvents;
  }

  lemma {:induction false} DocumentsTaken(c: Config, events: seq<Event>)
    returns (k: nat, docs: Documents, used: seq<Token>, rest: seq<Token>)
    requires ExplicitlyBetween(c) && Finishes(c, events) && Named(c.toks)
    ensures TakenDocuments(k, docs, c, events, used, rest)
    decreases |events|
  {
    hide Finishes, OpenDocument, Named, GoodOptional, Drops, GoodDirectives, Events, Tokens, Scope, VersionIn, TagsIn;
    hide Ends, DocumentsEvents, DocumentsTokens;
    var e;
    e, k := BetweenStep(c, events);
    NamedRest(Ends(k), e.toks);
    if e.toks[0].TStreamEnd? {
      StreamEndTaken(e, events);
      docs, used, rest := NoDocument, [], e.toks[1..];
      NoDocuments();
      DropsNothing([]);
      assert e.toks == [] + ([TStreamEnd] + rest) && events == [] + [EStreamEnd];
    } else {
      var ds, toks := StartTaken(e, events);
      assert ds + ([TDocumentStart] + toks) == ds + [TDocumentStart] + toks;
      NamedRest(ds + [TDocumentStart], toks);
      docs, used, rest := DocumentTaken(ds, toks, events);
      assert e.toks == used + ([TStreamEnd] + rest);
    }
  }

  lemma NoDocuments()
    ensures GoodDocuments(NoDocument) && DocumentsTokens(NoDocument) == [] && DocumentsEvents(NoDocument) == []
  {
  }

  /** A document whose directives have been read, and all that follows it. */
  lemma {:induction false} DocumentTaken(ds: seq<Token>, toks: seq<Token>, events: seq<Event>)
    returns (docs: Documents, used: seq<Token>, rest: seq<Token>)
    requires GoodDirectives(ds, false, []) && Named(toks)
    requires events != [] && events[0] == EDocumentStart(VersionIn(ds), TagsIn(ds))
    requires Finishes(Config(DocumentContent, [DocumentEnd], [], toks, Scope(ds)), events[1..])
    ensures GoodDocuments(docs) && ds + ([TDocumentStart] + toks) == used + ([TStreamEnd] + rest)
    ensures Drops(used, DocumentsTokens(docs)) && events == DocumentsEvents(docs) + [EStreamEnd]
    decreases |events| - 1
  {
    hide Finishes, Named, GoodOptional, Drops, GoodDirectives, Events, Tokens, Scope, VersionIn, TagsIn, Ends;
    hide DocumentsEvents, DocumentsTokens;
    var root, used1, rest1, after1 :=
      RootTaken(Config(DocumentContent, [DocumentEnd], [], toks, Scope(ds)), events[1..]);
    NamedRest(used1, rest1);
    var next := DocumentEndTaken(rest1, Scope(ds), after1);
    var k, more, used2;
    k, more, used2, rest := DocumentsTaken(next, after1[1..]);
    var tail := [TStreamEnd] + rest;
    EndsJoined(rest1, k, used2 + tail);
    var d := Document(ds, root, if rest1[0].TDocumentEnd? then k + 1 else 0);
    docs := Another(d, more);
    used := ds + ([TDocumentStart] + (used1 + Ends(d.ends))) + used2;
    DocumentJoined(d, more, used1, used2, tail);
    DocumentEventsJoined(d, more, events, after1, after1[1..]);
  }

  // ---------------------------------------------------------------- streams

  /** The first document, if it has no DOCUMENT-START. */
  lemma ImplicitStartTaken(c: Config, events: seq<Event>)
    requires c == Config(ImplicitDocumentStart, [], [], c.toks, []) && Finishes(c, events) && c.toks != []
    requires !StartsExplicitDocument(c.toks[0]) && !c.toks[0].TStreamEnd?
    ensures events != [] && events[0] == EDocumentStart(false, [])
    ensures Finishes(Config(BlockNode, [DocumentEnd], [], c.toks, Scope([])), events[1..])
  {
    hide Finishes, WithDefaults, Scope;
    FinishesStep(c, events);
    ScopeAgrees([]);
    assert TagsIn([]) == [];
  }

  /** The tokens and events of a stream with such a first document, put together. */
  lemma {:induction false} ImplicitJoined(root: Node, ends: nat, docs: Documents, used1: seq<Token>,
        used2: seq<Token>, rest: seq<Token>)
    requires Drops(used1, Tokens(root)) && Drops(used2, DocumentsTokens(docs))
    ensures var s := Stream(Implicit(root, ends), docs);
            var used := [TStreamStart] + (used1 + Ends(ends) + (used2 + [TStreamEnd]));
            && Drops(used, StreamTokens(s))
            && used + rest == [TStreamStart] + (used1 + (Ends(ends) + (used2 + ([TStreamEnd] + rest))))
  {
    hide Drops, Tokens, Ends, DocumentsTokens;
    DropsNothing(Ends(ends));
    DropsAppend(used1, Tokens(root), Ends(ends), Ends(ends));
    DropsNothing([TStreamEnd]);
    DropsAppend(used2, DocumentsTokens(docs), [TStreamEnd], [TStreamEnd]);
    DropsAppend(used1 + Ends(ends), Tokens(root) + Ends(ends), used2 + [TStreamEnd],
                DocumentsTokens(docs) + [TStreamEnd]);
    DropsAfter(TStreamStart, used1 + Ends(ends) + (used2 + [TStreamEnd]),
               Tokens(root) + Ends(ends) + (DocumentsTokens(docs) + [TStreamEnd]));
    Regroup([TStreamStart], used1 + Ends(ends), used2 + [TStreamEnd], rest);
    Regroup([], used2, [TStreamEnd], rest);
    Regroup([], used1, Ends(ends), used2 + ([TStreamEnd] + rest));
  }

  lemma ImplicitEventsJoined(root: Node, ends: nat, docs: Documents, events: seq<Event>, rest: seq<Event>)
    requires events != [] && rest != [] && events[0] == EDocumentStart(false, [])
    requires events[1..] == Events(root, Scope([])) + rest
    requires rest[0] == EDocumentEnd(ends == 0) && rest[1..] == DocumentsEvents(docs) + [EStreamEnd]
    ensures [EStreamStart] + events == StreamEvents(Stream(Implicit(root, ends), docs))
  {
    hide Events, Scope, DocumentsEvents;
    assert events == [events[0]] + events[1..] && rest == [rest[0]] + rest[1..];
    Regroup([events[0]], Events(root, Scope([])), [rest[0]], rest[1..]);
  }

  /** Everything after the stream start. */
  lemma {:induction false} ContentsTaken(c: Config, events: seq<Event>)
    returns (s: Stream, used: seq<Token>, rest: seq<Token>)
    requires c == Config(ImplicitDocumentStart, [], [], c.toks, []) && Finishes(c, events) && Named(c.toks)
    ensures GoodStream(s) && [TStreamStart] + c.toks == used + rest && Drops(used, StreamTokens(s))
    ensures [EStreamStart] + events == StreamEvents(s)
  {
    hide Finishes, Named, Good, Drops, Events, Tokens, Scope, Ends, DocumentsEvents, DocumentsTokens, GoodDocuments;
    FinishesStep(c, events);
    OpenNeedsToken(c, true);
    if StartsExplicitDocument(c.toks[0]) || c.toks[0].TStreamEnd? {
      var k, docs, used1;
      k, docs, used1, rest := DocumentsTaken(c, events);
      s, used := Stream(NoImplicit, docs), [TStreamStart] + (used1 + [TStreamEnd]);
      assert Ends(0) == [] by { NoEnds(); }
      assert c.toks == used1 + ([TStreamEnd] + rest);
      DropsNothing([TStreamEnd]);
      DropsAppend(used1, DocumentsTokens(docs), [TStreamEnd], [TStreamEnd]);
      DropsAfter(TStreamStart, used1 + [TStreamEnd], DocumentsTokens(docs) + [TStreamEnd]);
      Regroup([TStreamStart], used1, [TStreamEnd], rest);
      assert [] + (DocumentsTokens(docs) + [TStreamEnd]) == DocumentsTokens(docs) + [TStreamEnd];
      assert [] + (DocumentsEvents(docs) + [EStreamEnd]) == DocumentsEvents(docs) + [EStreamEnd];
    } else {
      s, used, rest := ImplicitTaken(c, events);
    }
  }

  lemma NoEnds()
    ensures Ends(0) == []
  {
  }

  lemma {:induction false} ImplicitTaken(c: Config, events: seq<Event>)
    returns (s: Stream, used: seq<Token>, rest: seq<Token>)
    requires c == Config(ImplicitDocumentStart, [], [], c.toks, []) && Finishes(c, events) && Named(c.toks)
    requires c.toks != [] && !StartsExplicitDocument(c.toks[0]) && !c.toks[0].TStreamEnd?
    ensures GoodStream(s) && [TStreamStart] + c.toks == used + rest && Drops(used, StreamTokens(s))
    ensures [EStreamStart] + events == StreamEvents(s)
  {
    hide Finishes, Named, Good, Drops, Events, Tokens, Scope, Ends, DocumentsEvents, DocumentsTokens, GoodDocuments;
    hide StreamTokens, StreamEvents;
    ImplicitStartTaken(c, events);
    var root, used1, rest1, after1 := RootTaken(Config(BlockNode, [DocumentEnd], [], c.toks, Scope([])), events[1..]);
    NamedRest(used1, rest1);
    var next := DocumentEndTaken(rest1, Scope([]), after1);
    var k, docs, used2;
    k, docs, used2, rest := DocumentsTaken(next, after1[1..]);
    EndsJoined(rest1, k, used2 + ([TStreamEnd] + rest));
    var ends := if rest1[0].TDocumentEnd? then k + 1 else 0;
    s := Stream(Implicit(root, ends), docs);
    used := [TStreamStart] + (used1 + Ends(ends) + (used2 + [TStreamEnd]));
    ImplicitJoined(root, ends, docs, used1, used2, rest);
    ImplicitEventsJoined(root, ends, docs, events, after1);
  }

  lemma {:induction false} RunFinishes(c: Config, n: nat)
    requires Valid(c) && Run(c, n).1.state.End?
    ensures Finishes(c, Run(c, n).0)
    decreases n
  {
    hide Step, Valid, Finishes;
    if n == 0 || c.state.End? || !Step(c).Emit? {
      assert Finishes(c, []) by { AtEndFinishes(c); }
    } else {
      StepFollows(c);
      RunFinishes(Step(c).next, n - 1);
      assert Run(c, n).0[1..] == Run(Step(c).next, n - 1).0;
      FinishesFrom(c, Run(c, n).0);
    }
  }

  lemma AtEndFinishes(c: Config)
    requires c.state.End?
    ensures Finishes(c, [])
  {
    assert Leads(c, [], c);
  }

  /**
   Whatever the parser reads to its end starts with a stream of the documented grammar, up to tokens
   dropped after a KEY, and what it emits are the events of that stream.
   */
  lemma ParsedIsSentence(toks: seq<Token>) returns (s: Stream, used: seq<Token>)
    requires Named(toks) && Whole(toks).1.state.End?
    ensures GoodStream(s) && used <= toks && Drops(used, StreamTokens(s)) && Whole(toks).0 == StreamEvents(s)
  {
    hide Finishes, Stock, Run, Step, GoodStream, Drops, StreamTokens, StreamEvents, Named;
    var c, events := Initial(toks), Whole(toks).0;
    RunFinishes(c, Stock(c));
    FinishesStep(c, events);
    StreamStartStep(c);
    var next := Step(c).next;
    assert toks == [TStreamStart] + next.toks;
    NamedRest([TStreamStart], next.toks);
    var rest;
    s, used, rest := ContentsTaken(next, events[1..]);
    assert events == [EStreamStart] + events[1..];
  }

  lemma StreamStartStep(c: Config)
    requires c == Initial(c.toks) && Step(c).Emit?
    ensures c.toks != [] && c.toks[0].TStreamStart?
    ensures Step(c) == Emit(EStreamStart, Config(ImplicitDocumentStart, [], [], c.toks[1..], []))
  {
  }

  // ---------------------------------------------------------------- both directions

  /** No KEY is followed by a token that might be dropped. */
  predicate NothingToDrop(toks: seq<Token>) {
    forall i :: 0 <= i < |toks| - 1 && toks[i].TKey? ==> !Droppable(toks[i + 1])
  }

  lemma {:induction false} NothingDropped(toks: seq<Token>, kept: seq<Token>)
    requires Drops(toks, kept) && NothingToDrop(toks)
    ensures kept == toks
    decreases |toks|
  {
    if toks != [] {
      assert toks[0].TKey? && |toks| > 1 ==> !Droppable(toks[0 + 1]);
      forall i | 0 <= i < |toks[1..]| - 1 && toks[1..][i].TKey?
        ensures !Droppable(toks[1..][i + 1])
      {
        assert toks[i + 1].TKey?;
      }
      NothingDropped(toks[1..], kept[1..]);
    }
  }

  lemma StreamTokensEnd(s: Stream)
    ensures var toks := StreamTokens(s); toks != [] && toks[|toks| - 1] == TStreamEnd
  {
    hide ImplicitTokens, DocumentsTokens;
  }

  ghost predicate IsSentence(toks: seq<Token>, s: Stream) {
    GoodStream(s) && KeyedStream(s) && StreamTokens(s) == toks
  }

  /** Where no token can be dropped, the parser finishes on exactly the streams of the grammar that are keyed. */
  lemma AcceptedIff(toks: seq<Token>)
    requires Named(toks) && NothingToDrop(toks) && EndIsLast(toks)
    ensures Whole(toks).1.state.End? <==> exists s :: IsSentence(toks, s)
  {
    hide GoodStream, KeyedStream, StreamTokens, StreamEvents, Whole, Drops, Named, Step;
    if Whole(toks).1.state.End? {
      var s, used := ParsedIsSentence(toks);
      assert NothingToDrop(used) by {
        forall i | 0 <= i < |used| - 1 && used[i].TKey?
          ensures !Droppable(used[i + 1])
        {
          assert toks[i] == used[i] && toks[i + 1] == used[i + 1];
        }
      }
      NothingDropped(used, StreamTokens(s));
      StreamTokensEnd(s);
      assert toks[|used| - 1].TStreamEnd?;
      assert used == toks;
      StreamParsesIffKeyed(s);
      assert IsSentence(toks, s);
    }
    if exists s :: IsSentence(toks, s) {
      var s :| IsSentence(toks, s);
      StreamParsesIffKeyed(s);
    }
  }
}
