/**
 What the emitter's stacks hold after any number of events, said of the events alone: which
 collections are open, which of them are in flow style, how far each is indented, and what is
 expected next in each.
 */
module EmitterStyles {
  import opened Options
  import G = EventGrammar
  import opened EmitterModel
  import opened EmitterSoundness
  import opened EmitterRuns

  // ---------------------------------------------------------------- open collections

  /** The collections open before event `n`, by the events that started them, outermost first. */
  function Open(es: seq<Event>, n: nat): (open: seq<nat>)
    requires n <= |es|
    ensures forall j :: 0 <= j < |open| ==> open[j] < n && Opens(es[open[j]].kind)
  {
    if n == 0 then []
    else
      var open, k := Open(es, n - 1), es[n - 1].kind;
      if k.SequenceStart? || k.MappingStart? then open + [n - 1]
      else if (k.SequenceEnd? || k.MappingEnd?) && open != [] then open[..|open| - 1]
      else open
  }

  /** For each open collection, the events that started its members. */
  function Members(es: seq<Event>, n: nat): (members: seq<seq<nat>>)
    requires n <= |es|
    ensures |members| == |Open(es, n)|
    ensures forall j, m :: 0 <= j < |members| && 0 <= m < |members[j]| ==> members[j][m] < n
  {
    if n == 0 then []
    else
      var members, k := Members(es, n - 1), es[n - 1].kind;
      var more := AddMember(members, n - 1);
      if k.SequenceStart? || k.MappingStart? then more + [[]]
      else if k.Atom? then more
      else if (k.SequenceEnd? || k.MappingEnd?) && members != [] then members[..|members| - 1]
      else members
  }

  function AddMember(members: seq<seq<nat>>, i: nat): (r: seq<seq<nat>>)
    ensures |r| == |members|
  {
    if members == [] then [] else members[..|members| - 1] + [members[|members| - 1] + [i]]
  }

  predicate IsMapping(es: seq<Event>, i: nat)
    requires i < |es|
  {
    es[i].kind.MappingStart?
  }

  // ---------------------------------------------------------------- style and indentation

  /** The collection that event `i` starts is ended by the next event. */
  predicate NothingInside(es: seq<Event>, i: nat)
    requires i < |es|
  {
    && i + 1 < |es|
    && (|| (es[i].kind.SequenceStart? && es[i + 1].kind.SequenceEnd?)
        || (es[i].kind.MappingStart? && es[i + 1].kind.MappingEnd?))
  }

  /** A collection asks for flow style, or has nothing in it. */
  predicate AsksForFlow(es: seq<Event>, i: nat)
    requires i < |es|
  {
    es[i].flow || NothingInside(es, i)
  }

  predicate Indices(es: seq<Event>, open: seq<nat>) { forall j :: 0 <= j < |open| ==> open[j] < |es| }

  /** The innermost of the open collections is in flow style. */
  predicate InFlow(canonical: bool, es: seq<Event>, open: seq<nat>)
    requires Indices(es, open)
  {
    open != [] && (canonical || exists j :: 0 <= j < |open| && AsksForFlow(es, open[j]))
  }

  /** How many of the open collections are in flow style. */
  function FlowCount(canonical: bool, es: seq<Event>, open: seq<nat>): nat
    requires Indices(es, open)
  {
    if open == [] then 0
    else FlowCount(canonical, es, open[..|open| - 1]) + (if InFlow(canonical, es, open) then 1 else 0)
  }

  function Best(asked: int): int { if 2 <= asked <= 9 then asked else 2 }

  /** A block sequence right inside a mapping is not indented, unless its first line holds only indentation. */
  predicate Indentless(canonical: bool, es: seq<Event>, open: seq<nat>)
    requires Indices(es, open) && open != []
  {
    var i := open[|open| - 1];
    && es[i].kind.SequenceStart? && !InFlow(canonical, es, open)
    && |open| >= 2 && IsMapping(es, open[|open| - 2])
    && i + 1 < |es| && !es[i + 1].indention
  }

  /** The indentation inside the innermost of the open collections. */
  function LevelIn(canonical: bool, asked: int, es: seq<Event>, open: seq<nat>): int
    requires Indices(es, open)
  {
    if open == [] then -1
    else if |open| == 1 then if InFlow(canonical, es, open) then Best(asked) else 0
    else
      LevelIn(canonical, asked, es, open[..|open| - 1])
      + (if Indentless(canonical, es, open) then 0 else Best(asked))
  }

  function LevelsOf(canonical: bool, asked: int, es: seq<Event>, open: seq<nat>): (levels: seq<int>)
    requires Indices(es, open)
    ensures |levels| == |open| + 1
  {
    if open == [] then [-1]
    else LevelsOf(canonical, asked, es, open[..|open| - 1]) + [LevelIn(canonical, asked, es, open)]
  }

  // ---------------------------------------------------------------- what is expected

  /** A key that goes on one line with its value: at most 128 characters, in one line, nothing inside. */
  predicate ShortKey(es: seq<Event>, i: nat)
    requires i < |es|
  {
    var s := es[i].sizes;
    if es[i].kind.Atom? then
      if es[i].alias then s.anchor <= 128 else !s.multiline && s.anchor + s.handle + s.suffix + s.value <= 128
    else NothingInside(es, i) && s.anchor + s.handle + s.suffix <= 128
  }

  /** The state of the innermost open collection with the given members. */
  function StateIn(canonical: bool, es: seq<Event>, open: seq<nat>, members: seq<nat>): State
    requires Indices(es, open) && open != [] && Indices(es, members)
  {
    var flow := InFlow(canonical, es, open);
    if !IsMapping(es, open[|open| - 1]) then (if flow then FlowSequenceItem else BlockSequenceItem)
    else if |members| % 2 == 0 then (if flow then FlowMappingKey else BlockMappingKey)
    else if !canonical && ShortKey(es, members[|members| - 1]) then
      (if flow then FlowMappingSimpleValue else BlockMappingSimpleValue)
    else (if flow then FlowMappingValue else BlockMappingValue)
  }

  /** The state when the innermost collection has just been started. */
  function FirstIn(canonical: bool, es: seq<Event>, open: seq<nat>): State
    requires Indices(es, open) && open != []
  {
    var flow := InFlow(canonical, es, open);
    if IsMapping(es, open[|open| - 1]) then (if flow then FlowMappingFirstKey else BlockMappingFirstKey)
    else (if flow then FlowSequenceFirstItem else BlockSequenceFirstItem)
  }

  predicate AllIndices(es: seq<Event>, members: seq<seq<nat>>) {
    forall j :: 0 <= j < |members| ==> Indices(es, members[j])
  }

  function StatesOf(canonical: bool, es: seq<Event>, open: seq<nat>, members: seq<seq<nat>>): (states: seq<State>)
    requires Indices(es, open) && |open| == |members| && AllIndices(es, members)
    ensures |states| == |open| + 1
  {
    if open == [] then [DocumentEnd]
    else
      var n := |open| - 1;
      StatesOf(canonical, es, open[..n], members[..n]) + [StateIn(canonical, es, open, members[n])]
  }

  /** The configuration with these collections open, all of them entered. */
  ghost predicate Within(canonical: bool, asked: int, es: seq<Event>, open: seq<nat>, members: seq<seq<nat>>,
        states: seq<State>, c: Config)
    requires Indices(es, open) && |open| == |members| && AllIndices(es, members)
  {
    && c.canonical == canonical && c.bestIndent == Best(asked)
    && states == StatesOf(canonical, es, open, members)
    && c.indents + [c.indent] == LevelsOf(canonical, asked, es, open)
    && c.flowLevel == FlowCount(canonical, es, open)
  }

  /** The innermost collection has been started and nothing has been done for it. */
  ghost predicate Fresh(canonical: bool, asked: int, es: seq<Event>, open: seq<nat>, members: seq<seq<nat>>, c: Config)
    requires Indices(es, open) && |open| == |members| && AllIndices(es, members) && open != []
  {
    var n := |open| - 1;
    && Within(canonical, asked, es, open[..n], members[..n], c.states, c)
    && c.state == FirstIn(canonical, es, open) && members[n] == []
    && c.mappingContext == (n > 0 && IsMapping(es, open[n - 1]))
  }

  /** What the events say about the configuration after `n` of them. */
  ghost predicate Described(canonical: bool, asked: int, es: seq<Event>, n: nat, c: Config)
    requires n <= |es|
  {
    var open, members := Open(es, n), Members(es, n);
    if n == 0 then c == Initial(canonical, asked)
    else if open == [] then
      Outer(c.state) && !c.state.StreamStart? && c.canonical == canonical && c.bestIndent == Best(asked)
    else if open[|open| - 1] == n - 1 then Fresh(canonical, asked, es, open, members, c)
    else Within(canonical, asked, es, open, members, c.states + [c.state], c)
  }

  // ---------------------------------------------------------------- facts about open collections

  lemma {:induction false} InFlowSnoc(canonical: bool, es: seq<Event>, open: seq<nat>, i: nat)
    requires Indices(es, open) && i < |es|
    ensures Indices(es, open + [i])
    ensures InFlow(canonical, es, open + [i]) <==> canonical || AsksForFlow(es, i) || InFlow(canonical, es, open)
  {
    hide AsksForFlow;
    var more := open + [i];
    if AsksForFlow(es, i) {
      assert AsksForFlow(es, more[|open|]);
    }
    if exists j :: 0 <= j < |open| && AsksForFlow(es, open[j]) {
      var j :| 0 <= j < |open| && AsksForFlow(es, open[j]);
      assert AsksForFlow(es, more[j]);
    }
  }

  lemma {:induction false} CountPositive(canonical: bool, es: seq<Event>, open: seq<nat>)
    requires Indices(es, open)
    ensures FlowCount(canonical, es, open) > 0 <==> InFlow(canonical, es, open)
    decreases |open|
  {
    hide InFlow;
    if open != [] {
      var n := |open| - 1;
      CountPositive(canonical, es, open[..n]);
      assert open == open[..n] + [open[n]];
      InFlowSnoc(canonical, es, open[..n], open[n]);
    } else {
      assert !InFlow(canonical, es, []) by { NotInFlow(canonical, es); }
    }
  }

  lemma {:induction false} NotInFlow(canonical: bool, es: seq<Event>)
    ensures !InFlow(canonical, es, [])
  {
  }

  lemma {:induction false} LevelNatural(canonical: bool, asked: int, es: seq<Event>, open: seq<nat>)
    requires Indices(es, open)
    ensures LevelIn(canonical, asked, es, open) >= if open == [] then -1 else 0
    decreases |open|
  {
    hide InFlow, Indentless;
    if |open| > 1 {
      LevelNatural(canonical, asked, es, open[..|open| - 1]);
    }
  }

  /** The last of the levels is the current one. */
  lemma {:induction false} LastLevel(canonical: bool, asked: int, es: seq<Event>, open: seq<nat>)
    requires Indices(es, open)
    ensures LevelsOf(canonical, asked, es, open)[|open|] == LevelIn(canonical, asked, es, open)
  {
    hide LevelIn;
    if open == [] {
      assert LevelIn(canonical, asked, es, []) == -1 by { NoLevel(canonical, asked, es); }
    }
  }

  lemma {:induction false} NoLevel(canonical: bool, asked: int, es: seq<Event>)
    ensures LevelIn(canonical, asked, es, []) == -1
  {
  }

  // ---------------------------------------------------------------- one event

  /** A node with these collections around it. */
  lemma {:induction false} NodeDescribed(canonical: bool, asked: int, es: seq<Event>, n: nat, open: seq<nat>,
        members: seq<seq<nat>>,
        c: Config, mapping: bool)
    requires n < |es| && Indices(es, open) && |open| == |members| && AllIndices(es, members)
    requires NodeReady(c) && Within(canonical, asked, es, open, members, c.states, c)
    requires mapping == (open != [] && IsMapping(es, open[|open| - 1]))
    requires EmitNode(c, es[n], EmptyAt(es, n), mapping).Some?
    ensures var r := EmitNode(c, es[n], EmptyAt(es, n), mapping).value;
      && (es[n].kind.Atom? ==> Within(canonical, asked, es, open, members, r.states + [r.state], r))
      && (!es[n].kind.Atom? ==> Opens(es[n].kind) && Indices(es, open + [n]) && AllIndices(es, members + [[]])
                                && Fresh(canonical, asked, es, open + [n], members + [[]], r))
  {
    hide NodeReady, InFlow, StatesOf, LevelsOf, FlowCount;
    assert c.states != [] && c.states[..|c.states| - 1] + [c.states[|c.states| - 1]] == c.states;
    InFlowSnoc(canonical, es, open, n);
    CountPositive(canonical, es, open);
    assert (open + [n])[..|open|] == open && (members + [[]])[..|open|] == members;
    assert AllIndices(es, members + [[]]);
  }

  lemma {:induction false} Pushed(canonical: bool, asked: int, es: seq<Event>, n: nat, open: seq<nat>,
        members: seq<seq<nat>>, c: Config,
        s: State)
    requires n < |es| && Indices(es, open) && |open| == |members| && AllIndices(es, members) && open != []
    requires Within(canonical, asked, es, open, members, c.states + [c.state], c)
    requires Indices(es, members[|open| - 1] + [n]) && s == StateIn(canonical, es, open, members[|open| - 1] + [n])
    ensures AllIndices(es, AddMember(members, n))
    ensures Within(canonical, asked, es, open, AddMember(members, n), Push(c, s).states, Push(c, s))
  {
    hide StateIn, LevelsOf, FlowCount, InFlow;
    var more, k := AddMember(members, n), |open| - 1;
    assert more[..k] == members[..k] && more[k] == members[k] + [n];
    assert AllIndices(es, more);
    assert (c.states + [c.state])[..|c.states|] == c.states;
    assert c.states == StatesOf(canonical, es, open[..k], members[..k]) by {
      var before, top := StatesOf(canonical, es, open[..k], members[..k]), StateIn(canonical, es, open, members[k]);
      assert c.states + [c.state] == before + [top];
      assert (before + [top])[..|before|] == before;
    }
  }

  /** A collection that has been entered, whatever its style. */
  lemma {:induction false} EnterDescribed(canonical: bool, asked: int, es: seq<Event>, open: seq<nat>,
        members: seq<seq<nat>>, c: Config,
        d: Config)
    requires Indices(es, open) && |open| == |members| && AllIndices(es, members) && open != []
    requires Fresh(canonical, asked, es, open, members, c)
    requires var flow := InFlow(canonical, es, open);
      && d == IncreaseIndent(c, flow, Indentless(canonical, es, open))
                .(flowLevel := c.flowLevel + (if flow then 1 else 0), state := StateIn(canonical, es, open, []))
    ensures Within(canonical, asked, es, open, members, d.states + [d.state], d)
  {
    hide StateIn, InFlow, Indentless, FirstIn;
    var k := |open| - 1;
    LevelNatural(canonical, asked, es, open[..k]);
    LastLevel(canonical, asked, es, open[..k]);
    var levels := LevelsOf(canonical, asked, es, open[..k]);
    assert c.indents + [c.indent] == levels && c.indent == levels[|levels| - 1];
    if k == 0 {
      NoLevel(canonical, asked, es);
    }
    assert d.indent == LevelIn(canonical, asked, es, open);
    assert d.indents + [d.indent] == levels + [d.indent];
  }

  /** Leaving the innermost collection, whatever its style. */
  lemma {:induction false} LeaveDescribed(canonical: bool, asked: int, es: seq<Event>, open: seq<nat>,
        members: seq<seq<nat>>, c: Config,
        d: Config)
    requires Indices(es, open) && |open| == |members| && AllIndices(es, members) && open != []
    requires Within(canonical, asked, es, open, members, c.states + [c.state], c) && c.indents != [] && c.states != []
    requires d == Pop(PopIndent(c).(flowLevel := c.flowLevel - (if InFlow(canonical, es, open) then 1 else 0)))
    ensures var k := |open| - 1;
            Within(canonical, asked, es, open[..k], members[..k], d.states + [d.state], d)
  {
    hide StateIn, InFlow, LevelIn;
    var k := |open| - 1;
    var before := StatesOf(canonical, es, open[..k], members[..k]);
    assert (c.states + [c.state])[..|c.states|] == c.states && c.states == before by {
      var top := StateIn(canonical, es, open, members[k]);
      assert c.states + [c.state] == before + [top];
      assert (before + [top])[..|before|] == before;
    }
    assert d.states + [d.state] == c.states;
    var levels := LevelsOf(canonical, asked, es, open[..k]);
    assert c.indents == levels by {
      assert c.indents + [c.indent] == levels + [LevelIn(canonical, asked, es, open)];
      assert (c.indents + [c.indent])[..|c.indents|] == c.indents;
      assert (levels + [LevelIn(canonical, asked, es, open)])[..|levels|] == levels;
    }
    assert d.indents + [d.indent] == c.indents;
  }

  lemma {:induction false} MemberStep(canonical: bool, asked: int, es: seq<Event>, n: nat, d: Config, s: State)
    requires n < |es|
    requires var open, members := Open(es, n), Members(es, n); var k := |open| - 1;
      && open != [] && Within(canonical, asked, es, open, members, d.states + [d.state], d)
      && s == StateIn(canonical, es, open, members[k] + [n]) && NodeReady(Push(d, s))
      && EmitNode(Push(d, s), es[n], EmptyAt(es, n), IsMapping(es, open[k])).Some?
    ensures var open := Open(es, n);
      Described(canonical, asked, es, n + 1,
                EmitNode(Push(d, s), es[n], EmptyAt(es, n), IsMapping(es, open[|open| - 1])).value)
  {
    hide Within, Fresh, NodeReady, EmitNode, StateIn, Open, Members, AddMember;
    var open, members := Open(es, n), Members(es, n);
    Pushed(canonical, asked, es, n, open, members, d, s);
    NodeDescribed(canonical, asked, es, n, open, AddMember(members, n), Push(d, s), IsMapping(es, open[|open| - 1]));
    OpenNext(es, n);
  }

  lemma {:induction false} OpenNext(es: seq<Event>, n: nat)
    requires n < |es|
    ensures var open, members, k := Open(es, n), Members(es, n), es[n].kind;
      && (Opens(k) ==> Open(es, n + 1) == open + [n] && Members(es, n + 1) == AddMember(members, n) + [[]])
      && (k.Atom? ==> Open(es, n + 1) == open && Members(es, n + 1) == AddMember(members, n))
      && ((k.SequenceEnd? || k.MappingEnd?) && open != [] ==>
            Open(es, n + 1) == open[..|open| - 1] && Members(es, n + 1) == members[..|open| - 1])
      && (!Opens(k) && !k.Atom? && !k.SequenceEnd? && !k.MappingEnd? ==> Open(es, n + 1) == open)
  {
  }

  lemma {:induction false} EndStep(canonical: bool, asked: int, es: seq<Event>, n: nat, c: Config, d: Config)
    requires n < |es| && (es[n].kind.SequenceEnd? || es[n].kind.MappingEnd?)
    requires Open(es, n) != [] && Within(canonical, asked, es, Open(es, n), Members(es, n), c.states + [c.state], c)
    requires c.indents != [] && c.states != []
    requires d == Pop(PopIndent(c).(flowLevel := c.flowLevel - (if InFlow(canonical, es, Open(es, n)) then 1 else 0)))
    ensures Described(canonical, asked, es, n + 1, d)
  {
    hide InFlow, Open, Members, LevelsOf, FlowCount;
    var open, members := Open(es, n), Members(es, n);
    var k := |open| - 1;
    LeaveDescribed(canonical, asked, es, open, members, c, d);
    OpenNext(es, n);
    if k == 0 {
      assert d.states + [d.state] == [DocumentEnd];
      assert (d.states + [d.state])[|d.states|] == d.state;
    }
  }

  lemma {:induction false} ShortKeyIff(es: seq<Event>, n: nat)
    requires n < |es| && G.StartsNode(es[n].kind)
    ensures SimpleKey(es[n], EmptyAt(es, n)) <==> ShortKey(es, n)
  {
  }

  /** The state that a node inside a collection returns to. */
  function After(c: Config, e: Event, empty: bool): State {
    match c.state
    case FlowSequenceItem => FlowSequenceItem
    case BlockSequenceItem => BlockSequenceItem
    case FlowMappingKey => if !c.canonical && SimpleKey(e, empty) then FlowMappingSimpleValue else FlowMappingValue
    case BlockMappingKey => if SimpleKey(e, empty) then BlockMappingSimpleValue else BlockMappingValue
    case FlowMappingSimpleValue => FlowMappingKey
    case FlowMappingValue => FlowMappingKey
    case _ => BlockMappingKey
  }

  lemma StepShape(c: Config, e: Event, empty: bool)
    requires Valid(c) && Inside(c.state) && Step(c, e, empty).Some?
    ensures c.indents != [] && c.states != [] && NodeReady(Push(c, After(c, e, empty)))
    ensures e.kind.SequenceEnd? || e.kind.MappingEnd? ==>
      Step(c, e, empty).value == Pop(PopIndent(c).(flowLevel := c.flowLevel - (if Flow(c.state) then 1 else 0)))
    ensures !e.kind.SequenceEnd? && !e.kind.MappingEnd? ==>
      && G.StartsNode(e.kind)
      && Step(c, e, empty)
         == EmitNode(Push(c, After(c, e, empty)), e, empty, !c.state.FlowSequenceItem? && !c.state.BlockSequenceItem?)
  {
    assert c.indents != [] && c.states != [];
    hide Valid, SimpleKey, NodeReady;
    ReadyAfterPush(c, After(c, e, empty));
  }

  lemma {:induction false} AfterIsState(canonical: bool, es: seq<Event>, n: nat, open: seq<nat>, members: seq<nat>,
        c: Config)
    requires n < |es| && Indices(es, open) && open != [] && Indices(es, members) && G.StartsNode(es[n].kind)
    requires c.state == StateIn(canonical, es, open, members) && c.canonical == canonical
    ensures After(c, es[n], EmptyAt(es, n)) == StateIn(canonical, es, open, members + [n])
    ensures (c.state.FlowSequenceItem? || c.state.BlockSequenceItem?) == !IsMapping(es, open[|open| - 1])
  {
    hide SimpleKey, ShortKey, EmptyAt;
    ShortKeyIff(es, n);
    assert (members + [n])[|members|] == n;
  }

  lemma {:induction false} StateStyle(canonical: bool, es: seq<Event>, open: seq<nat>, members: seq<nat>)
    requires Indices(es, open) && open != [] && Indices(es, members)
    ensures var s := StateIn(canonical, es, open, members); Flow(s) == InFlow(canonical, es, open) && Inside(s)
  {
    hide InFlow, ShortKey;
  }

  /** A step inside a collection that has been entered. */
  lemma {:induction false} EnteredStep(canonical: bool, asked: int, es: seq<Event>, n: nat, d: Config)
    requires n < |es| && Valid(d) && Step(d, es[n], EmptyAt(es, n)).Some?
    requires Open(es, n) != [] && Within(canonical, asked, es, Open(es, n), Members(es, n), d.states + [d.state], d)
    ensures Described(canonical, asked, es, n + 1, Step(d, es[n], EmptyAt(es, n)).value)
  {
    hide Within, Open, Members, InFlow, EmptyAt, Described, Step, StateIn, Valid, NodeReady, EmitNode;
    var open, members := Open(es, n), Members(es, n);
    var k := |open| - 1;
    TopState(canonical, asked, es, open, members, d);
    StateStyle(canonical, es, open, members[k]);
    StepShape(d, es[n], EmptyAt(es, n));
    if es[n].kind.SequenceEnd? || es[n].kind.MappingEnd? {
      EndStep(canonical, asked, es, n, d, Step(d, es[n], EmptyAt(es, n)).value);
    } else {
      AfterIsState(canonical, es, n, open, members[k], d);
      MemberStep(canonical, asked, es, n, d, After(d, es[n], EmptyAt(es, n)));
    }
  }

  lemma {:induction false} TopState(canonical: bool, asked: int, es: seq<Event>, open: seq<nat>,
        members: seq<seq<nat>>, c: Config)
    requires Indices(es, open) && |open| == |members| && AllIndices(es, members) && open != []
    requires Within(canonical, asked, es, open, members, c.states + [c.state], c)
    ensures c.state == StateIn(canonical, es, open, members[|open| - 1]) && c.canonical == canonical
  {
    hide StateIn;
    assert (c.states + [c.state])[|c.states|] == c.state;
  }

  /** Entering a collection is part of its first step. */
  lemma FirstStep(c: Config, e: Event, empty: bool, d: Config)
    requires Valid(c) && First(c.state)
    requires match c.state
      case FlowSequenceFirstItem => d == EnterFlow(c, FlowSequenceItem)
      case FlowMappingFirstKey => d == EnterFlow(c, FlowMappingKey)
      case BlockSequenceFirstItem => d == EnterBlock(c, c.mappingContext && !e.indention, BlockSequenceItem)
      case _ => d == EnterBlock(c, false, BlockMappingKey)
    ensures Valid(d) && Inside(d.state) && Step(c, e, empty) == Step(d, e, empty)
  {
    hide Valid, EmitNode, SimpleKey;
    if c.state.FlowSequenceFirstItem? {
      EnteredFlow(c, FlowSequenceItem);
    } else if c.state.FlowMappingFirstKey? {
      EnteredFlow(c, FlowMappingKey);
    } else if c.state.BlockSequenceFirstItem? {
      EnteredBlock(c, c.mappingContext && !e.indention, BlockSequenceItem);
    } else {
      EnteredBlock(c, false, BlockMappingKey);
    }
  }

  lemma NodeStyle(c: Config, e: Event, empty: bool, mapping: bool)
    requires NodeReady(c) && Opens(e.kind)
    ensures var r := EmitNode(c, e, empty, mapping);
      r.Some? && First(r.value.state)
      && (FlowFirst(r.value.state) <==> r.value.flowLevel > 0 || c.canonical || e.flow || empty)
  {
    hide NodeReady;
  }

  /** The style of a collection, seen from the step that starts it. */
  lemma StartStyle(c: Config, e: Event, empty: bool)
    requires Valid(c) && Step(c, e, empty).Some? && Opens(e.kind)
    ensures var r := Step(c, e, empty).value;
      First(r.state) && (FlowFirst(r.state) <==> r.flowLevel > 0 || c.canonical || e.flow || empty)
  {
    hide Valid, NodeReady, EmitNode, Step, After;
    if Outer(c.state) {
      OuterStart(c, e, empty);
      NodeStyle(Push(c, DocumentEnd), e, empty, false);
    } else {
      var d := c;
      if First(c.state) {
        d := match c.state
          case FlowSequenceFirstItem => EnterFlow(c, FlowSequenceItem)
          case FlowMappingFirstKey => EnterFlow(c, FlowMappingKey)
          case BlockSequenceFirstItem => EnterBlock(c, c.mappingContext && !e.indention, BlockSequenceItem)
          case _ => EnterBlock(c, false, BlockMappingKey);
        FirstStep(c, e, empty, d);
      }
      StepShape(d, e, empty);
      NodeStyle(Push(d, After(d, e, empty)), e, empty, !d.state.FlowSequenceItem? && !d.state.BlockSequenceItem?);
    }
  }

  lemma OuterStart(c: Config, e: Event, empty: bool)
    requires Valid(c) && Outer(c.state) && Step(c, e, empty).Some? && Opens(e.kind)
    ensures c.state.DocumentContent? && NodeReady(Push(c, DocumentEnd))
    ensures Step(c, e, empty) == EmitNode(Push(c, DocumentEnd), e, empty, false)
  {
    assert c.state.DocumentContent?;
    ContentReady(c);
  }

  lemma {:induction false} FreshStep(canonical: bool, asked: int, es: seq<Event>, n: nat, c: Config)
    requires n < |es| && Valid(c) && Step(c, es[n], EmptyAt(es, n)).Some?
    requires var open := Open(es, n); open != [] && open[|open| - 1] == n - 1
    requires Fresh(canonical, asked, es, Open(es, n), Members(es, n), c)
    ensures Described(canonical, asked, es, n + 1, Step(c, es[n], EmptyAt(es, n)).value)
  {
    hide Within, Open, Members, InFlow, EmptyAt, Described, Step, Valid, ShortKey;
    var open, members := Open(es, n), Members(es, n);
    var flow := InFlow(canonical, es, open);
    var d := IncreaseIndent(c, flow, Indentless(canonical, es, open))
               .(flowLevel := c.flowLevel + (if flow then 1 else 0), state := StateIn(canonical, es, open, []));
    EnterDescribed(canonical, asked, es, open, members, c, d);
    FirstStep(c, es[n], EmptyAt(es, n), d);
    EnteredStep(canonical, asked, es, n, d);
  }

  lemma {:induction false} RootStep(canonical: bool, asked: int, es: seq<Event>, n: nat, c: Config)
    requires n < |es| && Valid(c) && c.state.DocumentContent? && Step(c, es[n], EmptyAt(es, n)).Some?
    requires Open(es, n) == [] && c.canonical == canonical && c.bestIndent == Best(asked)
    ensures Described(canonical, asked, es, n + 1, Step(c, es[n], EmptyAt(es, n)).value)
  {
    hide Open, Members, NodeReady, EmitNode, EmptyAt, InFlow;
    var d := Push(c, DocumentEnd);
    ContentReady(c);
    assert d.states == [DocumentEnd] && c.indents + [c.indent] == [-1];
    NodeDescribed(canonical, asked, es, n, [], [], d, false);
    OpenNext(es, n);
    var r := Step(c, es[n], EmptyAt(es, n)).value;
    if es[n].kind.Atom? {
      assert (r.states + [r.state])[|r.states|] == r.state;
    }
  }

  lemma {:induction false} OuterStep(canonical: bool, asked: int, es: seq<Event>, n: nat, c: Config)
    requires n < |es| && Valid(c) && Outer(c.state) && !c.state.DocumentContent?
    requires Step(c, es[n], EmptyAt(es, n)).Some? && Open(es, n) == []
    requires c.canonical == canonical && c.bestIndent == (if c.state.StreamStart? then asked else Best(asked))
    ensures Described(canonical, asked, es, n + 1, Step(c, es[n], EmptyAt(es, n)).value)
  {
    hide Open, Members, EmptyAt;
    OpenNext(es, n);
  }

  lemma {:induction false} StepDescribed(canonical: bool, asked: int, es: seq<Event>, n: nat, c: Config)
    requires n < |es| && Valid(c) && Described(canonical, asked, es, n, c) && Step(c, es[n], EmptyAt(es, n)).Some?
    ensures Described(canonical, asked, es, n + 1, Step(c, es[n], EmptyAt(es, n)).value)
  {
    hide Within, Fresh, Open, Members, EmptyAt, Step, Valid;
    var open := Open(es, n);
    if n == 0 {
      NoneOpen(es);
      OuterStep(canonical, asked, es, n, c);
    } else if open == [] {
      if c.state.DocumentContent? {
        RootStep(canonical, asked, es, n, c);
      } else {
        OuterStep(canonical, asked, es, n, c);
      }
    } else if open[|open| - 1] == n - 1 {
      FreshStep(canonical, asked, es, n, c);
    } else {
      EnteredStep(canonical, asked, es, n, c);
    }
  }

  lemma NoneOpen(es: seq<Event>)
    ensures Open(es, 0) == []
  {
  }

  /** After any number of events, the stacks of the emitter are what the events say. */
  lemma {:induction false} RunDescribed(canonical: bool, asked: int, es: seq<Event>, n: nat)
    requires n <= |es| && Run(Initial(canonical, asked), es, n).Some?
    ensures Described(canonical, asked, es, n, Run(Initial(canonical, asked), es, n).value)
  {
    hide Described, Run, Initial, Step, EmptyAt;
    var c := Initial(canonical, asked);
    if n == 0 {
      RunStart(c, es);
      StartDescribed(canonical, asked, es);
    } else {
      RunStep(c, es, n);
      RunDescribed(canonical, asked, es, n - 1);
      StepDescribed(canonical, asked, es, n - 1, Run(c, es, n - 1).value);
    }
  }

  lemma StartDescribed(canonical: bool, asked: int, es: seq<Event>)
    ensures Described(canonical, asked, es, 0, Initial(canonical, asked))
  {
  }

  lemma {:induction false} StatesOfAt(canonical: bool, es: seq<Event>, open: seq<nat>, members: seq<seq<nat>>, j: nat)
    requires Indices(es, open) && |open| == |members| && AllIndices(es, members) && j < |open|
    ensures StatesOf(canonical, es, open, members)[j + 1] == StateIn(canonical, es, open[..j + 1], members[j])
    decreases |open|
  {
    hide StateIn;
    var k := |open| - 1;
    if j < k {
      StatesOfAt(canonical, es, open[..k], members[..k], j);
      assert open[..k][..j + 1] == open[..j + 1];
    } else {
      assert open[..j + 1] == open;
    }
  }

  /** The collections that some event after their start has been processed in. */
  function Entered(es: seq<Event>, n: nat): (open: seq<nat>)
    requires n <= |es|
    ensures Indices(es, open)
  {
    var open := Open(es, n);
    if open != [] && open[|open| - 1] == n - 1 then open[..|open| - 1] else open
  }

  /**
   An open collection is in flow style if and only if the emitter is canonical, or it or a collection
   around it asks for flow style or is empty; the flow level is the number of such collections entered.
   */
  lemma {:induction false} FlowIff(canonical: bool, asked: int, es: seq<Event>, n: nat, j: nat)
    requires n <= |es| && Run(Initial(canonical, asked), es, n).Some? && j < |Open(es, n)|
    ensures var c := Run(Initial(canonical, asked), es, n).value; var open := Open(es, n);
      && |c.states| == |open| && c.flowLevel == FlowCount(canonical, es, Entered(es, n))
      && (var s := (c.states + [c.state])[j + 1];
          (Flow(s) || FlowFirst(s)) <==> canonical || exists h :: 0 <= h <= j && AsksForFlow(es, open[h]))
  {
    hide Run, Initial, StatesOf, Open, Members, AsksForFlow, ShortKey, LevelsOf, FlowCount;
    var c := Run(Initial(canonical, asked), es, n).value;
    var open, members := Open(es, n), Members(es, n);
    if n == 0 {
      NoneOpen(es);
    }
    RunDescribed(canonical, asked, es, n);
    var k := |open| - 1;
    var up := open[..j + 1];
    assert InFlow(canonical, es, up) <==> canonical || exists h :: 0 <= h <= j && AsksForFlow(es, open[h]) by {
      UpTo(canonical, es, open, j);
    }
    hide InFlow;
    if open[k] == n - 1 {
      if j < k {
        StatesOfAt(canonical, es, open[..k], members[..k], j);
        assert open[..k][..j + 1] == up;
      } else {
        assert up == open;
      }
    } else {
      StatesOfAt(canonical, es, open, members, j);
    }
  }

  lemma {:induction false} UpTo(canonical: bool, es: seq<Event>, open: seq<nat>, j: nat)
    requires Indices(es, open) && j < |open|
    ensures InFlow(canonical, es, open[..j + 1])
      <==> canonical || exists h :: 0 <= h <= j && AsksForFlow(es, open[h])
  {
    hide AsksForFlow;
    var up := open[..j + 1];
    if exists h :: 0 <= h <= j && AsksForFlow(es, open[h]) {
      var h :| 0 <= h <= j && AsksForFlow(es, open[h]);
      assert up[h] == open[h];
    }
  }
}
