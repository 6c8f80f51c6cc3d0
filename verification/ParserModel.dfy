/**
 The YAML parser's productions (gopkg.in/yaml.v2/parserc.go) as functions from one parser
 configuration to the next. A configuration holds the tokens still to be read; running out of
 them stands for a scanner failure.

 Every production that emits an event keeps `Valid` and moves the event grammar's automaton
 from the nesting of the old configuration to the nesting of the new one.
 */
module ParserModel {
  import opened Options
  import G = EventGrammar

  datatype Style = Plain | SingleQuoted | DoubleQuoted | Literal | Folded

  datatype Directive = Directive(handle: string, prefix: string)

  datatype Token =
    | TStreamStart | TStreamEnd
    | TVersion(major: int, minor: int) | TTagDirective(directive: Directive)
    | TDocumentStart | TDocumentEnd
    | TBlockSequenceStart | TBlockMappingStart | TBlockEnd
    | TFlowSequenceStart | TFlowSequenceEnd | TFlowMappingStart | TFlowMappingEnd
    | TBlockEntry | TFlowEntry | TKey | TValue
    | TAlias(name: string) | TAnchor(name: string) | TTag(handle: string, suffix: string)
    | TScalar(value: string, style: Style)

  /** An empty anchor or tag means that there is none, as in the source's length tests. */
  datatype Event =
    | EStreamStart | EStreamEnd
    | EDocumentStart(version: bool, tags: seq<Directive>) | EDocumentEnd(implicit: bool)
    | EAlias(name: string)
    | EScalar(anchor: string, tag: string, value: string, implicit: bool, quotedImplicit: bool, style: Style)
    | ESequenceStart(anchor: string, tag: string, implicit: bool, flow: bool) | ESequenceEnd
    | EMappingStart(anchor: string, tag: string, implicit: bool, flow: bool) | EMappingEnd

  function KindOf(e: Event): G.Kind {
    match e
    case EStreamStart => G.StreamStart
    case EStreamEnd => G.StreamEnd
    case EDocumentStart(_, _) => G.DocumentStart
    case EDocumentEnd(_) => G.DocumentEnd
    case EAlias(_) => G.Atom
    case EScalar(_, _, _, _, _, _) => G.Atom
    case ESequenceStart(_, _, _, _) => G.SequenceStart
    case ESequenceEnd => G.SequenceEnd
    case EMappingStart(_, _, _, _) => G.MappingStart
    case EMappingEnd => G.MappingEnd
  }

  datatype State =
    | StreamStart | ImplicitDocumentStart | DocumentStart | DocumentContent | DocumentEnd
    | BlockNode | BlockNodeOrIndentlessSequence | FlowNode
    | BlockSequenceFirstEntry | BlockSequenceEntry | IndentlessSequenceEntry
    | BlockMappingFirstKey | BlockMappingKey | BlockMappingValue
    | FlowSequenceFirstEntry | FlowSequenceEntry
    | FlowSequenceEntryMappingKey | FlowSequenceEntryMappingValue | FlowSequenceEntryMappingEnd
    | FlowMappingFirstKey | FlowMappingKey | FlowMappingValue | FlowMappingEmptyValue
    | End

  /** `since` is the mark of the collection in which the problem was met. */
  datatype Problem =
    | ExpectedStreamStart | ExpectedDocumentStart | DuplicateVersion | IncompatibleVersion | DuplicateTagDirective
    | UndefinedTagHandle | ExpectedNodeContent
    | ExpectedBlockEntry(since: nat) | ExpectedKey(since: nat)
    | ExpectedCommaOrBracket(since: nat) | ExpectedCommaOrBrace(since: nat)

  /** A mark is the number of tokens that were left when it was taken. */
  datatype Config = Config(state: State, states: seq<State>, marks: seq<nat>, toks: seq<Token>, dirs: seq<Directive>)

  datatype Result = Emit(event: Event, next: Config) | NoToken | Failed(problem: Problem)

  // ---------------------------------------------------------------- the invariant

  /** States with nothing to return to. */
  predicate Outer(s: State) {
    s.StreamStart? || s.ImplicitDocumentStart? || s.DocumentStart? || s.DocumentEnd? || s.End?
  }

  /** States that a node returns to. */
  predicate Return(s: State) {
    || s.BlockSequenceEntry? || s.IndentlessSequenceEntry? || s.BlockMappingKey? || s.BlockMappingValue?
    || s.FlowSequenceEntry? || s.FlowSequenceEntryMappingValue? || s.FlowSequenceEntryMappingEnd?
    || s.FlowMappingKey? || s.FlowMappingValue? || s.FlowMappingEmptyValue?
  }

  /** The part of the grammar's stack that a state stands for, above `below`. */
  function Needs(s: State, below: G.Needs): G.Needs {
    match s
    case StreamStart => G.Then(G.Stream, below)
    case ImplicitDocumentStart => G.Then(G.Documents, below)
    case DocumentStart => G.Then(G.Documents, below)
    case DocumentEnd => G.Then(G.RootEnd, G.Then(G.Documents, below))
    case End => below
    case DocumentContent => G.Then(G.Root, below)
    case BlockNode => G.Then(G.Root, below)
    case BlockNodeOrIndentlessSequence => G.Then(G.Root, below)
    case FlowNode => G.Then(G.Root, below)
    case BlockSequenceFirstEntry => G.Then(G.ItemOrEnd, below)
    case BlockSequenceEntry => G.Then(G.ItemOrEnd, below)
    case IndentlessSequenceEntry => G.Then(G.ItemOrEnd, below)
    case FlowSequenceFirstEntry => G.Then(G.ItemOrEnd, below)
    case FlowSequenceEntry => G.Then(G.ItemOrEnd, below)
    case BlockMappingFirstKey => G.Then(G.KeyOrEnd, below)
    case BlockMappingKey => G.Then(G.KeyOrEnd, below)
    case FlowMappingFirstKey => G.Then(G.KeyOrEnd, below)
    case FlowMappingKey => G.Then(G.KeyOrEnd, below)
    case BlockMappingValue => G.Then(G.Value, below)
    case FlowMappingValue => G.Then(G.Value, below)
    case FlowMappingEmptyValue => G.Then(G.Value, below)
    case FlowSequenceEntryMappingKey => G.Then(G.KeyOrEnd, G.Then(G.ItemOrEnd, below))
    case FlowSequenceEntryMappingValue => G.Then(G.Value, G.Then(G.ItemOrEnd, below))
    case FlowSequenceEntryMappingEnd => G.Then(G.KeyOrEnd, G.Then(G.ItemOrEnd, below))
  }

  function Below(states: seq<State>): G.Needs {
    if states == [] then G.Nothing else Needs(states[|states| - 1], Below(states[..|states| - 1]))
  }

  function Nesting(c: Config): G.Needs { Needs(c.state, Below(c.states)) }

  /** Whether a state has a mark on the marks stack. */
  function Marked(s: State): nat {
    match s
    case BlockSequenceEntry => 1
    case BlockMappingKey => 1
    case BlockMappingValue => 1
    case FlowSequenceEntry => 1
    case FlowSequenceEntryMappingKey => 1
    case FlowSequenceEntryMappingValue => 1
    case FlowSequenceEntryMappingEnd => 1
    case FlowMappingKey => 1
    case FlowMappingValue => 1
    case FlowMappingEmptyValue => 1
    case _ => 0
  }

  function MarkedBelow(states: seq<State>): nat {
    if states == [] then 0 else Marked(states[|states| - 1]) + MarkedBelow(states[..|states| - 1])
  }

  /** A first-entry state is entered with its start token still unread. */
  predicate StartToken(s: State, toks: seq<Token>) {
    match s
    case BlockSequenceFirstEntry => toks != [] && toks[0].TBlockSequenceStart?
    case BlockMappingFirstKey => toks != [] && toks[0].TBlockMappingStart?
    case FlowSequenceFirstEntry => toks != [] && toks[0].TFlowSequenceStart?
    case FlowMappingFirstKey => toks != [] && toks[0].TFlowMappingStart?
    case _ => true
  }

  predicate ValidStack(states: seq<State>) {
    states != [] ==> states[0].DocumentEnd? && forall i :: 1 <= i < |states| ==> Return(states[i])
  }

  predicate Valid(c: Config) {
    && (Outer(c.state) <==> c.states == [])
    && ValidStack(c.states)
    && |c.marks| == Marked(c.state) + MarkedBelow(c.states)
    && StartToken(c.state, c.toks)
  }

  /** What a production that is about to parse a node may rely on; the current state does not matter. */
  predicate NodeReady(c: Config) {
    c.states != [] && ValidStack(c.states) && |c.marks| == MarkedBelow(c.states)
  }

  // ---------------------------------------------------------------- stack operations

  /** Returns to the state on top of the stack. */
  function Pop(c: Config): (d: Config)
    requires NodeReady(c)
    ensures Valid(d) && Nesting(d) == Below(c.states)
    ensures d.toks == c.toks
  {
    var n := |c.states| - 1;
    assert n > 0 ==> Return(c.states[n]);
    Config(c.states[n], c.states[..n], c.marks, c.toks, c.dirs)
  }

  /** Calls for a node that will return to `s`. */
  function Push(c: Config, s: State): (d: Config)
    requires c.states != [] && ValidStack(c.states) && Return(s) && |c.marks| == Marked(s) + MarkedBelow(c.states)
    ensures NodeReady(d) && Below(d.states) == Needs(s, Below(c.states))
    ensures d.toks == c.toks
  {
    assert (c.states + [s])[..|c.states|] == c.states;
    c.(states := c.states + [s])
  }

  function Goto(c: Config, s: State): (d: Config)
    requires Valid(c) && c.states != [] && !Outer(s) && Marked(s) == Marked(c.state) && StartToken(s, [])
    ensures Valid(d) && Nesting(d) == Needs(s, Below(c.states))
  {
    c.(state := s)
  }

  function Skip(c: Config): Config
    requires c.toks != []
  {
    c.(toks := c.toks[1..])
  }

  /** Enters a collection: takes a mark and reads the start token. */
  function Enter(c: Config, s: State): (d: Config)
    requires Valid(c) && c.toks != [] && c.states != [] && Marked(c.state) == 0 && Marked(s) == 1 && Return(s)
    ensures Valid(d) && d.state == s && d.states == c.states && d.toks == c.toks[1..]
  {
    c.(marks := c.marks + [|c.toks|], toks := c.toks[1..], state := s)
  }

  /** Leaves a collection: drops its mark, reads the end token and returns. */
  function Leave(c: Config): (d: Config)
    requires Valid(c) && c.toks != [] && Marked(c.state) == 1
    ensures Valid(d) && Nesting(d) == Below(c.states)
  {
    Pop(c.(marks := c.marks[..|c.marks| - 1], toks := c.toks[1..]))
  }

  /** The mark of the collection that is being parsed. */
  function LastMark(c: Config): nat
    requires Valid(c) && Marked(c.state) == 1
  {
    c.marks[|c.marks| - 1]
  }

  const EmptyScalar := EScalar("", "", "", true, false, Plain)

  // ---------------------------------------------------------------- stream and documents

  function ParseStreamStart(c: Config): (r: Result)
    requires Valid(c) && c.state.StreamStart?
  {
    if c.toks == [] then NoToken
    else if !c.toks[0].TStreamStart? then Failed(ExpectedStreamStart)
    else Emit(EStreamStart, Skip(c).(state := ImplicitDocumentStart))
  }

  function HasHandle(dirs: seq<Directive>, handle: string): bool {
    exists i :: 0 <= i < |dirs| && dirs[i].handle == handle
  }

  function AddDefault(dirs: seq<Directive>, d: Directive): seq<Directive> {
    if HasHandle(dirs, d.handle) then dirs else dirs + [d]
  }

  function WithDefaults(dirs: seq<Directive>): seq<Directive> {
    AddDefault(AddDefault(dirs, Directive("!", "!")), Directive("!!", "tag:yaml.org,2002:"))
  }

  datatype Directives = Read(version: bool, tags: seq<Directive>, next: Config) | NoMore | Bad(problem: Problem)

  /** `process_directives`, given what has been read so far. */
  function ReadDirectives(c: Config, version: bool, tags: seq<Directive>): (r: Directives)
    ensures r.Read? ==> r.next == c.(toks := r.next.toks, dirs := r.next.dirs) && r.next.toks != []
    decreases |c.toks|
  {
    if c.toks == [] then NoMore
    else
      match c.toks[0]
      case TVersion(major, minor) =>
        if version then Bad(DuplicateVersion)
        else if major != 1 || minor != 1 then Bad(IncompatibleVersion)
        else ReadDirectives(Skip(c), true, tags)
      case TTagDirective(d) =>
        if HasHandle(c.dirs, d.handle) then Bad(DuplicateTagDirective)
        else ReadDirectives(Skip(c).(dirs := c.dirs + [d]), version, tags + [d])
      case _ => Read(version, tags, c.(dirs := WithDefaults(c.dirs)))
  }

  function SkipDocumentEnds(c: Config): (d: Config)
    ensures d == c.(toks := d.toks)
    decreases |c.toks|
  {
    if c.toks != [] && c.toks[0].TDocumentEnd? then SkipDocumentEnds(Skip(c)) else c
  }

  predicate StartsExplicitDocument(t: Token) { t.TVersion? || t.TTagDirective? || t.TDocumentStart? }

  function ParseDocumentStart(c: Config, implicit: bool): (r: Result)
    requires Valid(c) && (c.state.ImplicitDocumentStart? || c.state.DocumentStart?)
  {
    OpenDocument(if implicit then c else SkipDocumentEnds(c), implicit)
  }

  function OpenDocument(c: Config, implicit: bool): (r: Result) {
    if c.toks == [] then NoToken
    else if implicit && !StartsExplicitDocument(c.toks[0]) && !c.toks[0].TStreamEnd? then
      match ReadDirectives(c, false, [])
      case NoMore => NoToken
      case Bad(p) => Failed(p)
      case Read(_, _, e) => Emit(EDocumentStart(false, []), e.(states := [DocumentEnd], state := BlockNode))
    else if !c.toks[0].TStreamEnd? then
      match ReadDirectives(c, false, [])
      case NoMore => NoToken
      case Bad(p) => Failed(p)
      case Read(version, tags, e) =>
        if !e.toks[0].TDocumentStart? then Failed(ExpectedDocumentStart)
        else Emit(EDocumentStart(version, tags), Skip(e).(states := [DocumentEnd], state := DocumentContent))
    else
      Emit(EStreamEnd, Skip(c).(state := End))
  }

  function ParseDocumentContent(c: Config): (r: Result)
    requires Valid(c) && c.state.DocumentContent?
  {
    if c.toks == [] then NoToken
    else if StartsExplicitDocument(c.toks[0]) || c.toks[0].TDocumentEnd? || c.toks[0].TStreamEnd? then
      Emit(EmptyScalar, Pop(c))
    else ParseNode(c, true, false)
  }

  function ParseDocumentEnd(c: Config): (r: Result)
    requires Valid(c) && c.state.DocumentEnd?
  {
    if c.toks == [] then NoToken
    else
      var explicit := c.toks[0].TDocumentEnd?;
      Emit(EDocumentEnd(!explicit), (if explicit then Skip(c) else c).(dirs := [], state := DocumentStart))
  }

  // ---------------------------------------------------------------- nodes

  /** Anchor and tag in either order; `toks` is what follows them, empty when a token was missing. */
  datatype Props = Props(anchor: string, tagged: bool, handle: string, suffix: string, toks: seq<Token>)

  function ReadProps(toks: seq<Token>): (p: Props)
    requires toks != []
    ensures |p.toks| <= |toks|
  {
    match toks[0]
    case TAnchor(a) =>
      if |toks| > 1 && toks[1].TTag? then Props(a, true, toks[1].handle, toks[1].suffix, toks[2..])
      else Props(a, false, "", "", toks[1..])
    case TTag(h, s) =>
      if |toks| > 1 && toks[1].TAnchor? then Props(toks[1].name, true, h, s, toks[2..])
      else Props("", true, h, s, toks[1..])
    case _ => Props("", false, "", "", toks)
  }

  function FindPrefix(dirs: seq<Directive>, handle: string): Option<string> {
    if dirs == [] then None
    else if dirs[0].handle == handle then Some(dirs[0].prefix)
    else FindPrefix(dirs[1..], handle)
  }

  /** The full tag, or nothing when the handle is not defined. */
  function ResolveTag(dirs: seq<Directive>, p: Props): Option<string> {
    if !p.tagged then Some("")
    else if p.handle == "" then Some(p.suffix)
    else
      match FindPrefix(dirs, p.handle)
      case None => None
      case Some(prefix) => if prefix + p.suffix == "" then None else Some(prefix + p.suffix)
  }

  function ScalarEvent(anchor: string, tag: string, value: string, style: Style): Event {
    var plain := (tag == "" && style.Plain?) || tag == "!";
    EScalar(anchor, tag, value, plain, !plain && tag == "", style)
  }

  /**
   The event for the content that starts with token `t`, and the state it leads to; a scalar returns to
   the caller.
   */
  datatype Content = Scalar(event: Event) | Collection(event: Event, first: State) | Missing

  function ContentOf(t: Token, anchor: string, tag: string, block: bool, indentless: bool): Content {
    var implicit := tag == "";
    match t
    case TBlockEntry =>
      if indentless then Collection(ESequenceStart(anchor, tag, implicit, false), IndentlessSequenceEntry) else Missing
    case TScalar(value, style) => Scalar(ScalarEvent(anchor, tag, value, style))
    case TFlowSequenceStart => Collection(ESequenceStart(anchor, tag, implicit, true), FlowSequenceFirstEntry)
    case TFlowMappingStart => Collection(EMappingStart(anchor, tag, implicit, true), FlowMappingFirstKey)
    case TBlockSequenceStart =>
      if block then Collection(ESequenceStart(anchor, tag, implicit, false), BlockSequenceFirstEntry) else Missing
    case TBlockMappingStart =>
      if block then Collection(EMappingStart(anchor, tag, implicit, false), BlockMappingFirstKey) else Missing
    case _ => Missing
  }

  function ParseNode(c: Config, block: bool, indentless: bool): (r: Result)
    requires NodeReady(c)
  {
    if c.toks == [] then NoToken
    else if c.toks[0].TAlias? then Emit(EAlias(c.toks[0].name), Pop(Skip(c)))
    else
      var p := ReadProps(c.toks);
      if p.toks == [] then NoToken
      else
        var d := c.(toks := p.toks);
        match ResolveTag(c.dirs, p)
        case None => Failed(UndefinedTagHandle)
        case Some(tag) =>
          match ContentOf(p.toks[0], p.anchor, tag, block, indentless)
          case Scalar(e) => Emit(e, Pop(Skip(d)))
          case Collection(e, first) => Emit(e, d.(state := first))
          case Missing =>
            if p.anchor != "" || tag != "" then Emit(EScalar(p.anchor, tag, "", tag == "", false, Plain), Pop(d))
            else Failed(ExpectedNodeContent)
  }

  // ---------------------------------------------------------------- block collections

  function ParseBlockSequenceEntry(c: Config, first: bool): (r: Result)
    requires Valid(c) && c.state == if first then BlockSequenceFirstEntry else BlockSequenceEntry
  {
    var d := if first then Enter(c, BlockSequenceEntry) else c;
    if d.toks == [] then NoToken
    else if d.toks[0].TBlockEntry? then
      var e := Skip(d);
      if e.toks == [] then NoToken
      else if !e.toks[0].TBlockEntry? && !e.toks[0].TBlockEnd? then ParseNode(Push(e, BlockSequenceEntry), true, false)
      else Emit(EmptyScalar, Goto(e, BlockSequenceEntry))
    else if d.toks[0].TBlockEnd? then Emit(ESequenceEnd, Leave(d))
    else Failed(ExpectedBlockEntry(LastMark(d)))
  }

  function ParseIndentlessSequenceEntry(c: Config): (r: Result)
    requires Valid(c) && c.state.IndentlessSequenceEntry?
  {
    if c.toks == [] then NoToken
    else if c.toks[0].TBlockEntry? then
      var e := Skip(c);
      if e.toks == [] then NoToken
      else if !e.toks[0].TBlockEntry? && !e.toks[0].TKey? && !e.toks[0].TValue? && !e.toks[0].TBlockEnd? then
        ParseNode(Push(e, IndentlessSequenceEntry), true, false)
      else Emit(EmptyScalar, Goto(e, IndentlessSequenceEntry))
    else Emit(ESequenceEnd, Pop(c))
  }

  predicate EndsMappingPart(t: Token) { t.TKey? || t.TValue? || t.TBlockEnd? }

  function ParseBlockMappingKey(c: Config, first: bool): (r: Result)
    requires Valid(c) && c.state == if first then BlockMappingFirstKey else BlockMappingKey
  {
    var d := if first then Enter(c, BlockMappingKey) else c;
    if d.toks == [] then NoToken
    else if d.toks[0].TKey? then
      var e := Skip(d);
      if e.toks == [] then NoToken
      else if !EndsMappingPart(e.toks[0]) then ParseNode(Push(e, BlockMappingValue), true, true)
      else Emit(EmptyScalar, Goto(e, BlockMappingValue))
    else if d.toks[0].TBlockEnd? then Emit(EMappingEnd, Leave(d))
    else Failed(ExpectedKey(LastMark(d)))
  }

  function ParseBlockMappingValue(c: Config): (r: Result)
    requires Valid(c) && c.state.BlockMappingValue?
  {
    if c.toks == [] then NoToken
    else if c.toks[0].TValue? then
      var e := Skip(c);
      if e.toks == [] then NoToken
      else if !EndsMappingPart(e.toks[0]) then ParseNode(Push(e, BlockMappingKey), true, true)
      else Emit(EmptyScalar, Goto(e, BlockMappingKey))
    else Emit(EmptyScalar, Goto(c, BlockMappingKey))
  }

  // ---------------------------------------------------------------- flow collections

  function ParseFlowSequenceEntry(c: Config, first: bool): (r: Result)
    requires Valid(c) && c.state == if first then FlowSequenceFirstEntry else FlowSequenceEntry
  {
    var d := if first then Enter(c, FlowSequenceEntry) else c;
    if d.toks == [] then NoToken
    else if !first && !d.toks[0].TFlowSequenceEnd? && !d.toks[0].TFlowEntry? then
      Failed(ExpectedCommaOrBracket(LastMark(d)))
    else
      FlowSequenceItem(if !first && d.toks[0].TFlowEntry? then Skip(d) else d)
  }

  /** An entry of a flow sequence, or its end, after any comma. */
  function FlowSequenceItem(c: Config): (r: Result)
    requires Valid(c) && c.state.FlowSequenceEntry?
  {
    if c.toks == [] then NoToken
    else if c.toks[0].TFlowSequenceEnd? then Emit(ESequenceEnd, Leave(c))
    else if c.toks[0].TKey? then
      Emit(EMappingStart("", "", true, true), Goto(Skip(c), FlowSequenceEntryMappingKey))
    else ParseNode(Push(c, FlowSequenceEntry), false, false)
  }

  /** When the key is missing the source skips the token it looked at, whichever of the three it is. */
  function ParseFlowSequenceEntryMappingKey(c: Config): (r: Result)
    requires Valid(c) && c.state.FlowSequenceEntryMappingKey?
  {
    if c.toks == [] then NoToken
    else if !c.toks[0].TValue? && !c.toks[0].TFlowEntry? && !c.toks[0].TFlowSequenceEnd? then
      ParseNode(Push(c, FlowSequenceEntryMappingValue), false, false)
    else Emit(EmptyScalar, Goto(Skip(c), FlowSequenceEntryMappingValue))
  }

  function ParseFlowSequenceEntryMappingValue(c: Config): (r: Result)
    requires Valid(c) && c.state.FlowSequenceEntryMappingValue?
  {
    if c.toks == [] then NoToken
    else if c.toks[0].TValue? then
      var e := Skip(c);
      if e.toks == [] then NoToken
      else if !e.toks[0].TFlowEntry? && !e.toks[0].TFlowSequenceEnd? then
        ParseNode(Push(e, FlowSequenceEntryMappingEnd), false, false)
      else Emit(EmptyScalar, Goto(e, FlowSequenceEntryMappingEnd))
    else Emit(EmptyScalar, Goto(c, FlowSequenceEntryMappingEnd))
  }

  function ParseFlowSequenceEntryMappingEnd(c: Config): (r: Result)
    requires Valid(c) && c.state.FlowSequenceEntryMappingEnd?
  {
    if c.toks == [] then NoToken else Emit(EMappingEnd, Goto(c, FlowSequenceEntry))
  }

  function ParseFlowMappingKey(c: Config, first: bool): (r: Result)
    requires Valid(c) && c.state == if first then FlowMappingFirstKey else FlowMappingKey
  {
    var d := if first then Enter(c, FlowMappingKey) else c;
    if d.toks == [] then NoToken
    else if !first && !d.toks[0].TFlowMappingEnd? && !d.toks[0].TFlowEntry? then
      Failed(ExpectedCommaOrBrace(LastMark(d)))
    else
      FlowMappingEntry(if !first && d.toks[0].TFlowEntry? then Skip(d) else d)
  }

  /** An entry of a flow mapping, or its end, after any comma. */
  function FlowMappingEntry(c: Config): (r: Result)
    requires Valid(c) && c.state.FlowMappingKey?
  {
    if c.toks == [] then NoToken
    else if c.toks[0].TFlowMappingEnd? then Emit(EMappingEnd, Leave(c))
    else if c.toks[0].TKey? then
      var e := Skip(c);
      if e.toks == [] then NoToken
      else if !e.toks[0].TValue? && !e.toks[0].TFlowEntry? && !e.toks[0].TFlowMappingEnd? then
        ParseNode(Push(e, FlowMappingValue), false, false)
      else Emit(EmptyScalar, Goto(e, FlowMappingValue))
    else ParseNode(Push(c, FlowMappingEmptyValue), false, false)
  }

  function ParseFlowMappingValue(c: Config, empty: bool): (r: Result)
    requires Valid(c) && c.state == if empty then FlowMappingEmptyValue else FlowMappingValue
  {
    if c.toks == [] then NoToken
    else if empty then Emit(EmptyScalar, Goto(c, FlowMappingKey))
    else if c.toks[0].TValue? then
      var e := Skip(c);
      if e.toks == [] then NoToken
      else if !e.toks[0].TFlowEntry? && !e.toks[0].TFlowMappingEnd? then
        ParseNode(Push(e, FlowMappingKey), false, false)
      else Emit(EmptyScalar, Goto(e, FlowMappingKey))
    else Emit(EmptyScalar, Goto(c, FlowMappingKey))
  }

  // ---------------------------------------------------------------- the dispatcher

  function Step(c: Config): (r: Result)
    requires Valid(c) && !c.state.End?
  {
    match c.state
    case StreamStart => ParseStreamStart(c)
    case ImplicitDocumentStart => ParseDocumentStart(c, true)
    case DocumentStart => ParseDocumentStart(c, false)
    case DocumentContent => ParseDocumentContent(c)
    case DocumentEnd => ParseDocumentEnd(c)
    case BlockNode => ParseNode(c, true, false)
    case BlockNodeOrIndentlessSequence => ParseNode(c, true, true)
    case FlowNode => ParseNode(c, false, false)
    case BlockSequenceFirstEntry => ParseBlockSequenceEntry(c, true)
    case BlockSequenceEntry => ParseBlockSequenceEntry(c, false)
    case IndentlessSequenceEntry => ParseIndentlessSequenceEntry(c)
    case BlockMappingFirstKey => ParseBlockMappingKey(c, true)
    case BlockMappingKey => ParseBlockMappingKey(c, false)
    case BlockMappingValue => ParseBlockMappingValue(c)
    case FlowSequenceFirstEntry => ParseFlowSequenceEntry(c, true)
    case FlowSequenceEntry => ParseFlowSequenceEntry(c, false)
    case FlowSequenceEntryMappingKey => ParseFlowSequenceEntryMappingKey(c)
    case FlowSequenceEntryMappingValue => ParseFlowSequenceEntryMappingValue(c)
    case FlowSequenceEntryMappingEnd => ParseFlowSequenceEntryMappingEnd(c)
    case FlowMappingFirstKey => ParseFlowMappingKey(c, true)
    case FlowMappingKey => ParseFlowMappingKey(c, false)
    case FlowMappingValue => ParseFlowMappingValue(c, false)
    case FlowMappingEmptyValue => ParseFlowMappingValue(c, true)
  }
}
