/**
 The parser object (gopkg.in/yaml.v2/parserc.go): productions that update `state`, `states`,
 `marks` and `tag_directives` in place, each proved to do what its function in `ParserModel`
 says. The tokens are given as a sequence with a read position; the position past the last
 token stands for a scanner failure.
 */
module ParserObject {
  import opened Options
  import D = Derivations
  import G = EventGrammar
  import M = ParserModel
  import opened ParserSoundness
  import T = ParserTermination
  import W = ParserStreams

  datatype Stop = Finished | OutOfTokens | Refused(problem: M.Problem)

  datatype Outcome = Got(event: M.Event) | NoToken | Failed(problem: M.Problem)

  function OutcomeOf(r: M.Result): Outcome {
    match r
    case Emit(e, _) => Got(e)
    case NoToken => NoToken
    case Failed(p) => Failed(p)
  }

  function StopOf(o: Outcome): Stop {
    match o
    case Got(_) => Finished
    case NoToken => OutOfTokens
    case Failed(p) => Refused(p)
  }

  /**
   What a parse means. Whatever the tokens, the events are the beginning of a well-nested stream,
   and all of one when the parser finishes. Tokens that hold the end of the stream do not run out. On
   the tokens of a sentence of the documented grammar, it depends on `KeyedStream` alone whether the
   events are those of the sentence or end in an error.
   */
  ghost predicate WellParsed(toks: seq<M.Token>, events: seq<M.Event>, stop: Stop) {
    && (exists docs, more :: Kinds(events) + more == G.StreamKinds(docs))
    && (stop.Finished? ==> exists docs :: Kinds(events) == G.StreamKinds(docs))
    && (T.EndAhead(toks) ==> !stop.OutOfTokens?)
    && forall s :: D.GoodStream(s) && toks == D.StreamTokens(s) ==>
         if D.KeyedStream(s) then events == D.StreamEvents(s) && stop.Finished? else stop.Refused?
  }

  class Parser {
    const tokens: seq<M.Token>
    var head: nat
    var state: M.State
    var states: seq<M.State>
    var marks: seq<nat>
    var tagDirectives: seq<M.Directive>

    constructor (tokens: seq<M.Token>)
      ensures this.tokens == tokens && Conf() == Initial(tokens) && head <= |tokens|
    {
      this.tokens := tokens;
      head, state, states, marks, tagDirectives := 0, M.StreamStart, [], [], [];
      new;
      assert tokens[0..] == tokens;
    }

    function Conf(): M.Config
      reads this
    {
      M.Config(state, states, marks, if head <= |tokens| then tokens[head..] else [], tagDirectives)
    }

    /** The caller has the outcome of a production, and the object its new configuration. */
    predicate Did(r: M.Result, o: Outcome)
      reads this
    {
      o == OutcomeOf(r) && (r.Emit? ==> Conf() == r.next)
    }

    predicate Available()
      reads this
    {
      head < |tokens|
    }

    /** `skip_token` */
    method SkipToken()
      requires Available()
      modifies this`head
      ensures Conf() == M.Skip(old(Conf()))
    {
      assert tokens[head..][1..] == tokens[head + 1..];
      head := head + 1;
    }

    method PopState()
      requires M.NodeReady(Conf())
      modifies this`state, this`states
      ensures Conf() == M.Pop(old(Conf()))
    {
      state := states[|states| - 1];
      states := states[..|states| - 1];
    }

    method PushState(s: M.State)
      requires states != [] && M.ValidStack(states) && M.Return(s) && |marks| == M.Marked(s) + M.MarkedBelow(states)
      modifies this`states
      ensures Conf() == M.Push(old(Conf()), s)
    {
      states := states + [s];
    }

    method Goto(s: M.State)
      requires M.Valid(Conf()) && states != [] && !M.Outer(s) && M.Marked(s) == M.Marked(state) && M.StartToken(s, [])
      modifies this`state
      ensures Conf() == M.Goto(old(Conf()), s)
    {
      state := s;
    }

    method Enter(s: M.State)
      requires M.Valid(Conf()) && Available() && states != [] && M.Marked(state) == 0 && M.Marked(s) == 1 && M.Return(s)
      modifies this`head, this`state, this`marks
      ensures Conf() == M.Enter(old(Conf()), s)
    {
      marks := marks + [|tokens| - head];
      SkipToken();
      state := s;
    }

    /** Every mark that is taken off the stack is there. */
    method PopMark() returns (mark: nat)
      requires M.Valid(Conf()) && M.Marked(state) == 1
      modifies this`marks
      ensures mark == M.LastMark(old(Conf())) && marks == old(marks)[..|old(marks)| - 1]
    {
      mark := marks[|marks| - 1];
      marks := marks[..|marks| - 1];
    }

    method Leave()
      requires M.Valid(Conf()) && Available() && M.Marked(state) == 1
      modifies this`head, this`state, this`states, this`marks
      ensures Conf() == M.Leave(old(Conf()))
    {
      var _ := PopMark();
      SkipToken();
      PopState();
    }

    // -------------------------------------------------------------- stream and documents

    method ParseStreamStart() returns (o: Outcome)
      requires M.Valid(Conf()) && state.StreamStart?
      modifies this
      ensures Did(M.ParseStreamStart(old(Conf())), o)
    {
      if !Available() {
        return NoToken;
      }
      if !tokens[head].TStreamStart? {
        return Failed(M.ExpectedStreamStart);
      }
      state := M.ImplicitDocumentStart;
      SkipToken();
      return Got(M.EStreamStart);
    }

    method AppendDefaults()
      modifies this`tagDirectives
      ensures tagDirectives == M.WithDefaults(old(tagDirectives))
    {
      if !M.HasHandle(tagDirectives, "!") {
        tagDirectives := tagDirectives + [M.Directive("!", "!")];
      }
      if !M.HasHandle(tagDirectives, "!!") {
        tagDirectives := tagDirectives + [M.Directive("!!", "tag:yaml.org,2002:")];
      }
    }

    method ProcessDirectives() returns (r: M.Directives)
      modifies this`head, this`tagDirectives
      ensures r == M.ReadDirectives(old(Conf()), false, [])
      ensures r.Read? ==> Conf() == r.next
    {
      var version, tags := false, [];
      while Available() && (tokens[head].TVersion? || tokens[head].TTagDirective?)
        invariant state == old(state) && states == old(states) && marks == old(marks)
        invariant M.ReadDirectives(Conf(), version, tags) == M.ReadDirectives(old(Conf()), false, [])
        decreases |tokens| - head
      {
        match tokens[head] {
          case TVersion(major, minor) =>
            if version {
              return M.Bad(M.DuplicateVersion);
            }
            if major != 1 || minor != 1 {
              return M.Bad(M.IncompatibleVersion);
            }
            version := true;
            SkipToken();
          case TTagDirective(d) =>
            if M.HasHandle(tagDirectives, d.handle) {
              return M.Bad(M.DuplicateTagDirective);
            }
            SkipToken();
            tagDirectives := tagDirectives + [d];
            tags := tags + [d];
        }
      }
      if !Available() {
        return M.NoMore;
      }
      AppendDefaults();
      r := M.Read(version, tags, Conf());
    }

    method ParseDocumentStart(implicit: bool) returns (o: Outcome)
      requires M.Valid(Conf()) && (state.ImplicitDocumentStart? || state.DocumentStart?)
      modifies this
      ensures Did(M.ParseDocumentStart(old(Conf()), implicit), o)
    {
      if !implicit {
        while Available() && tokens[head].TDocumentEnd?
          invariant state == old(state) && states == old(states) && marks == old(marks)
          invariant tagDirectives == old(tagDirectives)
          invariant M.SkipDocumentEnds(Conf()) == M.SkipDocumentEnds(old(Conf()))
          decreases |tokens| - head
        {
          SkipToken();
        }
      }
      o := OpenDocument(implicit);
    }

    method OpenDocument(implicit: bool) returns (o: Outcome)
      requires states == []
      modifies this
      ensures Did(M.OpenDocument(old(Conf()), implicit), o)
    {
      if !Available() {
        return NoToken;
      }
      if tokens[head].TStreamEnd? {
        state := M.End;
        SkipToken();
        return Got(M.EStreamEnd);
      }
      var bare := implicit && !M.StartsExplicitDocument(tokens[head]);
      var r := ProcessDirectives();
      match r {
        case NoMore => return NoToken;
        case Bad(p) => return Failed(p);
        case Read(version, tags, _) =>
          if bare {
            states := states + [M.DocumentEnd];
            state := M.BlockNode;
            return Got(M.EDocumentStart(false, []));
          }
          if !tokens[head].TDocumentStart? {
            return Failed(M.ExpectedDocumentStart);
          }
          states := states + [M.DocumentEnd];
          state := M.DocumentContent;
          SkipToken();
          return Got(M.EDocumentStart(version, tags));
      }
    }

    method ParseDocumentContent() returns (o: Outcome)
      requires M.Valid(Conf()) && state.DocumentContent?
      modifies this
      ensures Did(M.ParseDocumentContent(old(Conf())), o)
    {
      if !Available() {
        return NoToken;
      }
      if M.StartsExplicitDocument(tokens[head]) || tokens[head].TDocumentEnd? || tokens[head].TStreamEnd? {
        PopState();
        return Got(M.EmptyScalar);
      }
      o := ParseNode(true, false);
    }

    method ParseDocumentEnd() returns (o: Outcome)
      requires M.Valid(Conf()) && state.DocumentEnd?
      modifies this
      ensures Did(M.ParseDocumentEnd(old(Conf())), o)
    {
      if !Available() {
        return NoToken;
      }
      var implicit := true;
      if tokens[head].TDocumentEnd? {
        SkipToken();
        implicit := false;
      }
      tagDirectives := [];
      state := M.DocumentStart;
      return Got(M.EDocumentEnd(implicit));
    }

    // -------------------------------------------------------------- nodes

    /** Reads an anchor and a tag, in either order. */
    method ReadProps() returns (p: M.Props)
      requires Available()
      modifies this`head
      ensures p == M.ReadProps(old(Conf()).toks)
      ensures Conf() == old(Conf()).(toks := p.toks)
    {
      hide M.Valid;
      var anchor, tagged, handle, suffix := "", false, "", "";
      var first := tokens[head];
      if first.TAnchor? {
        anchor := first.name;
        SkipToken();
        if Available() && tokens[head].TTag? {
          tagged, handle, suffix := true, tokens[head].handle, tokens[head].suffix;
          SkipToken();
        }
      } else if first.TTag? {
        tagged, handle, suffix := true, first.handle, first.suffix;
        SkipToken();
        if Available() && tokens[head].TAnchor? {
          anchor := tokens[head].name;
          SkipToken();
        }
      }
      p := M.Props(anchor, tagged, handle, suffix, Conf().toks);
      ghost var toks := old(Conf()).toks;
      assert |toks| > 1 ==> toks[1..][1..] == toks[2..];
    }

    method FindPrefix(handle: string) returns (prefix: Option<string>)
      ensures prefix == M.FindPrefix(tagDirectives, handle)
    {
      var i := 0;
      assert tagDirectives[0..] == tagDirectives;
      while i < |tagDirectives|
        invariant 0 <= i <= |tagDirectives|
        invariant M.FindPrefix(tagDirectives, handle) == M.FindPrefix(tagDirectives[i..], handle)
      {
        if tagDirectives[i].handle == handle {
          return Some(tagDirectives[i].prefix);
        }
        assert tagDirectives[i..][1..] == tagDirectives[i + 1..];
        i := i + 1;
      }
      return None;
    }

    method ResolveTag(p: M.Props) returns (tag: Option<string>)
      ensures tag == M.ResolveTag(tagDirectives, p)
    {
      if !p.tagged {
        return Some("");
      }
      if p.handle == "" {
        return Some(p.suffix);
      }
      var prefix := FindPrefix(p.handle);
      if prefix.None? || prefix.value + p.suffix == "" {
        return None;
      }
      return Some(prefix.value + p.suffix);
    }

    method ParseNode(block: bool, indentless: bool) returns (o: Outcome)
      requires M.NodeReady(Conf())
      modifies this
      ensures Did(M.ParseNode(old(Conf()), block, indentless), o)
    {
      hide M.ReadProps, M.ResolveTag, M.ContentOf, M.MarkedBelow, M.ValidStack;
      if !Available() {
        return NoToken;
      }
      if tokens[head].TAlias? {
        var name := tokens[head].name;
        SkipToken();
        PopState();
        return Got(M.EAlias(name));
      }
      var p := ReadProps();
      if !Available() {
        return NoToken;
      }
      var t := ResolveTag(p);
      if t.None? {
        return Failed(M.UndefinedTagHandle);
      }
      var content := M.ContentOf(tokens[head], p.anchor, t.value, block, indentless);
      match content {
        case Scalar(e) =>
          SkipToken();
          PopState();
          return Got(e);
        case Collection(e, first) =>
          state := first;
          return Got(e);
        case Missing =>
          if p.anchor != "" || t.value != "" {
            PopState();
            return Got(M.EScalar(p.anchor, t.value, "", t.value == "", false, M.Plain));
          }
          return Failed(M.ExpectedNodeContent);
      }
    }

    // -------------------------------------------------------------- block collections

    method ParseBlockSequenceEntry(first: bool) returns (o: Outcome)
      requires M.Valid(Conf()) && state == if first then M.BlockSequenceFirstEntry else M.BlockSequenceEntry
      modifies this
      ensures Did(M.ParseBlockSequenceEntry(old(Conf()), first), o)
    {
      hide M.ParseNode, M.MarkedBelow, M.ValidStack, M.Leave, M.LastMark;
      if first {
        Enter(M.BlockSequenceEntry);
      }
      if !Available() {
        return NoToken;
      }
      if tokens[head].TBlockEntry? {
        SkipToken();
        if !Available() {
          return NoToken;
        }
        if !tokens[head].TBlockEntry? && !tokens[head].TBlockEnd? {
          PushState(M.BlockSequenceEntry);
          o := ParseNode(true, false);
        } else {
          Goto(M.BlockSequenceEntry);
          o := Got(M.EmptyScalar);
        }
      } else if tokens[head].TBlockEnd? {
        Leave();
        o := Got(M.ESequenceEnd);
      } else {
        var since := PopMark();
        o := Failed(M.ExpectedBlockEntry(since));
      }
    }

    method ParseIndentlessSequenceEntry() returns (o: Outcome)
      requires M.Valid(Conf()) && state.IndentlessSequenceEntry?
      modifies this
      ensures Did(M.ParseIndentlessSequenceEntry(old(Conf())), o)
    {
      hide M.ParseNode, M.MarkedBelow, M.ValidStack;
      if !Available() {
        return NoToken;
      }
      if tokens[head].TBlockEntry? {
        SkipToken();
        if !Available() {
          return NoToken;
        }
        if !tokens[head].TBlockEntry? && !M.EndsMappingPart(tokens[head]) {
          PushState(M.IndentlessSequenceEntry);
          o := ParseNode(true, false);
        } else {
          Goto(M.IndentlessSequenceEntry);
          o := Got(M.EmptyScalar);
        }
      } else {
        PopState();
        o := Got(M.ESequenceEnd);
      }
    }

    method ParseBlockMappingKey(first: bool) returns (o: Outcome)
      requires M.Valid(Conf()) && state == if first then M.BlockMappingFirstKey else M.BlockMappingKey
      modifies this
      ensures Did(M.ParseBlockMappingKey(old(Conf()), first), o)
    {
      hide M.ParseNode, M.MarkedBelow, M.ValidStack, M.Leave, M.LastMark;
      if first {
        Enter(M.BlockMappingKey);
      }
      if !Available() {
        return NoToken;
      }
      if tokens[head].TKey? {
        SkipToken();
        if !Available() {
          return NoToken;
        }
        if !M.EndsMappingPart(tokens[head]) {
          PushState(M.BlockMappingValue);
          o := ParseNode(true, true);
        } else {
          Goto(M.BlockMappingValue);
          o := Got(M.EmptyScalar);
        }
      } else if tokens[head].TBlockEnd? {
        Leave();
        o := Got(M.EMappingEnd);
      } else {
        var since := PopMark();
        o := Failed(M.ExpectedKey(since));
      }
    }

    method ParseBlockMappingValue() returns (o: Outcome)
      requires M.Valid(Conf()) && state.BlockMappingValue?
      modifies this
      ensures Did(M.ParseBlockMappingValue(old(Conf())), o)
    {
      hide M.ParseNode, M.MarkedBelow, M.ValidStack;
      if !Available() {
        return NoToken;
      }
      if tokens[head].TValue? {
        SkipToken();
        if !Available() {
          return NoToken;
        }
        if !M.EndsMappingPart(tokens[head]) {
          PushState(M.BlockMappingKey);
          o := ParseNode(true, true);
          return;
        }
      }
      Goto(M.BlockMappingKey);
      o := Got(M.EmptyScalar);
    }

    // -------------------------------------------------------------- flow collections

    method ParseFlowSequenceEntry(first: bool) returns (o: Outcome)
      requires M.Valid(Conf()) && state == if first then M.FlowSequenceFirstEntry else M.FlowSequenceEntry
      modifies this
      ensures Did(M.ParseFlowSequenceEntry(old(Conf()), first), o)
    {
      hide M.ParseNode, M.MarkedBelow, M.ValidStack, M.FlowSequenceItem;
      if first {
        Enter(M.FlowSequenceEntry);
      }
      if !Available() {
        return NoToken;
      }
      if !first && !tokens[head].TFlowSequenceEnd? {
        if !tokens[head].TFlowEntry? {
          var since := PopMark();
          return Failed(M.ExpectedCommaOrBracket(since));
        }
        SkipToken();
      }
      o := FlowSequenceItem();
    }

    /** What follows the bracket or a comma. */
    method FlowSequenceItem() returns (o: Outcome)
      requires M.Valid(Conf()) && state.FlowSequenceEntry?
      modifies this
      ensures Did(M.FlowSequenceItem(old(Conf())), o)
    {
      hide M.ParseNode, M.MarkedBelow, M.ValidStack;
      if !Available() {
        return NoToken;
      }
      if tokens[head].TFlowSequenceEnd? {
        Leave();
        o := Got(M.ESequenceEnd);
      } else if tokens[head].TKey? {
        SkipToken();
        Goto(M.FlowSequenceEntryMappingKey);
        o := Got(M.EMappingStart("", "", true, true));
      } else {
        PushState(M.FlowSequenceEntry);
        o := ParseNode(false, false);
      }
    }

    method ParseFlowSequenceEntryMappingKey() returns (o: Outcome)
      requires M.Valid(Conf()) && state.FlowSequenceEntryMappingKey?
      modifies this
      ensures Did(M.ParseFlowSequenceEntryMappingKey(old(Conf())), o)
    {
      hide M.ParseNode, M.MarkedBelow, M.ValidStack;
      if !Available() {
        return NoToken;
      }
      if !tokens[head].TValue? && !tokens[head].TFlowEntry? && !tokens[head].TFlowSequenceEnd? {
        PushState(M.FlowSequenceEntryMappingValue);
        o := ParseNode(false, false);
        return;
      }
      SkipToken();
      Goto(M.FlowSequenceEntryMappingValue);
      o := Got(M.EmptyScalar);
    }

    method ParseFlowSequenceEntryMappingValue() returns (o: Outcome)
      requires M.Valid(Conf()) && state.FlowSequenceEntryMappingValue?
      modifies this
      ensures Did(M.ParseFlowSequenceEntryMappingValue(old(Conf())), o)
    {
      hide M.ParseNode, M.MarkedBelow, M.ValidStack;
      if !Available() {
        return NoToken;
      }
      if tokens[head].TValue? {
        SkipToken();
        if !Available() {
          return NoToken;
        }
        if !tokens[head].TFlowEntry? && !tokens[head].TFlowSequenceEnd? {
          PushState(M.FlowSequenceEntryMappingEnd);
          o := ParseNode(false, false);
          return;
        }
      }
      Goto(M.FlowSequenceEntryMappingEnd);
      o := Got(M.EmptyScalar);
    }

    method ParseFlowSequenceEntryMappingEnd() returns (o: Outcome)
      requires M.Valid(Conf()) && state.FlowSequenceEntryMappingEnd?
      modifies this
      ensures Did(M.ParseFlowSequenceEntryMappingEnd(old(Conf())), o)
    {
      if !Available() {
        return NoToken;
      }
      Goto(M.FlowSequenceEntry);
      o := Got(M.EMappingEnd);
    }

    method ParseFlowMappingKey(first: bool) returns (o: Outcome)
      requires M.Valid(Conf()) && state == if first then M.FlowMappingFirstKey else M.FlowMappingKey
      modifies this
      ensures Did(M.ParseFlowMappingKey(old(Conf()), first), o)
    {
      hide M.FlowMappingEntry, M.MarkedBelow, M.ValidStack;
      if first {
        Enter(M.FlowMappingKey);
      }
      if !Available() {
        return NoToken;
      }
      if !first && !tokens[head].TFlowMappingEnd? {
        if !tokens[head].TFlowEntry? {
          var since := PopMark();
          return Failed(M.ExpectedCommaOrBrace(since));
        }
        SkipToken();
      }
      o := ParseFlowMappingEntry();
    }

    method ParseFlowMappingEntry() returns (o: Outcome)
      requires M.Valid(Conf()) && state.FlowMappingKey?
      modifies this
      ensures Did(M.FlowMappingEntry(old(Conf())), o)
    {
      hide M.ParseNode, M.MarkedBelow, M.ValidStack;
      if !Available() {
        return NoToken;
      }
      if tokens[head].TFlowMappingEnd? {
        Leave();
        o := Got(M.EMappingEnd);
      } else if tokens[head].TKey? {
        SkipToken();
        if !Available() {
          return NoToken;
        }
        if !tokens[head].TValue? && !tokens[head].TFlowEntry? && !tokens[head].TFlowMappingEnd? {
          PushState(M.FlowMappingValue);
          o := ParseNode(false, false);
        } else {
          Goto(M.FlowMappingValue);
          o := Got(M.EmptyScalar);
        }
      } else {
        PushState(M.FlowMappingEmptyValue);
        o := ParseNode(false, false);
      }
    }

    method ParseFlowMappingValue(empty: bool) returns (o: Outcome)
      requires M.Valid(Conf()) && state == if empty then M.FlowMappingEmptyValue else M.FlowMappingValue
      modifies this
      ensures Did(M.ParseFlowMappingValue(old(Conf()), empty), o)
    {
      hide M.ParseNode, M.MarkedBelow, M.ValidStack;
      if !Available() {
        return NoToken;
      }
      if !empty && tokens[head].TValue? {
        SkipToken();
        if !Available() {
          return NoToken;
        }
        if !tokens[head].TFlowEntry? && !tokens[head].TFlowMappingEnd? {
          PushState(M.FlowMappingKey);
          o := ParseNode(false, false);
          return;
        }
      }
      Goto(M.FlowMappingKey);
      o := Got(M.EmptyScalar);
    }

    // -------------------------------------------------------------- the dispatcher

    /**
     One event: the grammar takes it, from the nesting before it to the nesting after it, and it
     uses up some of the finite stock. Tokens that hold the end of the stream never run out.
     */
    method StateMachine() returns (o: Outcome)
      requires M.Valid(Conf()) && !state.End?
      modifies this
      ensures Did(M.Step(old(Conf())), o)
      ensures o.Got? ==> M.Valid(Conf())
      ensures o.Got? ==> G.Take(old(M.Nesting(Conf())), M.KindOf(o.event)) == G.Accept(M.Nesting(Conf()))
      ensures o.Got? ==> T.Stock(Conf()) < old(T.Stock(Conf()))
      ensures old(T.EndAhead(Conf().toks)) ==> !o.NoToken?
    {
      StepFollows(Conf());
      T.StepSpends(Conf());
      o := Dispatch();
    }

    method Dispatch() returns (o: Outcome)
      requires M.Valid(Conf()) && !state.End?
      modifies this
      ensures Did(M.Step(old(Conf())), o)
    {
      hide M.Valid, M.ParseNode, M.ParseDocumentStart, M.ParseBlockSequenceEntry, M.ParseBlockMappingKey;
      hide M.ParseFlowSequenceEntry, M.ParseFlowMappingKey, M.ParseIndentlessSequenceEntry, M.ParseBlockMappingValue;
      hide M.ParseFlowMappingValue, M.ParseFlowSequenceEntryMappingKey, M.ParseFlowSequenceEntryMappingValue;
      hide M.ParseFlowSequenceEntryMappingEnd, M.ParseStreamStart, M.ParseDocumentContent, M.ParseDocumentEnd;
      match state {
        case StreamStart => o := ParseStreamStart();
        case ImplicitDocumentStart => o := ParseDocumentStart(true);
        case DocumentStart => o := ParseDocumentStart(false);
        case DocumentContent => o := ParseDocumentContent();
        case DocumentEnd => o := ParseDocumentEnd();
        case BlockNode => NodeStateReady(); o := ParseNode(true, false);
        case BlockNodeOrIndentlessSequence => NodeStateReady(); o := ParseNode(true, true);
        case FlowNode => NodeStateReady(); o := ParseNode(false, false);
        case BlockSequenceFirstEntry => o := ParseBlockSequenceEntry(true);
        case BlockSequenceEntry => o := ParseBlockSequenceEntry(false);
        case IndentlessSequenceEntry => o := ParseIndentlessSequenceEntry();
        case BlockMappingFirstKey => o := ParseBlockMappingKey(true);
        case BlockMappingKey => o := ParseBlockMappingKey(false);
        case BlockMappingValue => o := ParseBlockMappingValue();
        case FlowSequenceFirstEntry => o := ParseFlowSequenceEntry(true);
        case FlowSequenceEntry => o := ParseFlowSequenceEntry(false);
        case FlowSequenceEntryMappingKey => o := ParseFlowSequenceEntryMappingKey();
        case FlowSequenceEntryMappingValue => o := ParseFlowSequenceEntryMappingValue();
        case FlowSequenceEntryMappingEnd => o := ParseFlowSequenceEntryMappingEnd();
        case FlowMappingFirstKey => o := ParseFlowMappingKey(true);
        case FlowMappingKey => o := ParseFlowMappingKey(false);
        case FlowMappingValue => o := ParseFlowMappingValue(false);
        case FlowMappingEmptyValue => o := ParseFlowMappingValue(true);
      }
    }

    lemma NodeStateReady()
      requires M.Valid(Conf()) && (state.BlockNode? || state.BlockNodeOrIndentlessSequence? || state.FlowNode?)
      ensures M.NodeReady(Conf())
    {
    }

    /** Takes events until there are no more, as the callers of `yaml_parser_parse` do. */
    method ParseAll() returns (events: seq<M.Event>, stop: Stop)
      requires Conf() == Initial(tokens)
      modifies this
      ensures WellParsed(tokens, events, stop)
    {
      hide M.Valid, M.Step, M.Nesting, G.Take, T.Stock, T.EndAhead, WellParsed;
      ghost var n := T.Stock(Conf());
      events := [];
      NothingYet(tokens);
      while !state.End?
        invariant M.Valid(Conf()) && n >= T.Stock(Conf())
        invariant W.Whole(tokens) == (events + Run(Conf(), n).0, Run(Conf(), n).1)
        decreases T.Stock(Conf())
      {
        ghost var c := Conf();
        var o := StateMachine();
        if !o.Got? {
          RunHere(c, n);
          assert events + [] == events;
          WholeIsWellParsed(tokens, c);
          return events, StopOf(o);
        }
        RunOn(c, n);
        assert events + ([o.event] + Run(Conf(), n - 1).0) == events + [o.event] + Run(Conf(), n - 1).0;
        events, n := events + [o.event], n - 1;
      }
      RunHere(Conf(), n);
      assert events + [] == events;
      WholeIsWellParsed(tokens, Conf());
      stop := Finished;
    }
  }

  lemma NothingYet(toks: seq<M.Token>)
    ensures var whole := Run(Initial(toks), T.Stock(Initial(toks))); W.Whole(toks) == ([] + whole.0, whole.1)
  {
    hide Run;
    var whole := Run(Initial(toks), T.Stock(Initial(toks)));
    assert [] + whole.0 == whole.0;
    assert whole == (whole.0, whole.1);
  }

  lemma RunHere(c: M.Config, n: nat)
    requires M.Valid(c) && (c.state.End? || !M.Step(c).Emit?)
    ensures Run(c, n) == ([], c)
  {
  }

  lemma RunOn(c: M.Config, n: nat)
    requires M.Valid(c) && !c.state.End? && M.Step(c).Emit? && n > 0
    ensures M.Valid(M.Step(c).next)
    ensures Run(c, n) == ([M.Step(c).event] + Run(M.Step(c).next, n - 1).0, Run(M.Step(c).next, n - 1).1)
  {
    hide M.Step, M.Valid;
    StepFollows(c);
    var (events, last) := Run(M.Step(c).next, n - 1);
    assert Run(c, n) == ([M.Step(c).event] + events, last);
  }

  lemma WholeIsWellParsed(toks: seq<M.Token>, last: M.Config)
    requires M.Valid(last) && W.Whole(toks).1 == last && (last.state.End? || !M.Step(last).Emit?)
    ensures WellParsed(toks, W.Whole(toks).0, if last.state.End? then Finished else StopOf(OutcomeOf(M.Step(last))))
  {
    hide M.Valid, M.Step, Run, G.StreamKinds, T.EndAhead, D.GoodStream, D.KeyedStream, D.StreamTokens, D.StreamEvents;
    EventsAreWellNested(toks, T.Stock(Initial(toks)));
    W.WholeStops(toks);
    forall s | D.GoodStream(s) && toks == D.StreamTokens(s)
      ensures if D.KeyedStream(s) then W.Whole(toks) == (D.StreamEvents(s), W.Finished) else W.Refused(toks)
    {
      W.StreamParsesIffKeyed(s);
    }
  }
}
