/**
 Runs of the parser: which events lead from one configuration to another, and what it takes to
 show that a run arrives or that it never finishes.
 */
module ParserRuns {
  import opened Options
  import opened ParserModel
  import opened ParserSoundness
  import opened ParserBrackets
  import opened Derivations

  // ---------------------------------------------------------------- runs

  ghost predicate Leads(c: Config, events: seq<Event>, d: Config)
    decreases |events|
  {
    if events == [] then c == d
    else
      && Valid(c) && !c.state.End? && Step(c).Emit?
      && Step(c).event == events[0] && Leads(Step(c).next, events[1..], d)
  }

  ghost predicate ResultLeads(r: Result, events: seq<Event>, d: Config) {
    events != [] && r.Emit? && r.event == events[0] && Leads(r.next, events[1..], d)
  }

  lemma {:induction false} LeadsAppend(c: Config, a: seq<Event>, d: Config, b: seq<Event>, e: Config)
    requires Leads(c, a, d) && Leads(d, b, e)
    ensures Leads(c, a + b, e)
    decreases |a|
  {
    hide Step, Valid;
    if a == [] {
      assert a + b == b;
    } else {
      LeadsAppend(Step(c).next, a[1..], d, b, e);
      assert (a + b)[1..] == a[1..] + b;
    }
  }

  /** Coming back from a node that was called for. */
  lemma PopPush(c: Config, s: State, toks: seq<Token>)
    requires c.states != [] && ValidStack(c.states) && Return(s) && |c.marks| == Marked(s) + MarkedBelow(c.states)
    ensures Pop(Push(c, s).(toks := toks)) == c.(state := s, toks := toks)
  {
    assert (c.states + [s])[..|c.states|] == c.states;
  }

  // ---------------------------------------------------------------- fates

  /** A run either emits the events and arrives, or it never finishes. */
  ghost predicate Fate(good: bool, c: Config, events: seq<Event>, d: Config) {
    if good then Leads(c, events, d) else Valid(c) && Doomed(c)
  }

  ghost predicate ResultFate(good: bool, r: Result, events: seq<Event>, d: Config) {
    if good then ResultLeads(r, events, d) else r.Emit? ==> Valid(r.next) && Doomed(r.next)
  }

  lemma DoomedStep(c: Config)
    requires Valid(c) && !c.state.End? && (Step(c).Emit? ==> Valid(Step(c).next) && Doomed(Step(c).next))
    ensures Doomed(c)
  {
    hide Step, Valid;
    forall n: nat ensures !Run(c, n).1.state.End? {
      if n > 0 && Step(c).Emit? {
        assert Run(c, n).1 == Run(Step(c).next, n - 1).1;
      }
    }
  }

  lemma {:induction false} DoomedBefore(c: Config, a: seq<Event>, d: Config)
    requires Leads(c, a, d) && Valid(d) && Doomed(d)
    ensures Valid(c) && Doomed(c)
    decreases |a|
  {
    hide Step, Valid, Doomed;
    if a != [] {
      DoomedBefore(Step(c).next, a[1..], d);
      DoomedStep(c);
    }
  }

  lemma ThenFate(good1: bool, c: Config, a: seq<Event>, d: Config, good2: bool, b: seq<Event>, e: Config)
    requires Fate(good1, c, a, d) && (good1 ==> Fate(good2, d, b, e))
    ensures Fate(good1 && good2, c, a + b, e)
  {
    hide Leads, Doomed, Valid;
    if good1 {
      if good2 {
        LeadsAppend(c, a, d, b, e);
      } else {
        DoomedBefore(c, a, d);
      }
    }
  }

  lemma ResultThenFate(good1: bool, r: Result, a: seq<Event>, d: Config, good2: bool, b: seq<Event>, e: Config)
    requires ResultFate(good1, r, a, d) && (good1 ==> Fate(good2, d, b, e))
    ensures ResultFate(good1 && good2, r, a + b, e)
  {
    hide Leads, Doomed, Valid;
    if good1 {
      ThenFate(true, r.next, a[1..], d, good2, b, e);
      assert (a + b)[1..] == a[1..] + b;
    }
  }

  lemma EmitFate(good: bool, e: Event, c: Config, events: seq<Event>, d: Config)
    requires Fate(good, c, events, d)
    ensures ResultFate(good, Emit(e, c), [e] + events, d)
  {
    hide Leads, Doomed, Valid;
    assert ([e] + events)[1..] == events;
  }

  lemma FirstFate(good: bool, c: Config, events: seq<Event>, d: Config)
    requires Valid(c) && !c.state.End? && ResultFate(good, Step(c), events, d)
    ensures Fate(good, c, events, d)
  {
    if !good {
      DoomedStep(c);
    }
  }

  /** No brackets to spare, and the stream end comes last. */
  ghost predicate Tight(c: Config) { Spare(c) == 0 && EndIsLast(c.toks) }

  ghost predicate NodeTight(c: Config) { SpareBelow(c) == 0 && EndIsLast(c.toks) }

  lemma TightAfter(c: Config, head: seq<Token>, tail: seq<Token>)
    requires c.toks == head + tail && Balance(head) == 0
    ensures Tight(c) ==> Tight(c.(toks := tail))
    ensures NodeTight(c) ==> NodeTight(c.(toks := tail))
  {
    BalanceAppend(head, tail);
    forall i | 0 <= i < |tail| && tail[i].TStreamEnd? && EndIsLast(c.toks) ensures i == |tail| - 1 {
      assert c.toks[|head| + i].TStreamEnd?;
    }
  }

  // ---------------------------------------------------------------- brackets of derivations

  lemma PropertiesBalanced(p: Properties)
    ensures Balance(PropertyTokens(p)) == 0
  {
    var anchor := if p.anchor == "" then [] else [TAnchor(p.anchor)];
    var tag := if p.tag.NoTag? then [] else [TTag(p.tag.handle, p.tag.suffix)];
    BalanceAppend(anchor, tag);
    BalanceAppend(tag, anchor);
  }

  lemma Wrapped(p: Properties, first: Token, inner: seq<Token>, last: Token)
    ensures Balance(PropertyTokens(p) + ([first] + (inner + [last])))
      == Balance([first]) + Balance(inner) + Balance([last])
  {
    PropertiesBalanced(p);
    BalanceAppend(PropertyTokens(p), [first] + (inner + [last]));
    BalanceAppend([first], inner + [last]);
    BalanceAppend(inner, [last]);
  }

  lemma {:induction false} NodeBalanced(n: Node)
    ensures Balance(Tokens(n)) == 0
    decreases n
  {
    hide PropertyTokens;
    match n
    case Absent =>
    case Alias(_) =>
    case Atom(p, value, style) =>
      PropertiesBalanced(p);
      BalanceAppend(PropertyTokens(p), [TScalar(value, style)]);
    case Bare(p) => PropertiesBalanced(p);
    case BlockSequence(p, items) =>
      ItemsBalanced(items);
      Wrapped(p, TBlockSequenceStart, ItemTokens(items), TBlockEnd);
    case Indentless(p, items) =>
      PropertiesBalanced(p);
      ItemsBalanced(items);
      BalanceAppend(PropertyTokens(p), ItemTokens(items));
    case BlockMapping(p, entries) =>
      EntriesBalanced(entries);
      Wrapped(p, TBlockMappingStart, EntryTokens(entries), TBlockEnd);
    case FlowSequence(p, parts) =>
      PartsBalanced(parts);
      Wrapped(p, TFlowSequenceStart, PartTokens(parts), TFlowSequenceEnd);
    case FlowMapping(p, parts) =>
      PartsBalanced(parts);
      Wrapped(p, TFlowMappingStart, PartTokens(parts), TFlowMappingEnd);
  }

  lemma {:induction false} ItemsBalanced(items: Items)
    ensures Balance(ItemTokens(items)) == 0
    decreases items
  {
    if items.Item? {
      NodeBalanced(items.node);
      ItemsBalanced(items.more);
      BalanceAppend([TBlockEntry], Tokens(items.node) + ItemTokens(items.more));
      BalanceAppend(Tokens(items.node), ItemTokens(items.more));
    }
  }

  lemma {:induction false} ValueBalanced(v: Value)
    ensures Balance(ValueTokens(v)) == 0
    decreases v
  {
    if v.HasValue? {
      NodeBalanced(v.node);
      BalanceAppend([TValue], Tokens(v.node));
    }
  }

  lemma {:induction false} EntriesBalanced(entries: Entries)
    ensures Balance(EntryTokens(entries)) == 0
    decreases entries
  {
    match entries
    case NoEntry =>
    case Entry(k, v, more) =>
      NodeBalanced(k);
      ValueBalanced(v);
      EntriesBalanced(more);
      var tail := ValueTokens(v) + EntryTokens(more);
      BalanceAppend([TKey], Tokens(k) + tail);
      BalanceAppend(Tokens(k), tail);
      BalanceAppend(ValueTokens(v), EntryTokens(more));
    case Keyless(n, more) =>
      NodeBalanced(n);
      EntriesBalanced(more);
      BalanceAppend([TValue], Tokens(n) + EntryTokens(more));
      BalanceAppend(Tokens(n), EntryTokens(more));
  }

  lemma {:induction false} PartBalanced(part: Part)
    ensures Balance(OnePartTokens(part)) == 0
    decreases part
  {
    match part
    case Single(n) => NodeBalanced(n);
    case Pair(k, v) =>
      NodeBalanced(k);
      ValueBalanced(v);
      BalanceAppend([TKey], Tokens(k) + ValueTokens(v));
      BalanceAppend(Tokens(k), ValueTokens(v));
  }

  lemma {:induction false} PartsBalanced(parts: Parts)
    ensures Balance(PartTokens(parts)) == 0
    decreases parts
  {
    if parts.More? {
      PartBalanced(parts.part);
      PartsBalanced(parts.more);
      var comma := if parts.comma then [TFlowEntry] else [];
      BalanceAppend(OnePartTokens(parts.part), comma + PartTokens(parts.more));
      BalanceAppend(comma, PartTokens(parts.more));
    }
  }

  // ---------------------------------------------------------------- nodes

  /** Tokens that can follow a node. */
  predicate Closer(t: Token) {
    || t.TBlockEntry? || t.TBlockEnd? || t.TKey? || t.TValue?
    || t.TFlowEntry? || t.TFlowSequenceEnd? || t.TFlowMappingEnd?
    || t.TDocumentStart? || t.TDocumentEnd? || t.TVersion? || t.TTagDirective? || t.TStreamEnd?
  }

  predicate IsProperty(t: Token) { t.TAnchor? || t.TTag? }

  lemma {:induction false} PrefixAgrees(dirs: seq<Directive>, handle: string, i: nat)
    requires i <= |dirs|
    ensures FindPrefix(dirs[i..], handle) ==
      var k := FirstFor(dirs, handle, i); if k == |dirs| then None else Some(dirs[k].prefix)
    decreases |dirs| - i
  {
    if i < |dirs| {
      assert dirs[i..][0] == dirs[i] && dirs[i..][1..] == dirs[i + 1..];
      PrefixAgrees(dirs, handle, i + 1);
    }
  }

  /** The parser resolves a tag to the prefix of its handle's first directive, followed by its suffix. */
  lemma TagAgrees(dirs: seq<Directive>, p: Properties, toks: seq<Token>)
    ensures ResolveTag(dirs, match p.tag
                             case NoTag => Props(p.anchor, false, "", "", toks)
                             case Tag(h, s) => Props(p.anchor, true, h, s, toks)) == TagOf(dirs, p)
  {
    hide FindPrefix, FirstFor;
    if p.tag.Tag? {
      PrefixAgrees(dirs, p.tag.handle, 0);
      assert dirs[0..] == dirs;
    }
  }

  lemma PropsRead(p: Properties, toks: seq<Token>, dirs: seq<Directive>)
    requires toks != [] && !IsProperty(toks[0])
    ensures var all := PropertyTokens(p) + toks;
            && ReadProps(all).anchor == p.anchor && ReadProps(all).toks == toks
            && ResolveTag(dirs, ReadProps(all)) == TagOf(dirs, p)
            && (all[0].TAlias? ==> toks[0].TAlias? && all == toks)
  {
    hide ResolveTag, TagOf, ReadProps, PropertyTokens;
    TagAgrees(dirs, p, toks);
    PropsFound(p, toks);
  }

  lemma PropsFound(p: Properties, toks: seq<Token>)
    requires toks != [] && !IsProperty(toks[0])
    ensures var all := PropertyTokens(p) + toks;
            && ReadProps(all) == (match p.tag
                                  case NoTag => Props(p.anchor, false, "", "", toks)
                                  case Tag(h, s) => Props(p.anchor, true, h, s, toks))
            && (all[0].TAlias? ==> toks[0].TAlias? && all == toks)
  {
    var all := PropertyTokens(p) + toks;
    var n := |PropertyTokens(p)|;
    assert all[n..] == toks;
    if n == 0 {
      assert all == toks;
    }
  }

  /** What a node with properties makes of its content token; an unknown tag handle is an error. */
  lemma NodeContent(c: Config, p: Properties, toks: seq<Token>, block: bool, indentless: bool)
    requires NodeReady(c) && toks != [] && !IsProperty(toks[0]) && !toks[0].TAlias?
    requires c.toks == PropertyTokens(p) + toks
    ensures !GoodProps(p, c.dirs) ==> ParseNode(c, block, indentless) == Failed(UndefinedTagHandle)
    ensures GoodProps(p, c.dirs) ==> var d, tag := c.(toks := toks), TagText(c.dirs, p);
            ParseNode(c, block, indentless) ==
            match ContentOf(toks[0], p.anchor, tag, block, indentless) {
              case Scalar(e) => Emit(e, Pop(Skip(d)))
              case Collection(e, first) => Emit(e, d.(state := first))
              case Missing =>
                if p.anchor != "" || tag != "" then Emit(EScalar(p.anchor, tag, "", tag == "", false, Plain), Pop(d))
                else Failed(ExpectedNodeContent)
            }
  {
    hide ReadProps, ResolveTag, TagOf, ContentOf, PropertyTokens, Pop;
    PropsRead(p, toks, c.dirs);
    assert c.toks != [];
  }
}
