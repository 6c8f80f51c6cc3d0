/** Documents and whole streams: on which sentences of the documented grammar the parser succeeds. */
module ParserStreams {
  import opened Options
  import opened ParserModel
  import opened ParserSoundness
  import opened ParserBrackets
  import opened ParserTermination
  import opened Derivations
  import opened ParserRuns
  import opened ParserCompleteness

  // ---------------------------------------------------------------- brackets

  lemma {:induction false} NodeHasNoEnd(n: Node)
    ensures TStreamEnd !in Tokens(n)
    decreases n
  {
    match n
    case BlockSequence(_, items) => ItemsHaveNoEnd(items);
    case Indentless(_, items) => ItemsHaveNoEnd(items);
    case BlockMapping(_, entries) => EntriesHaveNoEnd(entries);
    case FlowSequence(_, parts) => PartsHaveNoEnd(parts);
    case FlowMapping(_, parts) => PartsHaveNoEnd(parts);
    case _ =>
  }

  lemma {:induction false} ItemsHaveNoEnd(items: Items)
    ensures TStreamEnd !in ItemTokens(items)
    decreases items
  {
    if items.Item? {
      NodeHasNoEnd(items.node);
      ItemsHaveNoEnd(items.more);
    }
  }

  lemma {:induction false} ValueHasNoEnd(v: Value)
    ensures TStreamEnd !in ValueTokens(v)
    decreases v
  {
    if v.HasValue? {
      NodeHasNoEnd(v.node);
    }
  }

  lemma {:induction false} EntriesHaveNoEnd(entries: Entries)
    ensures TStreamEnd !in EntryTokens(entries)
    decreases entries
  {
    if entries.Entry? {
      NodeHasNoEnd(entries.key);
      ValueHasNoEnd(entries.value);
      EntriesHaveNoEnd(entries.more);
    } else if entries.Keyless? {
      NodeHasNoEnd(entries.node);
      EntriesHaveNoEnd(entries.more);
    }
  }

  lemma {:induction false} PartsHaveNoEnd(parts: Parts)
    ensures TStreamEnd !in PartTokens(parts)
    decreases parts
  {
    if parts.More? {
      match parts.part {
        case Single(n) => NodeHasNoEnd(n);
        case Pair(k, v) =>
          NodeHasNoEnd(k);
          ValueHasNoEnd(v);
      }
      PartsHaveNoEnd(parts.more);
    }
  }

  lemma {:induction false} EndsBalanced(n: nat)
    ensures Balance(Ends(n)) == 0 && TStreamEnd !in Ends(n)
  {
    if n > 0 {
      EndsBalanced(n - 1);
      BalanceAppend([TDocumentEnd], Ends(n - 1));
    }
  }

  lemma {:induction false} DirectivesBalanced(ds: seq<Token>, version: bool, dirs: seq<Directive>)
    requires GoodDirectives(ds, version, dirs)
    ensures Balance(ds) == 0 && TStreamEnd !in ds
    decreases |ds|
  {
    if ds != [] {
      match ds[0]
      case TVersion(_, _) => DirectivesBalanced(ds[1..], true, dirs);
      case TTagDirective(d) => DirectivesBalanced(ds[1..], version, dirs + [d]);
      assert ds == [ds[0]] + ds[1..];
    }
  }

  lemma DocumentBalanced(d: Document)
    requires GoodDirectives(d.directives, false, [])
    ensures Balance(DocumentTokens(d)) == 0 && TStreamEnd !in DocumentTokens(d)
  {
    DirectivesBalanced(d.directives, false, []);
    NodeBalanced(d.root);
    NodeHasNoEnd(d.root);
    EndsBalanced(d.ends);
    var body := Tokens(d.root) + Ends(d.ends);
    BalanceAppend(d.directives, [TDocumentStart] + body);
    BalanceAppend([TDocumentStart], body);
    BalanceAppend(Tokens(d.root), Ends(d.ends));
  }

  lemma {:induction false} DocumentsBalanced(docs: Documents)
    requires GoodDocuments(docs)
    ensures Balance(DocumentsTokens(docs)) == 0 && TStreamEnd !in DocumentsTokens(docs)
  {
    if docs.Another? {
      DocumentBalanced(docs.doc);
      DocumentsBalanced(docs.more);
      BalanceAppend(DocumentTokens(docs.doc), DocumentsTokens(docs.more));
    }
  }

  // ---------------------------------------------------------------- directives

  predicate IsDirective(t: Token) { t.TVersion? || t.TTagDirective? }

  lemma {:induction false} DirectivesRead(ds: seq<Token>, c: Config, version: bool, tags: seq<Directive>,
        rest: seq<Token>)
    requires GoodDirectives(ds, version, c.dirs) && c.toks == ds + rest && rest != [] && !IsDirective(rest[0])
    ensures ReadDirectives(c, version, tags)
         == Read(version || VersionIn(ds), tags + TagsIn(ds),
                 c.(toks := rest, dirs := WithDefaults(c.dirs + TagsIn(ds))))
    decreases |ds|
  {
    hide WithDefaults, HasHandle;
    if ds == [] {
      assert c.toks == rest && tags + [] == tags && c.dirs + [] == c.dirs;
    } else {
      assert c.toks[1..] == ds[1..] + rest;
      match ds[0]
      case TVersion(_, _) =>
        DirectivesRead(ds[1..], Skip(c), true, tags, rest);
        assert [] + TagsIn(ds[1..]) == TagsIn(ds[1..]);
      case TTagDirective(d) =>
        DirectivesRead(ds[1..], Skip(c).(dirs := c.dirs + [d]), version, tags + [d], rest);
        assert VersionIn(ds) == VersionIn(ds[1..]) by { VersionTail(ds); }
        assert tags + [d] + TagsIn(ds[1..]) == tags + ([d] + TagsIn(ds[1..]));
        assert c.dirs + [d] + TagsIn(ds[1..]) == c.dirs + ([d] + TagsIn(ds[1..]));
    }
  }

  lemma VersionTail(ds: seq<Token>)
    requires ds != [] && !ds[0].TVersion?
    ensures VersionIn(ds) == VersionIn(ds[1..])
  {
    if VersionIn(ds) {
      var i :| 0 <= i < |ds| && ds[i].TVersion?;
      assert ds[1..][i - 1].TVersion?;
    }
    if VersionIn(ds[1..]) {
      var i :| 0 <= i < |ds[1..]| && ds[1..][i].TVersion?;
      assert ds[i + 1].TVersion?;
    }
  }

  /** Which runs of directives are read: declared in plain terms by `GoodDirectivesMeans`. */
  lemma {:induction false} DirectivesReadIff(ds: seq<Token>, c: Config, version: bool, tags: seq<Directive>,
        rest: seq<Token>)
    requires (forall t :: t in ds ==> IsDirective(t)) && c.toks == ds + rest && rest != [] && !IsDirective(rest[0])
    ensures ReadDirectives(c, version, tags).Read? <==> GoodDirectives(ds, version, c.dirs)
    ensures !GoodDirectives(ds, version, c.dirs) ==> ReadDirectives(c, version, tags).Bad?
    decreases |ds|
  {
    hide WithDefaults, HasHandle;
    if ds == [] {
      assert c.toks == rest;
    } else {
      assert c.toks[1..] == ds[1..] + rest && c.toks[0] == ds[0];
      assert IsDirective(ds[0]);
      if ds[0].TVersion? {
        DirectivesReadIff(ds[1..], Skip(c), true, tags, rest);
      } else {
        var d := ds[0].directive;
        DirectivesReadIff(ds[1..], Skip(c).(dirs := c.dirs + [d]), version, tags + [d], rest);
      }
    }
  }

  ghost predicate VersionsFine(ds: seq<Token>, version: bool) {
    && (forall i :: 0 <= i < |ds| && ds[i].TVersion? ==> !version && ds[i] == TVersion(1, 1))
    && (forall i, j :: 0 <= i < j < |ds| ==> !(ds[i].TVersion? && ds[j].TVersion?))
  }

  ghost predicate HandlesFine(ds: seq<Token>, dirs: seq<Directive>) {
    && (forall i :: 0 <= i < |ds| && ds[i].TTagDirective? ==> !HasHandle(dirs, ds[i].directive.handle))
    && (forall i, j :: 0 <= i < j < |ds| && ds[i].TTagDirective? && ds[j].TTagDirective? ==>
          ds[i].directive.handle != ds[j].directive.handle)
  }

  /** At most one version, which is 1.1, and no tag handle twice. */
  lemma {:induction false} GoodDirectivesMeans(ds: seq<Token>, version: bool, dirs: seq<Directive>)
    requires forall t :: t in ds ==> IsDirective(t)
    ensures GoodDirectives(ds, version, dirs) <==> VersionsFine(ds, version) && HandlesFine(ds, dirs)
    decreases |ds|
  {
    if ds != [] {
      var more := ds[1..];
      assert ds == [ds[0]] + more;
      assert IsDirective(ds[0]);
      assert forall i :: 1 <= i < |ds| ==> ds[i] == more[i - 1];
      if ds[0].TVersion? {
        GoodDirectivesMeans(more, true, dirs);
      } else {
        GoodDirectivesMeans(more, version, dirs + [ds[0].directive]);
        HandleSnoc(dirs, ds[0].directive);
      }
    }
  }

  lemma HandleSnoc(dirs: seq<Directive>, d: Directive)
    ensures forall h :: HasHandle(dirs + [d], h) <==> HasHandle(dirs, h) || d.handle == h
  {
    forall h ensures HasHandle(dirs + [d], h) <==> HasHandle(dirs, h) || d.handle == h {
      if HasHandle(dirs, h) {
        var i :| 0 <= i < |dirs| && dirs[i].handle == h;
        assert (dirs + [d])[i].handle == h;
      }
      assert (dirs + [d])[|dirs|] == d;
    }
  }

  lemma {:induction false} TagsInHas(ds: seq<Token>, h: string)
    ensures HasHandle(TagsIn(ds), h) <==> exists i :: 0 <= i < |ds| && Declares(ds[i], h)
  {
    if ds != [] {
      var more := ds[1..];
      TagsInHas(more, h);
      var first := if ds[0].TTagDirective? then [ds[0].directive] else [];
      assert TagsIn(ds) == first + TagsIn(more);
      if HasHandle(TagsIn(more), h) {
        var i :| 0 <= i < |TagsIn(more)| && TagsIn(more)[i].handle == h;
        assert TagsIn(ds)[|first| + i].handle == h;
        var j :| 0 <= j < |more| && Declares(more[j], h);
        assert ds[j + 1] == more[j];
      }
      if Declares(ds[0], h) {
        assert TagsIn(ds)[0].handle == h;
      }
      if j :| 1 <= j < |ds| && Declares(ds[j], h) {
        assert more[j - 1] == ds[j];
      }
    }
  }

  /** The handles that a document knows. */
  lemma ScopeAgrees(ds: seq<Token>)
    ensures WithDefaults(TagsIn(ds)) == Scope(ds)
  {
    hide HasHandle;
    var tags := TagsIn(ds);
    TagsInHas(ds, "!");
    TagsInHas(ds, "!!");
    HandleSnoc(tags, Directive("!", "!"));
    assert tags + [] == tags && tags + [] + [] == tags;
  }

  /** `!!x` and `!x` in a document that does not declare their handles itself. */
  lemma StandardTags(ds: seq<Token>, anchor: string, suffix: string, tagFirst: bool)
    ensures (forall i :: 0 <= i < |ds| ==> !Declares(ds[i], "!!")) ==>
      TagOf(Scope(ds), Properties(anchor, Tag("!!", suffix), tagFirst)) == Some("tag:yaml.org,2002:" + suffix)
    ensures (forall i :: 0 <= i < |ds| ==> !Declares(ds[i], "!")) ==>
      TagOf(Scope(ds), Properties(anchor, Tag("!", suffix), tagFirst)) == Some("!" + suffix)
  {
    hide HasHandle;
    var tags := TagsIn(ds);
    TagsInHas(ds, "!");
    TagsInHas(ds, "!!");
    NotAmong(tags, "!");
    NotAmong(tags, "!!");
    var bang := Default(ds, "!", "!");
    assert Scope(ds) == tags + bang + Default(ds, "!!", "tag:yaml.org,2002:");
    if forall i :: 0 <= i < |ds| ==> !Declares(ds[i], "!!") {
      assert Scope(ds)[|tags| + |bang|] == Directive("!!", "tag:yaml.org,2002:");
    }
    if forall i :: 0 <= i < |ds| ==> !Declares(ds[i], "!") {
      assert Scope(ds)[|tags|] == Directive("!", "!");
    }
  }

  lemma NotAmong(tags: seq<Directive>, h: string)
    ensures !HasHandle(tags, h) ==> forall i :: 0 <= i < |tags| ==> tags[i].handle != h
  {
  }

  lemma {:induction false} EndsSkipped(n: nat, c: Config, rest: seq<Token>)
    requires c.toks == Ends(n) + rest && rest != [] && !rest[0].TDocumentEnd?
    ensures SkipDocumentEnds(c) == c.(toks := rest)
    decreases n
  {
    if n == 0 {
      assert c.toks == rest;
    } else {
      assert c.toks[1..] == Ends(n - 1) + rest;
      EndsSkipped(n - 1, Skip(c), rest);
    }
  }

  // ---------------------------------------------------------------- documents

  /** Tokens that can follow the root of a document. */
  predicate AfterRoot(t: Token) { StartsExplicitDocument(t) || t.TDocumentEnd? || t.TStreamEnd? }

  /** A configuration inside a document, in front of its root. */
  ghost predicate AtRoot(c: Config) {
    (c.state.DocumentContent? || c.state.BlockNode?) && c.states == [DocumentEnd] && c.marks == []
  }

  lemma AtRootReady(c: Config)
    requires AtRoot(c)
    ensures Valid(c) && NodeReady(c) && SpareBelow(c) == Balance(c.toks)
    ensures forall toks: seq<Token> :: Pop(c.(toks := toks)) == Config(DocumentEnd, [], [], toks, c.dirs)
  {
    var below := c.states[..0];
    assert below == [] && c.states[|c.states| - 1] == DocumentEnd;
    assert MarkedBelow(c.states) == Marked(DocumentEnd) + MarkedBelow(below);
    assert OpenBelow(c.states) == Open(DocumentEnd) + OpenBelow(below);
  }

  lemma RootFate(n: Node, c: Config, tail: seq<Token>)
    requires AtRoot(c) && c.toks == Tokens(n) + tail && tail != [] && AfterRoot(tail[0])
    requires Balance(c.toks) == 0 && EndIsLast(c.toks)
    requires if c.state.BlockNode? then Good(n, true, false, c.dirs) else GoodOptional(n, true, false, c.dirs)
    ensures Fate(Keyed(n), c, Events(n, c.dirs), Config(DocumentEnd, [], [], tail, c.dirs))
  {
    hide ParseNode, Good, Fate, ResultFate, Valid, ValidStack, MarkedBelow, OpenBelow, Balance, NodeReady;
    AtRootReady(c);
    var last := Config(DocumentEnd, [], [], tail, c.dirs);
    if n.Absent? {
      AbsentIsNotGood(c.dirs);
      AbsentRoot(c, tail);
    } else {
      NodeFate(n, c, true, false, tail);
      FirstToken(n, true, false, c.dirs);
      RootStep(c);
      FirstFate(Keyed(n), c, Events(n, c.dirs), last);
    }
  }

  lemma AbsentIsNotGood(dirs: seq<Directive>)
    ensures !Good(Absent, true, false, dirs)
  {
  }

  lemma RootStep(c: Config)
    requires AtRoot(c) && c.toks != [] && !Closer(c.toks[0])
    ensures Valid(c) && !c.state.End? && NodeReady(c) && Step(c) == ParseNode(c, true, false)
  {
    hide ParseNode;
    AtRootReady(c);
  }

  lemma AbsentRoot(c: Config, tail: seq<Token>)
    requires AtRoot(c) && c.state.DocumentContent? && c.toks == Tokens(Absent) + tail && tail != []
    requires AfterRoot(tail[0])
    ensures Fate(Keyed(Absent), c, Events(Absent, c.dirs), Config(DocumentEnd, [], [], tail, c.dirs))
  {
    AtRootReady(c);
    assert c.toks == tail;
    assert Step(c) == Emit(EmptyScalar, Pop(c.(toks := tail)));
  }

  function Fewer(ends: nat): nat { if ends == 0 then 0 else ends - 1 }

  lemma EndStep(ends: nat, dirs: seq<Directive>, tail: seq<Token>)
    requires tail != [] && !tail[0].TDocumentEnd?
    ensures Fate(true, Config(DocumentEnd, [], [], Ends(ends) + tail, dirs), [EDocumentEnd(ends == 0)],
                 Config(DocumentStart, [], [], Ends(Fewer(ends)) + tail, []))
  {
    var c := Config(DocumentEnd, [], [], Ends(ends) + tail, dirs);
    if ends == 0 {
      assert c.toks == tail;
    } else {
      assert c.toks[1..] == Ends(ends - 1) + tail;
    }
    assert Step(c) == Emit(EDocumentEnd(ends == 0), Config(DocumentStart, [], [], Ends(Fewer(ends)) + tail, []));
  }

  /** From the root of a document to the start of the next. */
  lemma BodyFate(n: Node, c: Config, ends: nat, tail: seq<Token>)
    requires AtRoot(c) && c.toks == Tokens(n) + (Ends(ends) + tail) && tail != [] && AfterRoot(tail[0])
    requires !tail[0].TDocumentEnd?
    requires Balance(c.toks) == 0 && EndIsLast(c.toks)
    requires if c.state.BlockNode? then Good(n, true, false, c.dirs) else GoodOptional(n, true, false, c.dirs)
    ensures Fate(Keyed(n), c, Events(n, c.dirs) + [EDocumentEnd(ends == 0)],
                 Config(DocumentStart, [], [], Ends(Fewer(ends)) + tail, []))
  {
    hide Fate, Good, GoodOptional, Balance, AtRoot, Keyed;
    var t := Ends(ends) + tail;
    assert t[0] == if ends == 0 then tail[0] else TDocumentEnd;
    RootFate(n, c, t);
    EndStep(ends, c.dirs, tail);
    ThenFate(Keyed(n), c, Events(n, c.dirs), Config(DocumentEnd, [], [], t, c.dirs), true, [EDocumentEnd(ends == 0)],
             Config(DocumentStart, [], [], Ends(Fewer(ends)) + tail, []));
  }

  const Finished := Config(End, [], [], [], [])

  /** Between two documents. */
  ghost predicate Between(c: Config) {
    (c.state.ImplicitDocumentStart? || c.state.DocumentStart?) && c.states == [] && c.marks == [] && c.dirs == []
  }

  lemma ExplicitStart(d: Document, c: Config, skipped: nat, tail: seq<Token>)
    requires Between(c) && (c.state.ImplicitDocumentStart? ==> skipped == 0) && GoodDirectives(d.directives, false, [])
    requires c.toks == Ends(skipped) + (DocumentTokens(d) + tail)
    ensures Valid(c)
    ensures Step(c) == Emit(EDocumentStart(VersionIn(d.directives), TagsIn(d.directives)),
                            Config(DocumentContent, [DocumentEnd], [], Tokens(d.root) + (Ends(d.ends) + tail),
                                Scope(d.directives)))
  {
    hide ReadDirectives, SkipDocumentEnds, VersionIn, TagsIn, WithDefaults, Scope, OpenDocument, Tokens;
    var ds, rest := d.directives, [TDocumentStart] + (Tokens(d.root) + (Ends(d.ends) + tail));
    var all := ds + rest;
    assert DocumentTokens(d) + tail == all;
    assert all[0] == if ds == [] then TDocumentStart else ds[0];
    assert ds != [] ==> IsDirective(ds[0]);
    EndsSkipped(skipped, c, all);
    assert skipped == 0 ==> c.toks == all;
    assert Step(c) == OpenDocument(c.(toks := all), c.state.ImplicitDocumentStart?);
    assert rest[1..] == Tokens(d.root) + (Ends(d.ends) + tail);
    DocumentOpens(ds, c.(toks := all), rest);
  }

  /** A document with an explicit start. */
  lemma DocumentOpens(ds: seq<Token>, c: Config, rest: seq<Token>)
    requires Between(c) && GoodDirectives(ds, false, []) && c.toks == ds + rest && rest != [] && rest[0].TDocumentStart?
    requires c.toks[0] == (if ds == [] then TDocumentStart else ds[0]) && (ds != [] ==> IsDirective(ds[0]))
    ensures OpenDocument(c, c.state.ImplicitDocumentStart?) == Emit(EDocumentStart(VersionIn(ds), TagsIn(ds)),
                            Config(DocumentContent, [DocumentEnd], [], rest[1..], Scope(ds)))
  {
    hide ReadDirectives, VersionIn, TagsIn, WithDefaults, Scope;
    DirectivesRead(ds, c, false, [], rest);
    ScopeAgrees(ds);
    assert [] + TagsIn(ds) == TagsIn(ds);
  }

  lemma StreamEnds(c: Config, skipped: nat)
    requires Between(c) && (c.state.ImplicitDocumentStart? ==> skipped == 0) && c.toks == Ends(skipped) + [TStreamEnd]
    ensures Fate(true, c, [EStreamEnd], Finished)
  {
    EndsSkipped(skipped, c, [TStreamEnd]);
    assert skipped == 0 ==> c.toks == [TStreamEnd];
    assert Step(c) == Emit(EStreamEnd, Finished);
  }

  lemma {:induction false} DocumentsFate(docs: Documents, c: Config, skipped: nat)
    requires Between(c) && (c.state.ImplicitDocumentStart? ==> skipped == 0) && GoodDocuments(docs)
    requires c.toks == Ends(skipped) + (DocumentsTokens(docs) + [TStreamEnd]) && EndIsLast(c.toks)
    ensures Fate(KeyedDocuments(docs), c, DocumentsEvents(docs) + [EStreamEnd], Finished)
    decreases docs
  {
    hide Fate, ResultFate, Good, GoodOptional, Keyed, Step, Balance, DocumentTokens, GoodDirectives, EndIsLast;
    match docs
    case NoDocument =>
      assert [] + [TStreamEnd] == [TStreamEnd] && [] + [EStreamEnd] == [EStreamEnd];
      StreamEnds(c, skipped);
    case Another(d, more) =>
      var tail := DocumentsTokens(more) + [TStreamEnd];
      var root := Config(DocumentContent, [DocumentEnd], [], Tokens(d.root) + (Ends(d.ends) + tail),
            Scope(d.directives));
      var next := Config(DocumentStart, [], [], Ends(Fewer(d.ends)) + tail, []);
      assert DocumentsTokens(docs) + [TStreamEnd] == DocumentTokens(d) + tail;
      ExplicitStart(d, c, skipped, tail);
      DocumentParts(d, more, tail);
      BodyFate(d.root, root, d.ends, tail);
      var start := EDocumentStart(VersionIn(d.directives), TagsIn(d.directives));
      var body := Events(d.root, Scope(d.directives)) + [EDocumentEnd(d.ends == 0)];
      EmitFate(Keyed(d.root), start, root, body, next);
      FirstFate(Keyed(d.root), c, [start] + body, next);
      DocumentsFate(more, next, Fewer(d.ends));
      ThenFate(Keyed(d.root), c, [start] + body, next, KeyedDocuments(more), DocumentsEvents(more) + [EStreamEnd],
            Finished);
      assert [start] + body + (DocumentsEvents(more) + [EStreamEnd]) == DocumentsEvents(docs) + [EStreamEnd];
  }

  /** What the tokens after a document are like. */
  lemma TailFacts(more: Documents)
    requires GoodDocuments(more)
    ensures var tail := DocumentsTokens(more) + [TStreamEnd];
            && AfterRoot(tail[0]) && !tail[0].TDocumentEnd?
            && Balance(tail) == 0 && TStreamEnd !in DocumentsTokens(more)
  {
    DocumentsBalanced(more);
    BalanceAppend(DocumentsTokens(more), [TStreamEnd]);
    if more.Another? {
      var ds := more.doc.directives;
      assert DocumentsTokens(more)[0] == if ds == [] then TDocumentStart else ds[0];
    }
  }

  /** Only the last of these tokens ends the stream. */
  lemma OneEnd(a: seq<Token>, b: seq<Token>)
    requires TStreamEnd !in a && TStreamEnd !in b
    ensures EndIsLast(a + (b + [TStreamEnd]))
  {
    var s := a + (b + [TStreamEnd]);
    forall i | 0 <= i < |s| - 1 ensures !s[i].TStreamEnd? {
      if i < |a| {
        assert s[i] == a[i];
      } else {
        assert s[i] == b[i - |a|];
      }
    }
  }

  lemma DocumentParts(d: Document, more: Documents, tail: seq<Token>)
    requires GoodDirectives(d.directives, false, []) && GoodDocuments(more)
    requires tail == DocumentsTokens(more) + [TStreamEnd]
    ensures tail != [] && AfterRoot(tail[0]) && !tail[0].TDocumentEnd?
    ensures var toks := Tokens(d.root) + (Ends(d.ends) + tail); Balance(toks) == 0 && EndIsLast(toks)
    ensures EndIsLast(Ends(Fewer(d.ends)) + tail)
  {
    hide EndIsLast, Tokens, DocumentsTokens, Ends, Balance, GoodDirectives, GoodDocuments;
    TailFacts(more);
    NodeBalanced(d.root);
    NodeHasNoEnd(d.root);
    EndsBalanced(d.ends);
    EndsBalanced(Fewer(d.ends));
    BalanceAppend(Tokens(d.root), Ends(d.ends) + tail);
    BalanceAppend(Ends(d.ends), tail);
    OneEnd(Tokens(d.root) + Ends(d.ends), DocumentsTokens(more));
    assert Tokens(d.root) + Ends(d.ends) + tail == Tokens(d.root) + (Ends(d.ends) + tail);
    OneEnd(Ends(Fewer(d.ends)), DocumentsTokens(more));
  }

  // ---------------------------------------------------------------- streams

  lemma StreamFate(s: Stream)
    requires GoodStream(s)
    ensures Fate(KeyedStream(s), Initial(StreamTokens(s)), StreamEvents(s), Finished)
  {
    hide Fate, ResultFate, Good, Keyed, DocumentsTokens, DocumentsEvents, EndIsLast, ImplicitTokens, Balance;
    var c, docs := Initial(StreamTokens(s)), DocumentsTokens(s.documents) + [TStreamEnd];
    var next := Config(ImplicitDocumentStart, [], [], ImplicitTokens(s.implicit) + docs, []);
    assert c.toks[1..] == next.toks;
    assert Step(c) == Emit(EStreamStart, next);
    var events := ImplicitEvents(s.implicit) + (DocumentsEvents(s.documents) + [EStreamEnd]);
    if s.implicit.NoImplicit? {
      NoImplicitFate(s, next);
    } else {
      ImplicitFate(s, next);
    }
    EmitFate(KeyedStream(s), EStreamStart, next, events, Finished);
    FirstFate(KeyedStream(s), c, StreamEvents(s), Finished);
  }

  lemma NoImplicitFate(s: Stream, c: Config)
    requires GoodStream(s) && s.implicit.NoImplicit?
    requires c == Config(ImplicitDocumentStart, [], [],
        ImplicitTokens(s.implicit) + (DocumentsTokens(s.documents) + [TStreamEnd]), [])
    ensures Fate(KeyedStream(s), c, ImplicitEvents(s.implicit) + (DocumentsEvents(s.documents) + [EStreamEnd]),
        Finished)
  {
    hide Fate, DocumentsTokens, DocumentsEvents, EndIsLast;
    DocumentsBalanced(s.documents);
    assert Ends(0) == [];
    OneEnd(Ends(0), DocumentsTokens(s.documents));
    DocumentsFate(s.documents, c, 0);
    var events := DocumentsEvents(s.documents) + [EStreamEnd];
    assert [] + events == events;
  }

  lemma ImplicitFate(s: Stream, c: Config)
    requires GoodStream(s) && s.implicit.Implicit?
    requires c == Config(ImplicitDocumentStart, [], [],
        ImplicitTokens(s.implicit) + (DocumentsTokens(s.documents) + [TStreamEnd]), [])
    ensures Fate(KeyedStream(s), c, ImplicitEvents(s.implicit) + (DocumentsEvents(s.documents) + [EStreamEnd]),
        Finished)
  {
    hide Fate, DocumentsTokens, DocumentsEvents, EndIsLast, Good, Keyed, Balance, GoodDocuments;
    hide ImplicitTokens, ImplicitEvents;
    var n, ends, tail := s.implicit.root, s.implicit.ends, DocumentsTokens(s.documents) + [TStreamEnd];
    var next := Config(DocumentStart, [], [], Ends(Fewer(ends)) + tail, []);
    ImplicitDocument(s.implicit, s.documents, c, tail);
    DocumentsFate(s.documents, next, Fewer(ends));
    ThenFate(Keyed(n), c, ImplicitEvents(s.implicit), next, KeyedDocuments(s.documents),
          DocumentsEvents(s.documents) + [EStreamEnd], Finished);
  }

  lemma ImplicitDocument(i: Implicit, more: Documents, c: Config, tail: seq<Token>)
    requires i.Implicit? && Good(i.root, true, false, Scope([])) && GoodDocuments(more)
    requires tail == DocumentsTokens(more) + [TStreamEnd]
    requires c == Config(ImplicitDocumentStart, [], [], ImplicitTokens(i) + tail, [])
    ensures EndIsLast(Ends(Fewer(i.ends)) + tail)
    ensures Fate(Keyed(i.root), c, ImplicitEvents(i), Config(DocumentStart, [], [], Ends(Fewer(i.ends)) + tail, []))
  {
    hide Fate, ResultFate, DocumentsTokens, EndIsLast, Good, Keyed, Balance, Step, GoodDocuments, Events, Tokens, Valid;
    var n, ends := i.root, i.ends;
    var root := Config(BlockNode, [DocumentEnd], [], Tokens(n) + (Ends(ends) + tail), Scope([]));
    var next := Config(DocumentStart, [], [], Ends(Fewer(ends)) + tail, []);
    assert c.toks == root.toks;
    ImplicitStart(n, c, root);
    DocumentParts(Document([], n, ends), more, tail);
    BodyFate(n, root, ends, tail);
    var start, body := EDocumentStart(false, []), Events(n, Scope([])) + [EDocumentEnd(ends == 0)];
    EmitFate(Keyed(n), start, root, body, next);
    FirstFate(Keyed(n), c, [start] + body, next);
  }

  lemma ImplicitStart(n: Node, c: Config, root: Config)
    requires Good(n, true, false, Scope([])) && c.toks == root.toks
    requires c == Config(ImplicitDocumentStart, [], [], c.toks, [])
    requires Tokens(n) <= c.toks && root == Config(BlockNode, [DocumentEnd], [], c.toks, Scope([]))
    ensures Valid(c) && Step(c) == Emit(EDocumentStart(false, []), root)
  {
    hide WithDefaults, Good, Scope;
    FirstToken(n, true, false, Scope([]));
    ScopeAgrees([]);
    assert c.toks[0] == Tokens(n)[0];
    assert TagsIn([]) == [];
  }

  /** A run that leads somewhere, as `Run` counts it. */
  lemma {:induction false} LeadsRuns(c: Config, events: seq<Event>, d: Config)
    requires Leads(c, events, d) && Valid(c) && d.state.End?
    ensures Run(c, |events|) == (events, d)
    decreases |events|
  {
    hide Step, Valid;
    if events != [] {
      StepFollows(c);
      LeadsRuns(Step(c).next, events[1..], d);
      assert events == [events[0]] + events[1..];
    }
  }

  /** The events of a parse that goes as far as it can, and where it stops. */
  ghost function Whole(toks: seq<Token>): (seq<Event>, Config) {
    Run(Initial(toks), Stock(Initial(toks)))
  }

  /** The parse ends in an error. */
  ghost predicate Refused(toks: seq<Token>) {
    var last := Whole(toks).1;
    Valid(last) && !last.state.End? && Step(last).Failed?
  }

  lemma WholeStops(toks: seq<Token>)
    ensures Valid(Whole(toks).1) && Stopped(Whole(toks).1)
    ensures EndAhead(toks) ==> Whole(toks).1.state.End? || Step(Whole(toks).1).Failed?
  {
    hide Run, Step, Stock, Stopped, EndAhead;
    RunStops(Initial(toks), Stock(Initial(toks)));
  }

  /** A run that has stopped is the same however many steps it was allowed. */
  lemma {:induction false} StoppedRunsAgree(c: Config, m: nat, n: nat)
    requires Valid(c) && Valid(Run(c, m).1) && Valid(Run(c, n).1) && Stopped(Run(c, m).1) && Stopped(Run(c, n).1)
    ensures Run(c, m) == Run(c, n)
    decreases m
  {
    hide Step, Valid;
    if m > 0 && n > 0 && !c.state.End? && Step(c).Emit? {
      StepFollows(c);
      StoppedRunsAgree(Step(c).next, m - 1, n - 1);
    }
  }

  /**
   The parser reads the tokens of a stream of the documented grammar, emits exactly its events and
   finishes, if and only if every entry of a block mapping has its KEY and no pair with an empty key
   makes it skip a token that it needs; otherwise it stops with an error.
   */
  lemma StreamParsesIffKeyed(s: Stream)
    requires GoodStream(s)
    ensures KeyedStream(s) ==> Whole(StreamTokens(s)) == (StreamEvents(s), Finished)
    ensures !KeyedStream(s) ==> Refused(StreamTokens(s))
  {
    hide Leads, StreamEvents, StreamTokens, KeyedStream, GoodStream, Run, Stock, Step;
    var toks := StreamTokens(s);
    StreamFate(s);
    WholeStops(toks);
    if KeyedStream(s) {
      LeadsRuns(Initial(toks), StreamEvents(s), Finished);
      StoppedRunsAgree(Initial(toks), |StreamEvents(s)|, Stock(Initial(toks)));
    } else {
      StreamEndIsAhead(s);
    }
  }

  lemma StreamEndIsAhead(s: Stream)
    ensures EndAhead(StreamTokens(s))
  {
    hide ImplicitTokens, DocumentsTokens;
  }

  // ---------------------------------------------------------------- where code and grammar part

  /** A stream of one document without `---`. */
  function OneNode(n: Node): Stream { Stream(Implicit(n, 0), NoDocument) }

  lemma OneNodeTokens(n: Node)
    ensures StreamTokens(OneNode(n)) == [TStreamStart] + Tokens(n) + [TStreamEnd]
    ensures GoodStream(OneNode(n)) <==> Good(n, true, false, Scope([]))
    ensures KeyedStream(OneNode(n)) <==> Keyed(n)
  {
    hide Tokens, Good, Keyed;
  }

  const NO_PROPS := Properties("", NoTag, false)
  const X := Atom(NO_PROPS, "x", Plain)

  /** A block mapping with a value and no key. */
  const KEYLESS := BlockMapping(NO_PROPS, Keyless(X, NoEntry))

  /** A flow sequence of one pair with no key. */
  const EMPTY_KEY := FlowSequence(NO_PROPS, More(Pair(Absent, HasValue(X)), false, NoPart))

  lemma KeylessNode()
    ensures Tokens(KEYLESS) == [TBlockMappingStart, TValue, TScalar("x", Plain), TBlockEnd]
    ensures Good(KEYLESS, true, false, Scope([])) && !Keyed(KEYLESS)
  {
    hide Scope;
    assert EntryTokens(Keyless(X, NoEntry)) == [TValue, TScalar("x", Plain)];
  }

  lemma EmptyKeyNode()
    ensures Tokens(EMPTY_KEY) == [TFlowSequenceStart, TKey, TValue, TScalar("x", Plain), TFlowSequenceEnd]
    ensures Good(EMPTY_KEY, true, false, Scope([])) && !Keyed(EMPTY_KEY)
  {
    hide Scope;
    assert OnePartTokens(Pair(Absent, HasValue(X))) == [TKey, TValue, TScalar("x", Plain)];
  }

  /** The grammar derives `: x`, and the parser refuses it. */
  lemma KeylessRefused()
    ensures var s := OneNode(KEYLESS);
      && StreamTokens(s) == [TStreamStart, TBlockMappingStart, TValue, TScalar("x", Plain), TBlockEnd, TStreamEnd]
      && GoodStream(s) && Refused(StreamTokens(s))
  {
    hide *;
    KeylessNode();
    OneNodeTokens(KEYLESS);
    StreamParsesIffKeyed(OneNode(KEYLESS));
  }

  /** The grammar derives `[? : x]`, and the parser refuses it. */
  lemma EmptyKeyRefused()
    ensures var s := OneNode(EMPTY_KEY);
      && StreamTokens(s)
         == [TStreamStart, TFlowSequenceStart, TKey, TValue, TScalar("x", Plain), TFlowSequenceEnd, TStreamEnd]
      && GoodStream(s) && Refused(StreamTokens(s))
  {
    hide *;
    EmptyKeyNode();
    OneNodeTokens(EMPTY_KEY);
    StreamParsesIffKeyed(OneNode(EMPTY_KEY));
  }
}
