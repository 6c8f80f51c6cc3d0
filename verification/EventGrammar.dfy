/**
 The event grammar that the YAML parser produces and the YAML emitter consumes:

   stream   ::= STREAM-START document* STREAM-END
   document ::= DOCUMENT-START node DOCUMENT-END
   node     ::= ALIAS | SCALAR | SEQUENCE-START node* SEQUENCE-END | MAPPING-START (node node)* MAPPING-END

 It is given twice, as trees that are flattened and as a stack automaton, and the two are
 proved to describe the same event streams and the same prefixes.
 */
module EventGrammar {

  datatype Kind =
    | StreamStart | StreamEnd | DocumentStart | DocumentEnd | Atom
    | SequenceStart | SequenceEnd | MappingStart | MappingEnd

  // ---------------------------------------------------------------- trees

  datatype Node = Leaf | Sequence(items: Items) | Mapping(entries: Entries)
  datatype Items = NoItem | Item(node: Node, more: Items)
  datatype Entries = NoEntry | Entry(key: Node, value: Node, more: Entries)

  function NodeKinds(n: Node): (s: seq<Kind>)
    ensures s != []
  {
    match n
    case Leaf => [Atom]
    case Sequence(items) => [SequenceStart] + ItemKinds(items) + [SequenceEnd]
    case Mapping(entries) => [MappingStart] + EntryKinds(entries) + [MappingEnd]
  }

  function ItemKinds(items: Items): seq<Kind> {
    match items
    case NoItem => []
    case Item(n, more) => NodeKinds(n) + ItemKinds(more)
  }

  function EntryKinds(entries: Entries): seq<Kind> {
    match entries
    case NoEntry => []
    case Entry(k, v, more) => NodeKinds(k) + NodeKinds(v) + EntryKinds(more)
  }

  function DocumentKinds(docs: Items): seq<Kind> {
    match docs
    case NoItem => []
    case Item(n, more) => [DocumentStart] + NodeKinds(n) + [DocumentEnd] + DocumentKinds(more)
  }

  function StreamKinds(docs: Items): seq<Kind> {
    [StreamStart] + DocumentKinds(docs) + [StreamEnd]
  }

  // ---------------------------------------------------------------- automaton

  /** What is still to come, innermost first. */
  datatype Need = Stream | Documents | Root | RootEnd | ItemOrEnd | KeyOrEnd | Value
  datatype Needs = Nothing | Then(need: Need, rest: Needs)

  datatype Verdict = Reject | Accept(rest: Needs)

  predicate StartsNode(k: Kind) { k.Atom? || k.SequenceStart? || k.MappingStart? }

  /** A node of kind `k` begins where `rest` comes after the node. */
  function BeginNode(k: Kind, rest: Needs): Needs
    requires StartsNode(k)
  {
    match k
    case Atom => rest
    case SequenceStart => Then(ItemOrEnd, rest)
    case MappingStart => Then(KeyOrEnd, rest)
  }

  function Take(needs: Needs, k: Kind): Verdict {
    match needs
    case Nothing => Reject
    case Then(need, rest) =>
      match need
      case Stream => if k.StreamStart? then Accept(Then(Documents, rest)) else Reject
      case Documents =>
        if k.DocumentStart? then Accept(Then(Root, Then(RootEnd, needs)))
        else if k.StreamEnd? then Accept(rest) else Reject
      case Root => if StartsNode(k) then Accept(BeginNode(k, rest)) else Reject
      case RootEnd => if k.DocumentEnd? then Accept(rest) else Reject
      case ItemOrEnd =>
        if k.SequenceEnd? then Accept(rest)
        else if StartsNode(k) then Accept(BeginNode(k, needs)) else Reject
      case KeyOrEnd =>
        if k.MappingEnd? then Accept(rest)
        else if StartsNode(k) then Accept(BeginNode(k, Then(Value, rest))) else Reject
      case Value => if StartsNode(k) then Accept(BeginNode(k, Then(KeyOrEnd, rest))) else Reject
  }

  function TakeAll(needs: Needs, ks: seq<Kind>): Verdict
    decreases |ks|
  {
    if ks == [] then Accept(needs)
    else
      match Take(needs, ks[0])
      case Reject => Reject
      case Accept(rest) => TakeAll(rest, ks[1..])
  }

  const Start := Then(Stream, Nothing)

  lemma {:induction false} TakeAllAppend(needs: Needs, a: seq<Kind>, b: seq<Kind>)
    ensures TakeAll(needs, a + b) == match TakeAll(needs, a) case Reject => Reject case Accept(rest) => TakeAll(rest, b)
    decreases |a|
  {
    if a == [] {
      assert a + b == b;
    } else {
      assert (a + b)[1..] == a[1..] + b;
      match Take(needs, a[0])
      case Reject =>
      case Accept(rest) => TakeAllAppend(rest, a[1..], b);
    }
  }

  // ---------------------------------------------------------------- trees are accepted

  /** A whole node satisfies a need for a node, whatever the need is called. */
  ghost predicate WantsNode(needs: Needs) {
    needs.Then? && (needs.need.Root? || needs.need.ItemOrEnd? || needs.need.KeyOrEnd? || needs.need.Value?)
  }

  ghost function AfterNode(needs: Needs): Needs
    requires WantsNode(needs)
  {
    match needs.need
    case Root => needs.rest
    case ItemOrEnd => needs
    case KeyOrEnd => Then(Value, needs.rest)
    case _ => Then(KeyOrEnd, needs.rest)
  }

  lemma TakeNodeStart(needs: Needs, k: Kind)
    requires WantsNode(needs) && StartsNode(k)
    ensures Take(needs, k) == Accept(BeginNode(k, AfterNode(needs)))
  {
  }

  lemma {:induction false} NodeAccepted(n: Node, needs: Needs, after: seq<Kind>)
    requires WantsNode(needs)
    ensures TakeAll(needs, NodeKinds(n) + after) == TakeAll(AfterNode(needs), after)
    decreases n
  {
    var ks, rest := NodeKinds(n) + after, AfterNode(needs);
    TakeNodeStart(needs, ks[0]);
    match n
    case Leaf =>
      assert ks[1..] == after;
    case Sequence(items) =>
      assert ks[1..] == ItemKinds(items) + ([SequenceEnd] + after);
      ItemsAccepted(items, rest, after);
    case Mapping(entries) =>
      assert ks[1..] == EntryKinds(entries) + ([MappingEnd] + after);
      EntriesAccepted(entries, rest, after);
  }

  lemma {:induction false} ItemsAccepted(items: Items, rest: Needs, after: seq<Kind>)
    ensures TakeAll(Then(ItemOrEnd, rest), ItemKinds(items) + ([SequenceEnd] + after)) == TakeAll(rest, after)
    decreases items
  {
    var needs := Then(ItemOrEnd, rest);
    match items
    case NoItem =>
      assert [] + ([SequenceEnd] + after) == [SequenceEnd] + after;
      assert ([SequenceEnd] + after)[1..] == after;
    case Item(n, more) =>
      assert ItemKinds(items) + ([SequenceEnd] + after) == NodeKinds(n) + (ItemKinds(more) + ([SequenceEnd] + after));
      NodeAccepted(n, needs, ItemKinds(more) + ([SequenceEnd] + after));
      ItemsAccepted(more, rest, after);
  }

  lemma {:induction false} EntriesAccepted(entries: Entries, rest: Needs, after: seq<Kind>)
    ensures TakeAll(Then(KeyOrEnd, rest), EntryKinds(entries) + ([MappingEnd] + after)) == TakeAll(rest, after)
    decreases entries
  {
    var needs := Then(KeyOrEnd, rest);
    match entries
    case NoEntry =>
      assert [] + ([MappingEnd] + after) == [MappingEnd] + after;
      assert ([MappingEnd] + after)[1..] == after;
    case Entry(k, v, more) =>
      var tail := EntryKinds(more) + ([MappingEnd] + after);
      assert EntryKinds(entries) + ([MappingEnd] + after) == NodeKinds(k) + (NodeKinds(v) + tail);
      NodeAccepted(k, needs, NodeKinds(v) + tail);
      NodeAccepted(v, Then(Value, rest), tail);
      EntriesAccepted(more, rest, after);
  }

  lemma {:induction false} DocumentsAccepted(docs: Items)
    ensures TakeAll(Then(Documents, Nothing), DocumentKinds(docs) + [StreamEnd]) == Accept(Nothing)
  {
    match docs
    case NoItem =>
      assert [] + [StreamEnd] == [StreamEnd];
    case Item(n, more) =>
      var tail := DocumentKinds(more) + [StreamEnd];
      var ks := [DocumentStart] + (NodeKinds(n) + ([DocumentEnd] + tail));
      assert DocumentKinds(docs) + [StreamEnd] == ks;
      assert ks[1..] == NodeKinds(n) + ([DocumentEnd] + tail);
      NodeAccepted(n, Then(Root, Then(RootEnd, Then(Documents, Nothing))), [DocumentEnd] + tail);
      assert ([DocumentEnd] + tail)[1..] == tail;
      DocumentsAccepted(more);
  }

  lemma StreamAccepted(docs: Items)
    ensures TakeAll(Start, StreamKinds(docs)) == Accept(Nothing)
  {
    var ks := StreamKinds(docs);
    assert ks[1..] == DocumentKinds(docs) + [StreamEnd];
    DocumentsAccepted(docs);
  }

  // ---------------------------------------------------------------- accepted streams are trees

  lemma Regroup(a: seq<Kind>, b: seq<Kind>, c: seq<Kind>, d: seq<Kind>)
    ensures a + (b + c + d) == a + b + c + d
  {
  }

  lemma {:induction false} NodeFound(needs: Needs, ks: seq<Kind>) returns (n: Node, after: seq<Kind>)
    requires WantsNode(needs) && ks != [] && StartsNode(ks[0]) && TakeAll(needs, ks) == Accept(Nothing)
    ensures ks == NodeKinds(n) + after && TakeAll(AfterNode(needs), after) == Accept(Nothing)
    decreases |ks|, 1
  {
    var rest := AfterNode(needs);
    TakeNodeStart(needs, ks[0]);
    match ks[0]
    case Atom =>
      n, after := Leaf, ks[1..];
    case SequenceStart =>
      var items;
      items, after := ItemsFound(rest, ks[1..]);
      n := Sequence(items);
      assert ks == [ks[0]] + ks[1..];
    case MappingStart =>
      var entries;
      entries, after := EntriesFound(rest, ks[1..]);
      n := Mapping(entries);
      assert ks == [ks[0]] + ks[1..];
  }

  lemma {:induction false} ItemsFound(rest: Needs, ks: seq<Kind>) returns (items: Items, after: seq<Kind>)
    requires TakeAll(Then(ItemOrEnd, rest), ks) == Accept(Nothing)
    ensures ks == ItemKinds(items) + [SequenceEnd] + after && TakeAll(rest, after) == Accept(Nothing)
    decreases |ks|, 2
  {
    var needs := Then(ItemOrEnd, rest);
    if ks[0].SequenceEnd? {
      items, after := NoItem, ks[1..];
      assert ks == [] + [SequenceEnd] + ks[1..];
    } else {
      hide TakeAll, NodeKinds;
      var n, tail := NodeFound(needs, ks);
      var more;
      more, after := ItemsFound(rest, tail);
      items := Item(n, more);
      Regroup(NodeKinds(n), ItemKinds(more), [SequenceEnd], after);
    }
  }

  lemma {:induction false} EntriesFound(rest: Needs, ks: seq<Kind>) returns (entries: Entries, after: seq<Kind>)
    requires TakeAll(Then(KeyOrEnd, rest), ks) == Accept(Nothing)
    ensures ks == EntryKinds(entries) + [MappingEnd] + after && TakeAll(rest, after) == Accept(Nothing)
    decreases |ks|, 3
  {
    var needs := Then(KeyOrEnd, rest);
    if ks[0].MappingEnd? {
      entries, after := NoEntry, ks[1..];
      assert ks == [] + [MappingEnd] + ks[1..];
    } else {
      hide TakeAll, NodeKinds;
      var k, v, tail := PairFound(rest, ks);
      var more;
      more, after := EntriesFound(rest, tail);
      entries := Entry(k, v, more);
      Regroup(NodeKinds(k) + NodeKinds(v), EntryKinds(more), [MappingEnd], after);
    }
  }

  lemma {:induction false} PairFound(rest: Needs, ks: seq<Kind>) returns (k: Node, v: Node, after: seq<Kind>)
    requires TakeAll(Then(KeyOrEnd, rest), ks) == Accept(Nothing) && ks != [] && !ks[0].MappingEnd?
    ensures ks == NodeKinds(k) + NodeKinds(v) + after && TakeAll(Then(KeyOrEnd, rest), after) == Accept(Nothing)
    decreases |ks|, 2
  {
    var needs := Then(KeyOrEnd, rest);
    var tail;
    k, tail := NodeFound(needs, ks);
    v, after := NodeFound(Then(Value, rest), tail);
  }

  lemma {:induction false} DocumentsFound(ks: seq<Kind>) returns (docs: Items)
    requires TakeAll(Then(Documents, Nothing), ks) == Accept(Nothing)
    ensures ks == DocumentKinds(docs) + [StreamEnd]
    decreases |ks|
  {
    if ks[0].StreamEnd? {
      docs := NoItem;
      assert ks[1..] == [] && ks == [StreamEnd];
    } else {
      var needs := Then(Root, Then(RootEnd, Then(Documents, Nothing)));
      var n, tail := NodeFound(needs, ks[1..]);
      var more := DocumentsFound(tail[1..]);
      docs := Item(n, more);
      assert tail == [DocumentEnd] + tail[1..];
      assert ks == [DocumentStart] + ks[1..];
    }
  }

  /** The automaton accepts exactly the flattened streams. */
  lemma AcceptedIffStream(ks: seq<Kind>)
    ensures TakeAll(Start, ks) == Accept(Nothing) <==> exists docs :: ks == StreamKinds(docs)
  {
    if TakeAll(Start, ks) == Accept(Nothing) {
      var docs := DocumentsFound(ks[1..]);
      assert ks == [StreamStart] + ks[1..];
      assert ks == StreamKinds(docs);
    }
    if docs :| ks == StreamKinds(docs) {
      StreamAccepted(docs);
    }
  }

  // ---------------------------------------------------------------- prefixes

  /** A shortest way to finish. */
  ghost function Finish(needs: Needs): seq<Kind> {
    match needs
    case Nothing => []
    case Then(need, rest) =>
      (match need
       case Stream => [StreamStart, StreamEnd]
       case Documents => [StreamEnd]
       case Root => [Atom]
       case RootEnd => [DocumentEnd]
       case ItemOrEnd => [SequenceEnd]
       case KeyOrEnd => [MappingEnd]
       case Value => [Atom, MappingEnd]) + Finish(rest)
  }

  lemma {:induction false} Finishes(needs: Needs)
    ensures TakeAll(needs, Finish(needs)) == Accept(Nothing)
  {
    match needs
    case Nothing =>
    case Then(need, rest) =>
      var ks := Finish(needs);
      Finishes(rest);
      if need.Stream? || need.Value? {
        assert ks[1..][1..] == Finish(rest);
      } else {
        assert ks[1..] == Finish(rest);
      }
  }

  /** The automaton survives exactly the prefixes of flattened streams. */
  lemma ViableIffPrefix(ks: seq<Kind>)
    ensures TakeAll(Start, ks).Accept? <==> exists docs, more :: ks + more == StreamKinds(docs)
  {
    if TakeAll(Start, ks).Accept? {
      var needs := TakeAll(Start, ks).rest;
      Finishes(needs);
      TakeAllAppend(Start, ks, Finish(needs));
      AcceptedIffStream(ks + Finish(needs));
    }
    if docs, more :| ks + more == StreamKinds(docs) {
      StreamAccepted(docs);
      TakeAllAppend(Start, ks, more);
    }
  }
}
