/** The builder that turns one document's events into a node graph. */
module NodeBuilder {
  import opened Options
  import opened NodeGraph
  import G = EventGrammar

  /** An empty anchor is none. */
  datatype Event =
    | ScalarEvent(value: string, anchor: string) | AliasEvent(name: string)
    | SequenceStart(anchor: string) | SequenceEnd | MappingStart(anchor: string) | MappingEnd
    | DocumentStart | DocumentEnd | StreamEnd

  /** What the graph keeps of an event. */
  datatype Shape = ScalarShape(value: string) | AliasShape(name: string) | Open | Close | OpenMap | CloseMap | Other

  function ShapeOf(e: Event): Shape {
    match e
    case ScalarEvent(v, _) => ScalarShape(v)
    case AliasEvent(name) => AliasShape(name)
    case SequenceStart(_) => Open
    case SequenceEnd => Close
    case MappingStart(_) => OpenMap
    case MappingEnd => CloseMap
    case _ => Other
  }

  function Shapes(es: seq<Event>): (r: seq<Shape>)
    ensures |r| == |es| && forall i :: 0 <= i < |es| ==> r[i] == ShapeOf(es[i])
  {
    seq(|es|, i requires 0 <= i < |es| => ShapeOf(es[i]))
  }

  // ---------------------------------------------------------------- nodes and anchors by event

  predicate StartsNode(e: Event) {
    e.ScalarEvent? || e.AliasEvent? || e.SequenceStart? || e.MappingStart?
  }

  /** Every event that starts a node makes one. */
  function NodeCount(es: seq<Event>): nat {
    if es == [] then 0 else NodeCount(es[..|es| - 1]) + if StartsNode(es[|es| - 1]) then 1 else 0
  }

  function AnchorOf(e: Event): string {
    if e.ScalarEvent? || e.SequenceStart? || e.MappingStart? then e.anchor else ""
  }

  /** The latest node with each anchor in the current document. */
  function Anchors(es: seq<Event>): map<string, nat> {
    if es == [] then map[]
    else
      var n := |es| - 1;
      var e, before := es[n], Anchors(es[..n]);
      if e.DocumentStart? then map[]
      else if AnchorOf(e) != "" then before[AnchorOf(e) := NodeCount(es[..n])]
      else before
  }

  lemma CountStep(es: seq<Event>, i: nat)
    requires i < |es|
    ensures NodeCount(es[..i + 1]) == NodeCount(es[..i]) + if StartsNode(es[i]) then 1 else 0
    ensures Anchors(es[..i + 1]) ==
      if es[i].DocumentStart? then map[]
      else if AnchorOf(es[i]) != "" then Anchors(es[..i])[AnchorOf(es[i]) := NodeCount(es[..i])]
      else Anchors(es[..i])
  {
    assert es[..i + 1][..i] == es[..i];
  }

  /** An alias leads to the node that had its name last when the alias was read. */
  ghost predicate AliasRight(events: seq<Event>, n: Node, id: nat) {
    n.Alias? ==> exists j ::
      && 0 <= j < |events| && events[j] == AliasEvent(n.name) && NodeCount(events[..j]) == id
      && n.name in Anchors(events[..j]) && n.target == Anchors(events[..j])[n.name]
  }

  // ---------------------------------------------------------------- flattening back

  function Flatten(g: seq<Node>, id: nat): seq<Shape>
    requires ValidGraph(g) && id < |g|
    decreases |g| - id, 1
  {
    assert Linked(g, id);
    match g[id]
    case Scalar(v) => [ScalarShape(v)]
    case Alias(name, _) => [AliasShape(name)]
    case Sequence(cs) => [Open] + FlattenAll(g, id, cs) + [Close]
    case Mapping(cs) => [OpenMap] + FlattenAll(g, id, cs) + [CloseMap]
  }

  function FlattenAll(g: seq<Node>, parent: nat, cs: seq<nat>): seq<Shape>
    requires ValidGraph(g) && parent < |g| && forall i :: 0 <= i < |cs| ==> parent < cs[i] < |g|
    decreases |g| - parent, 0, |cs|
  {
    if cs == [] then [] else FlattenAll(g, parent, cs[..|cs| - 1]) + Flatten(g, cs[|cs| - 1])
  }

  /** Nodes below `id` and new nodes do not change what `id` stands for. */
  lemma {:induction false} FlattenStable(g: seq<Node>, h: seq<Node>, id: nat)
    requires ValidGraph(g) && ValidGraph(h) && id < |g| <= |h| && forall k :: id <= k < |g| ==> h[k] == g[k]
    ensures Flatten(h, id) == Flatten(g, id)
    decreases |g| - id, 1
  {
    assert Linked(g, id);
    match g[id]
    case Sequence(cs) => FlattenAllStable(g, h, id, cs);
    case Mapping(cs) => FlattenAllStable(g, h, id, cs);
    case _ =>
  }

  lemma {:induction false} FlattenAllStable(g: seq<Node>, h: seq<Node>, parent: nat, cs: seq<nat>)
    requires ValidGraph(g) && ValidGraph(h) && parent < |g| <= |h| && (forall k :: parent < k < |g| ==> h[k] == g[k])
    requires forall i :: 0 <= i < |cs| ==> parent < cs[i] < |g|
    ensures FlattenAll(h, parent, cs) == FlattenAll(g, parent, cs)
    decreases |g| - parent, 0, |cs|
  {
    if cs != [] {
      var n := |cs| - 1;
      FlattenAllStable(g, h, parent, cs[..n]);
      FlattenStable(g, h, cs[n]);
    }
  }

  // ---------------------------------------------------------------- where a node ends

  predicate IsEnd(e: Event, mapping: bool) {
    if mapping then e.MappingEnd? else e.SequenceEnd?
  }

  /** The position behind the node that starts at `pos`. */
  function NodeEnd(es: seq<Event>, pos: nat): (r: Option<nat>)
    requires pos <= |es|
    ensures r.Some? ==> pos < r.value <= |es|
    decreases |es| - pos, 0
  {
    if pos == |es| then None
    else
      match es[pos]
      case ScalarEvent(_, _) => Some(pos + 1)
      case AliasEvent(_) => Some(pos + 1)
      case SequenceStart(_) => ItemsEnd(es, pos + 1, false, false)
      case MappingStart(_) => ItemsEnd(es, pos + 1, true, false)
      case _ => None
  }

  /** The position behind a collection of which `pos` is the next event; `half`: a key has no value yet. */
  function ItemsEnd(es: seq<Event>, pos: nat, mapping: bool, half: bool): (r: Option<nat>)
    requires pos <= |es|
    ensures r.Some? ==> pos < r.value <= |es|
    decreases |es| - pos, 1
  {
    if pos == |es| then None
    else if !half && IsEnd(es[pos], mapping) then Some(pos + 1)
    else
      match NodeEnd(es, pos)
      case None => None
      case Some(p) => ItemsEnd(es, p, mapping, mapping && !half)
  }

  function KindOf(e: Event): G.Kind {
    match e
    case ScalarEvent(_, _) => G.Atom
    case AliasEvent(_) => G.Atom
    case SequenceStart(_) => G.SequenceStart
    case SequenceEnd => G.SequenceEnd
    case MappingStart(_) => G.MappingStart
    case MappingEnd => G.MappingEnd
    case DocumentStart => G.DocumentStart
    case DocumentEnd => G.DocumentEnd
    case StreamEnd => G.StreamEnd
  }

  function Kinds(es: seq<Event>): (r: seq<G.Kind>)
    ensures |r| == |es| && forall i :: 0 <= i < |es| ==> r[i] == KindOf(es[i])
  {
    seq(|es|, i requires 0 <= i < |es| => KindOf(es[i]))
  }

  /** Where a node ends is where the event grammar says: nothing but whole nodes is recognised. */
  lemma {:induction false} NodeEndSound(es: seq<Event>, pos: nat) returns (tree: G.Node)
    requires pos <= |es| && NodeEnd(es, pos).Some?
    ensures Kinds(es[pos..NodeEnd(es, pos).value]) == G.NodeKinds(tree)
    decreases |es| - pos, 0
  {
    var end := NodeEnd(es, pos).value;
    var ks := Kinds(es[pos..end]);
    if es[pos].SequenceStart? {
      var items := SequenceSound(es, pos + 1);
      tree := G.Sequence(items);
      assert ks == [G.SequenceStart] + Kinds(es[pos + 1..end]);
      assert ks == [G.SequenceStart] + G.ItemKinds(items) + [G.SequenceEnd];
    } else if es[pos].MappingStart? {
      var entries := MappingSound(es, pos + 1);
      tree := G.Mapping(entries);
      assert ks == [G.MappingStart] + Kinds(es[pos + 1..end]);
      assert ks == [G.MappingStart] + G.EntryKinds(entries) + [G.MappingEnd];
    } else {
      tree := G.Leaf;
      assert ks == [G.Atom];
    }
  }

  lemma KindsSplit(es: seq<Event>, a: nat, b: nat, c: nat)
    requires a <= b <= c <= |es|
    ensures Kinds(es[a..c]) == Kinds(es[a..b]) + Kinds(es[b..c])
  {
  }

  /** A member of a collection is a whole node, followed by the rest of the collection. */
  lemma MemberSound(es: seq<Event>, pos: nat, mapping: bool, half: bool) returns (tree: G.Node, p: nat)
    requires pos < |es| && ItemsEnd(es, pos, mapping, half).Some? && (half || !IsEnd(es[pos], mapping))
    ensures pos < p < |es| && ItemsEnd(es, p, mapping, mapping && !half) == ItemsEnd(es, pos, mapping, half)
    ensures var end := ItemsEnd(es, pos, mapping, half).value;
      Kinds(es[pos..end]) == G.NodeKinds(tree) + Kinds(es[p..end])
    decreases |es| - pos, 1
  {
    hide G.NodeKinds, Kinds;
    p := NodeEnd(es, pos).value;
    tree := NodeEndSound(es, pos);
    KindsSplit(es, pos, p, ItemsEnd(es, pos, mapping, half).value);
  }

  lemma CollectionEnds(es: seq<Event>, pos: nat, mapping: bool)
    requires pos <= |es| && ItemsEnd(es, pos, mapping, false).Some?
    ensures pos < |es|
    ensures IsEnd(es[pos], mapping) ==>
      Kinds(es[pos..ItemsEnd(es, pos, mapping, false).value]) == [if mapping then G.MappingEnd else G.SequenceEnd]
  {
  }

  lemma ItemKindsStep(n: G.Node, more: G.Items)
    ensures G.ItemKinds(G.Item(n, more)) + [G.SequenceEnd] == G.NodeKinds(n) + (G.ItemKinds(more) + [G.SequenceEnd])
  {
  }

  lemma EntryKindsStep(k: G.Node, v: G.Node, more: G.Entries)
    ensures G.EntryKinds(G.Entry(k, v, more)) + [G.MappingEnd]
      == G.NodeKinds(k) + (G.NodeKinds(v) + (G.EntryKinds(more) + [G.MappingEnd]))
  {
  }

  lemma {:induction false} SequenceSound(es: seq<Event>, pos: nat) returns (items: G.Items)
    requires pos <= |es| && ItemsEnd(es, pos, false, false).Some?
    ensures Kinds(es[pos..ItemsEnd(es, pos, false, false).value]) == G.ItemKinds(items) + [G.SequenceEnd]
    decreases |es| - pos, 2
  {
    hide ItemsEnd, NodeEnd, Kinds, G.NodeKinds;
    CollectionEnds(es, pos, false);
    if es[pos].SequenceEnd? {
      items := G.NoItem;
    } else {
      var n, p := MemberSound(es, pos, false, false);
      var more := SequenceSound(es, p);
      items := G.Item(n, more);
      ItemKindsStep(n, more);
    }
  }

  lemma {:induction false} MappingSound(es: seq<Event>, pos: nat) returns (entries: G.Entries)
    requires pos <= |es| && ItemsEnd(es, pos, true, false).Some?
    ensures Kinds(es[pos..ItemsEnd(es, pos, true, false).value]) == G.EntryKinds(entries) + [G.MappingEnd]
    decreases |es| - pos, 2
  {
    hide ItemsEnd, NodeEnd, Kinds, G.NodeKinds;
    CollectionEnds(es, pos, true);
    if es[pos].MappingEnd? {
      entries := G.NoEntry;
    } else {
      var k, p := MemberSound(es, pos, true, false);
      var v, q := MemberSound(es, p, true, true);
      var more := MappingSound(es, q);
      entries := G.Entry(k, v, more);
      EntryKindsStep(k, v, more);
    }
  }

  /** `ks` stands at `pos`. */
  ghost predicate Stands(es: seq<Event>, pos: nat, ks: seq<G.Kind>) {
    pos + |ks| <= |es| && Kinds(es[pos..pos + |ks|]) == ks
  }

  lemma StandsSplit(es: seq<Event>, pos: nat, a: seq<G.Kind>, b: seq<G.Kind>)
    requires Stands(es, pos, a + b)
    ensures Stands(es, pos, a) && Stands(es, pos + |a|, b)
    ensures a + b != [] ==> pos < |es| && KindOf(es[pos]) == (a + b)[0]
  {
    var ks := Kinds(es[pos..pos + |a + b|]);
    assert ks[..|a|] == a && ks[|a|..] == b;
    assert Kinds(es[pos..pos + |a|]) == ks[..|a|];
    assert Kinds(es[pos + |a|..pos + |a| + |b|]) == ks[|a|..];
    if a + b != [] {
      assert ks[0] == KindOf(es[pos]);
    }
  }

  /** And every whole node is recognised. */
  lemma {:induction false} NodeEndComplete(es: seq<Event>, pos: nat, tree: G.Node)
    requires Stands(es, pos, G.NodeKinds(tree))
    ensures pos <= |es| && NodeEnd(es, pos) == Some(pos + |G.NodeKinds(tree)|)
    decreases tree, 0
  {
    hide Kinds, Stands;
    var ks := G.NodeKinds(tree);
    assert ks + [] == ks;
    StandsSplit(es, pos, ks, []);
    match tree
    case Leaf =>
    case Sequence(items) =>
      assert ks == [G.SequenceStart] + (G.ItemKinds(items) + [G.SequenceEnd]);
      StandsSplit(es, pos, [G.SequenceStart], G.ItemKinds(items) + [G.SequenceEnd]);
      SequenceComplete(es, pos + 1, items);
    case Mapping(entries) =>
      assert ks == [G.MappingStart] + (G.EntryKinds(entries) + [G.MappingEnd]);
      StandsSplit(es, pos, [G.MappingStart], G.EntryKinds(entries) + [G.MappingEnd]);
      MappingComplete(es, pos + 1, entries);
  }

  lemma NodeIsNoEnd(tree: G.Node, more: seq<G.Kind>)
    ensures G.NodeKinds(tree) + more != [] && G.StartsNode((G.NodeKinds(tree) + more)[0])
  {
  }

  /** A whole node inside a collection is passed over as one member. */
  lemma MemberComplete(es: seq<Event>, pos: nat, tree: G.Node, rest: seq<G.Kind>, mapping: bool, half: bool)
    requires Stands(es, pos, G.NodeKinds(tree) + rest)
    ensures var p := pos + |G.NodeKinds(tree)|;
      p <= |es| && Stands(es, p, rest) && ItemsEnd(es, pos, mapping, half) == ItemsEnd(es, p, mapping, mapping && !half)
    decreases tree, 1
  {
    hide Kinds, Stands, G.NodeKinds;
    StandsSplit(es, pos, G.NodeKinds(tree), rest);
    NodeIsNoEnd(tree, rest);
    NodeEndComplete(es, pos, tree);
  }

  lemma {:induction false} SequenceComplete(es: seq<Event>, pos: nat, items: G.Items)
    requires Stands(es, pos, G.ItemKinds(items) + [G.SequenceEnd])
    ensures pos <= |es| && ItemsEnd(es, pos, false, false) == Some(pos + |G.ItemKinds(items)| + 1)
    decreases items
  {
    hide Kinds, Stands, G.NodeKinds;
    match items
    case NoItem => StandsSplit(es, pos, [], [G.SequenceEnd]);
    case Item(n, more) =>
      var a, b := G.NodeKinds(n), G.ItemKinds(more) + [G.SequenceEnd];
      ItemKindsStep(n, more);
      MemberComplete(es, pos, n, b, false, false);
      SequenceComplete(es, pos + |a|, more);
  }

  lemma {:induction false} MappingComplete(es: seq<Event>, pos: nat, entries: G.Entries)
    requires Stands(es, pos, G.EntryKinds(entries) + [G.MappingEnd])
    ensures pos <= |es| && ItemsEnd(es, pos, true, false) == Some(pos + |G.EntryKinds(entries)| + 1)
    decreases entries
  {
    hide Kinds, Stands, G.NodeKinds;
    match entries
    case NoEntry => StandsSplit(es, pos, [], [G.MappingEnd]);
    case Entry(k, v, more) =>
      var a, b, c := G.NodeKinds(k), G.NodeKinds(v), G.EntryKinds(more) + [G.MappingEnd];
      EntryKindsStep(k, v, more);
      MemberComplete(es, pos, k, b + c, true, false);
      MemberComplete(es, pos + |a|, v, c, true, true);
      MappingComplete(es, pos + |a| + |b|, more);
  }

  /** Every alias in a stretch of events names an anchor that comes before it. */
  ghost predicate AliasesKnown(es: seq<Event>, a: nat, b: nat) {
    forall j :: a <= j < b && j < |es| && es[j].AliasEvent? ==> es[j].name in Anchors(es[..j])
  }

  /** A node that can be built: it is whole, and its aliases are known. */
  ghost predicate Buildable(es: seq<Event>, pos: nat)
    requires pos <= |es|
  {
    NodeEnd(es, pos).Some? && AliasesKnown(es, pos, NodeEnd(es, pos).value)
  }

  // ---------------------------------------------------------------- the builder

  class Builder {
    const events: seq<Event>
    var pos: nat
    var nodes: seq<Node>
    var anchors: map<string, nat>

    constructor (events: seq<Event>)
      ensures this.events == events && pos == 0 && nodes == [] && Valid()
    {
      this.events := events;
      pos, nodes, anchors := 0, [], map[];
      new;
      assert events[..0] == [];
    }

    /** Nodes are numbered by the events that start them; anchors lead to the latest node of their name. */
    ghost predicate Valid()
      reads this
    {
      && pos <= |events| && ValidGraph(nodes)
      && |nodes| == NodeCount(events[..pos]) && anchors == Anchors(events[..pos])
      && (forall a :: a in anchors ==> anchors[a] < |nodes| && !nodes[anchors[a]].Alias?)
      && forall id :: 0 <= id < |nodes| ==> AliasRight(events, nodes[id], id)
    }

    method AddNode(n: Node)
      requires Valid() && pos < |events| && StartsNode(events[pos])
      requires match n
               case Scalar(_) => true
               case Alias(name, t) => events[pos] == AliasEvent(name) && name in anchors && t == anchors[name]
               case Sequence(cs) => cs == []
               case Mapping(cs) => cs == []
      modifies `pos, `nodes, `anchors
      ensures Valid() && pos == old(pos) + 1 && nodes == old(nodes) + [n]
    {
      CountStep(events, pos);
      var id := |nodes|;
      var anchor := AnchorOf(events[pos]);
      var g := nodes + [n];
      forall k | 0 <= k < |g| ensures Linked(g, k) {
        if k < id {
          assert Linked(nodes, k);
        }
      }
      assert AliasRight(events, n, id) by {
        if n.Alias? {
          assert events[pos] == AliasEvent(n.name) && NodeCount(events[..pos]) == id;
        }
      }
      nodes := g;
      if anchor != "" {
        anchors := anchors[anchor := id];
      }
      pos := pos + 1;
    }

    /** Passes an event that starts no node. */
    method Skip()
      requires Valid() && pos < |events| && !StartsNode(events[pos]) && !events[pos].DocumentStart?
      modifies `pos
      ensures Valid() && pos == old(pos) + 1
    {
      CountStep(events, pos);
      pos := pos + 1;
    }

    method AddChild(id: nat, child: nat)
      requires Valid() && id < child < |nodes| && HasChildren(nodes[id])
      modifies `nodes
      ensures Valid() && |nodes| == |old(nodes)| && forall k :: 0 <= k < |nodes| && k != id ==>
        nodes[k] == old(nodes)[k]
      ensures nodes[id] == old(nodes)[id].(children := old(nodes)[id].children + [child])
    {
      var g := nodes[id := nodes[id].(children := nodes[id].children + [child])];
      forall k | 0 <= k < |g| ensures Linked(g, k) {
        assert Linked(nodes, k);
      }
      nodes := g;
    }

    /** A collection under construction: its children are what has been read since it was opened. */
    ghost predicate Building(id: nat, start: nat, mapping: bool)
      requires Valid()
      reads this
    {
      && id < |nodes| && start < pos && start < |events|
      && (if mapping then nodes[id].Mapping? else nodes[id].Sequence?) && Linked(nodes, id)
      && FlattenAll(nodes, id, nodes[id].children) == Shapes(events[start + 1..pos])
    }

    /** Builds the node that starts here, if there is a whole one; flattened, it is the events it was read from. */
    method Parse() returns (ok: bool, id: nat)
      requires Valid()
      modifies this
      ensures ok <==> Buildable(events, old(pos))
      ensures ok ==>
        Valid() && id == |old(nodes)| < |nodes| && old(nodes) <= nodes && pos == NodeEnd(events, old(pos)).value
      ensures ok ==> Flatten(nodes, id) == Shapes(events[old(pos)..pos])
      decreases |events| - pos, 2
    {
      hide Anchors, NodeCount, AliasRight;
      ok, id := false, 0;
      if pos == |events| {
        return;
      }
      match events[pos] {
        case ScalarEvent(v, _) =>
          id := |nodes|;
          AddNode(Scalar(v));
          ok := true;
        case AliasEvent(name) =>
          if name in anchors {
            id := |nodes|;
            AddNode(Alias(name, anchors[name]));
            ok := true;
          }
        case SequenceStart(_) => ok, id := ParseCollection(false);
        case MappingStart(_) => ok, id := ParseCollection(true);
        case _ =>
      }
    }

    /** How far a collection has been read: everything known so far, and the rest decides where it ends. */
    ghost predicate Reading(start: nat, mapping: bool, half: bool)
      reads this
    {
      && start < pos <= |events| && AliasesKnown(events, start, pos)
      && NodeEnd(events, start) == ItemsEnd(events, pos, mapping, half)
    }

    method ParseCollection(mapping: bool) returns (ok: bool, id: nat)
      requires Valid() && pos < |events| && (if mapping then events[pos].MappingStart? else events[pos].SequenceStart?)
      modifies this
      ensures ok <==> Buildable(events, old(pos))
      ensures ok ==>
        Valid() && id == |old(nodes)| < |nodes| && old(nodes) <= nodes && pos == NodeEnd(events, old(pos)).value
      ensures ok ==> Flatten(nodes, id) == Shapes(events[old(pos)..pos])
      decreases |events| - pos, 1
    {
      hide Flatten, FlattenAll, ValidGraph, Shapes, AliasRight, Anchors, NodeCount, AliasesKnown, NodeEnd, ItemsEnd;
      id := |nodes|;
      ghost var start := pos;
      CollectionOpens(events, start, mapping);
      AddNode(if mapping then Mapping([]) else Sequence([]));
      Opened(nodes, id, events, start);
      while pos < |events| && !IsEnd(events[pos], mapping)
        invariant Valid() && id == |old(nodes)| < |nodes| && old(nodes) <= nodes
        invariant Building(id, start, mapping) && Reading(start, mapping, false)
        decreases |events| - pos
      {
        ok := ParseChild(id, start, mapping, false);
        if !ok {
          return;
        }
        if mapping {
          ok := ParseChild(id, start, mapping, true);
          if !ok {
            return;
          }
        }
      }
      CollectionCloses(events, start, pos, mapping);
      if pos == |events| {
        return false, id;
      }
      Skip();
      Closed(nodes, id, mapping, events, start, pos);
      ok := true;
    }

    method ParseChild(id: nat, ghost start: nat, mapping: bool, ghost half: bool) returns (ok: bool)
      requires Valid() && Building(id, start, mapping) && Reading(start, mapping, half)
      requires half || (pos < |events| && !IsEnd(events[pos], mapping))
      modifies this
      ensures ok ==> Valid() && Building(id, start, mapping) && old(pos) < pos && |old(nodes)| < |nodes|
      ensures ok ==> Reading(start, mapping, mapping && !half)
      ensures ok ==> forall k :: 0 <= k < |old(nodes)| && k != id ==> nodes[k] == old(nodes)[k]
      ensures !ok ==> !Buildable(events, start)
      decreases |events| - pos, 3
    {
      hide Flatten, FlattenAll, ValidGraph, Shapes, AliasRight, Anchors, NodeCount, AliasesKnown, NodeEnd;
      ghost var g := nodes;
      var child;
      OneMore(events, start, pos, mapping, half);
      ok, child := Parse();
      if !ok {
        return;
      }
      ghost var h := nodes;
      AddChild(id, child);
      ChildAdded(g, h, nodes, id, child);
      assert events[start + 1..old(pos)] + events[old(pos)..pos] == events[start + 1..pos];
      ShapesConcat(events[start + 1..old(pos)], events[old(pos)..pos]);
    }

    /** One document: anchors of an earlier one are forgotten. */
    method Document() returns (ok: bool, id: nat)
      requires Valid()
      modifies this
      ensures ok <==> IsDocument(events, old(pos))
      ensures ok ==> Valid() && id == |old(nodes)| < |nodes| && pos == NodeEnd(events, old(pos) + 1).value + 1
      ensures ok ==> Flatten(nodes, id) == Shapes(events[old(pos) + 1..pos - 1])
    {
      hide Flatten, FlattenAll, ValidGraph, Shapes, AliasRight, Anchors, NodeCount, Buildable;
      ok, id := false, 0;
      if pos == |events| || !events[pos].DocumentStart? {
        return;
      }
      StartDocument();
      ok, id := Parse();
      if !ok {
        return;
      }
      if pos == |events| || !events[pos].DocumentEnd? {
        return false, id;
      }
      Skip();
    }

    method StartDocument()
      requires Valid() && pos < |events| && events[pos].DocumentStart?
      modifies `pos, `anchors
      ensures Valid() && pos == old(pos) + 1
    {
      CountStep(events, pos);
      anchors := map[];
      pos := pos + 1;
    }
  }

  /** A document that can be built: a start, a node, and an end. */
  ghost predicate IsDocument(es: seq<Event>, pos: nat)
    requires pos <= |es|
  {
    && pos < |es| && es[pos].DocumentStart? && Buildable(es, pos + 1)
    && NodeEnd(es, pos + 1).value < |es| && es[NodeEnd(es, pos + 1).value].DocumentEnd?
  }

  lemma CollectionOpens(es: seq<Event>, start: nat, mapping: bool)
    requires start < |es| && (if mapping then es[start].MappingStart? else es[start].SequenceStart?)
    ensures AliasesKnown(es, start, start + 1) && NodeEnd(es, start) == ItemsEnd(es, start + 1, mapping, false)
  {
  }

  /** Where no member follows, the collection is whole if and only if its end is there. */
  lemma CollectionCloses(es: seq<Event>, start: nat, pos: nat, mapping: bool)
    requires start < pos <= |es| && AliasesKnown(es, start, pos)
    requires NodeEnd(es, start) == ItemsEnd(es, pos, mapping, false)
    requires pos < |es| ==> IsEnd(es[pos], mapping)
    ensures Buildable(es, start) <==> pos < |es|
    ensures pos < |es| ==> NodeEnd(es, start).value == pos + 1
  {
    hide Anchors;
  }

  /** A collection can only be built if its next member can, and then it goes on behind it. */
  lemma OneMore(es: seq<Event>, start: nat, pos: nat, mapping: bool, half: bool)
    requires start < pos <= |es| && AliasesKnown(es, start, pos)
    requires NodeEnd(es, start) == ItemsEnd(es, pos, mapping, half)
    requires half || (pos < |es| && !IsEnd(es[pos], mapping))
    ensures !Buildable(es, pos) ==> !Buildable(es, start)
    ensures Buildable(es, pos) ==> var p := NodeEnd(es, pos).value;
      AliasesKnown(es, start, p) && NodeEnd(es, start) == ItemsEnd(es, p, mapping, mapping && !half)
  {
    hide Anchors;
  }

  lemma ShapesConcat(a: seq<Event>, b: seq<Event>)
    ensures Shapes(a + b) == Shapes(a) + Shapes(b)
  {
  }

  /** A new collection has no children, as nothing has been read since it was opened. */
  lemma Opened(g: seq<Node>, id: nat, events: seq<Event>, start: nat)
    requires ValidGraph(g) && id < |g| && HasChildren(g[id]) && g[id].children == [] && start < |events|
    ensures Linked(g, id) && FlattenAll(g, id, g[id].children) == Shapes(events[start + 1..start + 1])
  {
  }

  /** A collection is its children between its opening and its closing event. */
  lemma Closed(g: seq<Node>, id: nat, mapping: bool, events: seq<Event>, start: nat, end: nat)
    requires ValidGraph(g) && id < |g| && Linked(g, id) && (if mapping then g[id].Mapping? else g[id].Sequence?)
    requires start + 1 < end <= |events|
    requires if mapping then events[start].MappingStart? && events[end - 1].MappingEnd?
             else events[start].SequenceStart? && events[end - 1].SequenceEnd?
    requires FlattenAll(g, id, g[id].children) == Shapes(events[start + 1..end - 1])
    ensures Flatten(g, id) == Shapes(events[start..end])
  {
    hide FlattenAll, Shapes;
    Wrap(events, start, end, FlattenAll(g, id, g[id].children));
  }

  lemma Wrap(events: seq<Event>, start: nat, end: nat, inner: seq<Shape>)
    requires start + 1 < end <= |events| && inner == Shapes(events[start + 1..end - 1])
    ensures Shapes(events[start..end]) == [ShapeOf(events[start])] + inner + [ShapeOf(events[end - 1])]
  {
  }

  /** One more child adds what it stands for. */
  lemma ChildAdded(g: seq<Node>, h: seq<Node>, k: seq<Node>, id: nat, child: nat)
    requires ValidGraph(g) && ValidGraph(h) && ValidGraph(k) && id < |g| == child < |h| == |k| && HasChildren(g[id])
    requires g <= h && (forall j :: 0 <= j < |k| && j != id ==> k[j] == h[j])
    requires k[id] == h[id].(children := h[id].children + [child])
    ensures Linked(g, id) && Linked(k, id)
    ensures FlattenAll(k, id, k[id].children) == FlattenAll(g, id, g[id].children) + Flatten(h, child)
  {
    assert Linked(g, id) && Linked(k, id);
    var cs := g[id].children;
    assert k[id].children[..|cs|] == cs;
    FlattenAllStable(g, k, id, cs);
    FlattenStable(h, k, child);
  }
}
