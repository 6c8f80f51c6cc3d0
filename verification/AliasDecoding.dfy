/**
 Decoding a graph with aliases: it ends, it succeeds exactly on graphs that unfold, and it fails only on
 real cycles.
 */
module AliasDecoding {
  import opened NodeGraph
  import B = NodeBuilder

  // ---------------------------------------------------------------- what is decoded

  lemma {:induction false} DecodeUnfolds(g: seq<Node>, id: nat, busy: set<nat>)
    requires ValidGraph(g) && id < |g| && Decode(g, id, busy).Value?
    ensures Unfolds(g, id, Decode(g, id, busy).tree)
    decreases Idle(g, busy), |g| - id, 1
  {
    assert Linked(g, id);
    match g[id]
    case Scalar(_) =>
    case Alias(_, t) =>
      assert id in Idle(g, busy) && id !in Idle(g, busy + {id});
      DecodeUnfolds(g, t, busy + {id});
      SameTarget(g, id, t, Decode(g, id, busy).tree);
    case Sequence(cs) => ChildrenUnfold(g, id, cs, busy);
    case Mapping(cs) => ChildrenUnfold(g, id, cs, busy);
  }

  /** An alias unfolds to what its target unfolds to. */
  lemma SameTarget(g: seq<Node>, id: nat, t: nat, tree: Tree)
    requires ValidGraph(g) && id < |g| && g[id].Alias? && g[id].target == t
    ensures t < |g| && Resolved(g, t) == t == Resolved(g, id)
    ensures Unfolds(g, id, tree) <==> Unfolds(g, t, tree)
  {
    assert Linked(g, id);
  }

  lemma {:induction false} ChildrenUnfold(g: seq<Node>, parent: nat, cs: seq<nat>, busy: set<nat>)
    requires ValidGraph(g) && parent < |g| && (forall i :: 0 <= i < |cs| ==> parent < cs[i] < |g|)
    requires DecodeAll(g, parent, cs, busy).Values?
    ensures forall i :: 0 <= i < |cs| ==> Unfolds(g, cs[i], DecodeAll(g, parent, cs, busy).trees[i])
    decreases Idle(g, busy), |g| - parent, 0, |cs|
  {
    if cs != [] {
      var n := |cs| - 1;
      ChildrenUnfold(g, parent, cs[..n], busy);
      DecodeUnfolds(g, cs[n], busy);
      var ts := DecodeAll(g, parent, cs[..n], busy).trees;
      forall i | 0 <= i < |cs| ensures Unfolds(g, cs[i], DecodeAll(g, parent, cs, busy).trees[i]) {
        if i < n {
          assert cs[..n][i] == cs[i] && Unfolds(g, cs[..n][i], ts[i]);
        }
      }
    }
  }

  // ---------------------------------------------------------------- failures are real cycles

  /** Everything being decoded leads to here. */
  ghost predicate Inside(g: seq<Node>, busy: set<nat>, id: nat) {
    forall a :: a in busy ==> Reaches(g, a, id)
  }

  lemma InsideStep(g: seq<Node>, busy: set<nat>, id: nat, next: nat)
    requires id < |g| && next < |g| && Inside(g, busy, id) && Edge(g, id, next)
    ensures Inside(g, busy, next)
  {
    forall a | a in busy ensures Reaches(g, a, next) {
      ReachStep(g, a, id, next);
    }
  }

  /** The alias that is reported reaches itself, and decoding did reach it. */
  lemma {:induction false} FailureIsCycle(g: seq<Node>, root: nat, id: nat, busy: set<nat>)
    requires ValidGraph(g) && id < |g| && Inside(g, busy, id) && (root == id || Reaches(g, root, id))
    requires Decode(g, id, busy).ContainsItself?
    ensures var a := Decode(g, id, busy).alias;
      a < |g| && g[a].Alias? && Reaches(g, a, a) && (a == root || Reaches(g, root, a))
    decreases Idle(g, busy), |g| - id, 1
  {
    assert Linked(g, id);
    match g[id]
    case Alias(_, t) =>
      if id !in busy {
        assert id in Idle(g, busy) && id !in Idle(g, busy + {id});
        InsideStep(g, busy, id, t);
        ReachStep(g, id, id, t);
        ReachStep(g, root, id, t);
        FailureIsCycle(g, root, t, busy + {id});
      }
    case Sequence(cs) => ChildFailureIsCycle(g, root, id, cs, busy);
    case Mapping(cs) => ChildFailureIsCycle(g, root, id, cs, busy);
  }

  lemma {:induction false} ChildFailureIsCycle(g: seq<Node>, root: nat, parent: nat, cs: seq<nat>, busy: set<nat>)
    requires ValidGraph(g) && parent < |g| && (forall i :: 0 <= i < |cs| ==> parent < cs[i] < |g|)
    requires HasChildren(g[parent]) && forall i :: 0 <= i < |cs| ==> cs[i] in g[parent].children
    requires Inside(g, busy, parent) && (root == parent || Reaches(g, root, parent))
    requires DecodeAll(g, parent, cs, busy).Failed?
    ensures var a := DecodeAll(g, parent, cs, busy).alias;
      a < |g| && g[a].Alias? && Reaches(g, a, a) && (a == root || Reaches(g, root, a))
    decreases Idle(g, busy), |g| - parent, 0, |cs|
  {
    var n := |cs| - 1;
    if DecodeAll(g, parent, cs[..n], busy).Failed? {
      ChildFailureIsCycle(g, root, parent, cs[..n], busy);
    } else {
      InsideStep(g, busy, parent, cs[n]);
      ReachStep(g, root, parent, cs[n]);
      FailureIsCycle(g, root, cs[n], busy);
    }
  }

  // ---------------------------------------------------------------- cycles do not unfold

  /** One step down a tree that unfolds. */
  lemma EdgeShrinks(g: seq<Node>, a: nat, b: nat, t: Tree) returns (u: Tree)
    requires ValidGraph(g) && a < |g| && b < |g| && Edge(g, a, b) && Unfolds(g, a, t)
    ensures Unfolds(g, b, u) && Size(u) <= Size(t) && (!g[a].Alias? ==> Size(u) < Size(t))
  {
    if g[a].Alias? {
      SameTarget(g, a, b, t);
      u := t;
    } else {
      assert Linked(g, a);
      var cs := g[a].children;
      var i :| 0 <= i < |cs| && cs[i] == b;
      u := t.items[i];
      ItemIsSmaller(t.items, i);
    }
  }

  lemma {:induction false} PathShrinks(g: seq<Node>, p: seq<nat>, t: Tree) returns (u: Tree)
    requires ValidGraph(g) && IsPath(g, p) && Unfolds(g, p[0], t)
    ensures Unfolds(g, p[|p| - 1], u) && Size(u) <= Size(t)
    ensures (exists i :: 0 <= i < |p| - 1 && !g[p[i]].Alias?) ==> Size(u) < Size(t)
    decreases |p|
  {
    assert Edge(g, p[0], p[1]);
    u := EdgeShrinks(g, p[0], p[1], t);
    if |p| > 2 {
      var q := p[1..];
      forall i | 0 <= i < |q| - 1 ensures Edge(g, q[i], q[i + 1]) {
        assert q[i] == p[i + 1] && q[i + 1] == p[i + 2];
      }
      var v := PathShrinks(g, q, u);
      if i :| 0 <= i < |p| - 1 && !g[p[i]].Alias? {
        if i > 0 {
          assert q[i - 1] == p[i];
        }
      }
      u := v;
    }
  }

  /** An alias that reaches itself has no finite unfolding. */
  lemma CycleDoesNotUnfold(g: seq<Node>, a: nat, t: Tree)
    requires ValidGraph(g) && a < |g| && g[a].Alias? && Reaches(g, a, a)
    ensures !Unfolds(g, a, t)
  {
    if Unfolds(g, a, t) {
      var p :| IsPath(g, p) && p[0] == a && p[|p| - 1] == a;
      assert Linked(g, a) && Edge(g, p[0], p[1]);
      assert !g[p[1]].Alias?;
      var u := PathShrinks(g, p, t);
      UnfoldsUnique(g, a, t, u);
    }
  }

  lemma {:induction false} UnfoldsReach(g: seq<Node>, root: nat, a: nat, t: Tree) returns (u: Tree)
    requires ValidGraph(g) && root < |g| && a < |g| && Unfolds(g, root, t) && (root == a || Reaches(g, root, a))
    ensures Unfolds(g, a, u)
  {
    if root == a {
      u := t;
    } else {
      var p :| IsPath(g, p) && p[0] == root && p[|p| - 1] == a;
      u := PathShrinks(g, p, t);
    }
  }

  /** Some alias that can be reached contains itself. */
  ghost predicate HasCycle(g: seq<Node>, root: nat) {
    exists a :: 0 <= a < |g| && g[a].Alias? && Reaches(g, a, a) && (root == a || Reaches(g, root, a))
  }

  /**
   Decoding fails exactly where some alias reaches itself, and there names such an alias; otherwise
   it gives the one tree that the graph unfolds to.
   */
  lemma DecodeIff(g: seq<Node>, root: nat)
    requires ValidGraph(g) && root < |g|
    ensures var r := Decode(g, root, {});
      && (r.ContainsItself? <==> HasCycle(g, root))
      && (r.ContainsItself? ==> r.alias < |g| && g[r.alias].Alias? && Reaches(g, r.alias, r.alias))
      && (forall t :: Unfolds(g, root, t) <==> r == Value(t))
  {
    var r := Decode(g, root, {});
    if r.ContainsItself? {
      FailureIsCycle(g, root, root, {});
      assert HasCycle(g, root);
    } else {
      DecodeUnfolds(g, root, {});
    }
    if HasCycle(g, root) {
      var a :| 0 <= a < |g| && g[a].Alias? && Reaches(g, a, a) && (root == a || Reaches(g, root, a));
      forall t ensures !Unfolds(g, root, t) {
        if Unfolds(g, root, t) {
          var u := UnfoldsReach(g, root, a, t);
          CycleDoesNotUnfold(g, a, u);
        }
      }
    }
    forall t | Unfolds(g, root, t) && r.Value? ensures r == Value(t) {
      UnfoldsUnique(g, root, t, r.tree);
    }
  }

  // ---------------------------------------------------------------- the decoder object

  class Decoder {
    const graph: seq<Node>
    /** The alias nodes that are being decoded. */
    var aliases: set<nat>

    constructor (graph: seq<Node>)
      ensures this.graph == graph && aliases == {}
    {
      this.graph, aliases := graph, {};
    }

    method Unmarshal(id: nat) returns (r: Result)
      requires ValidGraph(graph) && id < |graph|
      modifies `aliases
      ensures r == Decode(graph, id, old(aliases)) && (r.Value? ==> aliases == old(aliases))
      decreases Idle(graph, aliases), |graph| - id, 2
    {
      assert Linked(graph, id);
      match graph[id] {
        case Scalar(v) => r := Value(Leaf(v));
        case Alias(_, _) => r := UnmarshalAlias(id);
        case Sequence(cs) =>
          var rs := UnmarshalAll(id, cs);
          r := if rs.Values? then Value(List(rs.trees)) else ContainsItself(rs.alias);
        case Mapping(cs) =>
          var rs := UnmarshalAll(id, cs);
          r := if rs.Values? then Value(Pairs(rs.trees)) else ContainsItself(rs.alias);
      }
    }

    method UnmarshalAlias(id: nat) returns (r: Result)
      requires ValidGraph(graph) && id < |graph| && graph[id].Alias?
      modifies `aliases
      ensures r == Decode(graph, id, old(aliases)) && (r.Value? ==> aliases == old(aliases))
      decreases Idle(graph, aliases), |graph| - id, 1
    {
      assert Linked(graph, id);
      if id in aliases {
        return ContainsItself(id);
      }
      assert id in Idle(graph, aliases) && id !in Idle(graph, aliases + {id});
      aliases := aliases + {id};
      r := Unmarshal(graph[id].target);
      aliases := aliases - {id};
    }

    method UnmarshalAll(parent: nat, cs: seq<nat>) returns (rs: Results)
      requires ValidGraph(graph) && parent < |graph| && forall i :: 0 <= i < |cs| ==> parent < cs[i] < |graph|
      modifies `aliases
      ensures rs == DecodeAll(graph, parent, cs, old(aliases)) && (rs.Values? ==> aliases == old(aliases))
      decreases Idle(graph, aliases), |graph| - parent, 0
    {
      var ts := [];
      var i := 0;
      while i < |cs|
        invariant i <= |cs| && aliases == old(aliases)
        invariant DecodeAll(graph, parent, cs[..i], old(aliases)) == Values(ts)
      {
        assert cs[..i + 1][..i] == cs[..i];
        var r := Unmarshal(cs[i]);
        if r.ContainsItself? {
          FailsAt(graph, parent, cs, i + 1, old(aliases));
          return Failed(r.alias);
        }
        ts := ts + [r.tree];
        i := i + 1;
      }
      assert cs[..i] == cs;
      rs := Values(ts);
    }
  }

  /** The first failure among children is the failure of all. */
  lemma {:induction false} FailsAt(g: seq<Node>, parent: nat, cs: seq<nat>, n: nat, busy: set<nat>)
    requires ValidGraph(g) && parent < |g| && (forall i :: 0 <= i < |cs| ==> parent < cs[i] < |g|) && n <= |cs|
    ensures DecodeAll(g, parent, cs[..n], busy).Failed? ==>
      DecodeAll(g, parent, cs, busy) == DecodeAll(g, parent, cs[..n], busy)
    decreases |cs| - n
  {
    if n == |cs| {
      assert cs[..n] == cs;
    } else {
      assert cs[..n + 1][..n] == cs[..n];
      FailsAt(g, parent, cs, n + 1, busy);
    }
  }

  /** Builds the graph of the first document and decodes it, from the root down. */
  method Load(events: seq<B.Event>) returns (built: bool, nodes: seq<Node>, r: Result, end: nat)
    ensures built <==> B.IsDocument(events, 0)
    ensures built ==> ValidGraph(nodes) && nodes != []
    ensures built ==> 2 < end <= |events| && B.Flatten(nodes, 0) == B.Shapes(events[1..end - 1])
    ensures built ==> forall id :: 0 <= id < |nodes| ==> B.AliasRight(events, nodes[id], id)
    ensures built ==> (r.ContainsItself? <==> HasCycle(nodes, 0)) && (r.Value? ==> Unfolds(nodes, 0, r.tree))
  {
    var b := new B.Builder(events);
    var root;
    built, root := b.Document();
    nodes, r, end := b.nodes, ContainsItself(0), b.pos;
    if built {
      var d := new Decoder(nodes);
      r := d.Unmarshal(root);
      DecodeIff(nodes, root);
    }
  }
}
