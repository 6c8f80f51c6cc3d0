/**
 The decoder's node graph: a tree of nodes numbered in the order they are made, with aliases
 that point back to nodes made earlier, which may be nodes they are themselves inside of.
 */
module NodeGraph {

  datatype Node =
    | Scalar(value: string)
    | Alias(name: string, target: nat)
    | Sequence(children: seq<nat>)
    | Mapping(children: seq<nat>)

  /** The untyped result of decoding. */
  datatype Tree = Leaf(value: string) | List(items: seq<Tree>) | Pairs(items: seq<Tree>)

  predicate HasChildren(n: Node) {
    n.Sequence? || n.Mapping?
  }

  /** Children come after their parent; aliases point back, and never to another alias. */
  predicate Linked(g: seq<Node>, id: nat)
    requires id < |g|
  {
    match g[id]
    case Scalar(_) => true
    case Alias(_, t) => t < id && !g[t].Alias?
    case Sequence(cs) => forall i :: 0 <= i < |cs| ==> id < cs[i] < |g|
    case Mapping(cs) => forall i :: 0 <= i < |cs| ==> id < cs[i] < |g|
  }

  predicate ValidGraph(g: seq<Node>) {
    forall id :: 0 <= id < |g| ==> Linked(g, id)
  }

  // ---------------------------------------------------------------- unfolding

  /** The node that stands where `id` stands. */
  function Resolved(g: seq<Node>, id: nat): (r: nat)
    requires ValidGraph(g) && id < |g|
    ensures r < |g| && !g[r].Alias?
  {
    assert Linked(g, id);
    if g[id].Alias? then g[id].target else id
  }

  /** `t` is the node with every alias replaced by what it stands for. */
  predicate Unfolds(g: seq<Node>, id: nat, t: Tree)
    requires ValidGraph(g) && id < |g|
    decreases t
  {
    var r := Resolved(g, id);
    assert Linked(g, r);
    match g[r]
    case Scalar(v) => t == Leaf(v)
    case Sequence(cs) => t.List? && |t.items| == |cs| && forall i :: 0 <= i < |cs| ==> Unfolds(g, cs[i], t.items[i])
    case Mapping(cs) => t.Pairs? && |t.items| == |cs| && forall i :: 0 <= i < |cs| ==> Unfolds(g, cs[i], t.items[i])
    case Alias(_, _) => false
  }

  lemma {:induction false} UnfoldsUnique(g: seq<Node>, id: nat, t: Tree, u: Tree)
    requires ValidGraph(g) && id < |g| && Unfolds(g, id, t) && Unfolds(g, id, u)
    ensures t == u
    decreases t
  {
    var r := Resolved(g, id);
    assert Linked(g, r);
    if HasChildren(g[r]) {
      var cs := g[r].children;
      forall i | 0 <= i < |cs| ensures t.items[i] == u.items[i] {
        UnfoldsUnique(g, cs[i], t.items[i], u.items[i]);
      }
      assert t.items == u.items;
    }
  }

  function Size(t: Tree): (n: nat)
    ensures n > 0
  {
    match t
    case Leaf(_) => 1
    case List(items) => 1 + SizeAll(items)
    case Pairs(items) => 1 + SizeAll(items)
  }

  function SizeAll(ts: seq<Tree>): nat {
    if ts == [] then 0 else Size(ts[0]) + SizeAll(ts[1..])
  }

  lemma {:induction false} ItemIsSmaller(ts: seq<Tree>, i: nat)
    requires i < |ts|
    ensures Size(ts[i]) <= SizeAll(ts)
  {
    if i > 0 {
      ItemIsSmaller(ts[1..], i - 1);
    }
  }

  // ---------------------------------------------------------------- paths

  /** One step: to a child, or from an alias to what it stands for. */
  predicate Edge(g: seq<Node>, a: nat, b: nat)
    requires a < |g|
  {
    match g[a]
    case Scalar(_) => false
    case Alias(_, t) => b == t
    case Sequence(cs) => b in cs
    case Mapping(cs) => b in cs
  }

  /** A path over at least one edge. */
  predicate IsPath(g: seq<Node>, p: seq<nat>) {
    && |p| >= 2 && (forall i :: 0 <= i < |p| ==> p[i] < |g|)
    && forall i :: 0 <= i < |p| - 1 ==> Edge(g, p[i], p[i + 1])
  }

  ghost predicate Reaches(g: seq<Node>, a: nat, b: nat) {
    exists p :: IsPath(g, p) && p[0] == a && p[|p| - 1] == b
  }

  lemma ReachStep(g: seq<Node>, a: nat, b: nat, c: nat)
    requires b < |g| && c < |g| && Edge(g, b, c) && (a == b || Reaches(g, a, b))
    ensures Reaches(g, a, c)
  {
    if a == b {
      assert IsPath(g, [b, c]);
      assert [b, c][0] == b && [b, c][1] == c;
    } else {
      var p :| IsPath(g, p) && p[0] == a && p[|p| - 1] == b;
      var q := p + [c];
      assert IsPath(g, q);
    }
  }

  // ---------------------------------------------------------------- decoding

  datatype Result = Value(tree: Tree) | ContainsItself(alias: nat)
  datatype Results = Values(trees: seq<Tree>) | Failed(alias: nat)

  /** The aliases that are not being decoded. */
  function Idle(g: seq<Node>, busy: set<nat>): (s: set<nat>) {
    set id | 0 <= id < |g| && g[id].Alias? && id !in busy
  }

  /** Decodes a node while the aliases in `busy` are being decoded. */
  function Decode(g: seq<Node>, id: nat, busy: set<nat>): Result
    requires ValidGraph(g) && id < |g|
    decreases Idle(g, busy), |g| - id, 1
  {
    assert Linked(g, id);
    match g[id]
    case Scalar(v) => Value(Leaf(v))
    case Alias(_, t) =>
      if id in busy then ContainsItself(id)
      else
        assert id in Idle(g, busy) && id !in Idle(g, busy + {id});
        Decode(g, t, busy + {id})
    case Sequence(cs) =>
      (match DecodeAll(g, id, cs, busy)
       case Values(ts) => Value(List(ts))
       case Failed(a) => ContainsItself(a))
    case Mapping(cs) =>
      (match DecodeAll(g, id, cs, busy)
       case Values(ts) => Value(Pairs(ts))
       case Failed(a) => ContainsItself(a))
  }

  /** Decodes children from the first to the last; the first failure is the outcome. */
  function DecodeAll(g: seq<Node>, parent: nat, cs: seq<nat>, busy: set<nat>): (r: Results)
    requires ValidGraph(g) && parent < |g| && forall i :: 0 <= i < |cs| ==> parent < cs[i] < |g|
    ensures r.Values? ==> |r.trees| == |cs|
    decreases Idle(g, busy), |g| - parent, 0, |cs|
  {
    if cs == [] then Values([])
    else
      var n := |cs| - 1;
      match DecodeAll(g, parent, cs[..n], busy)
      case Failed(a) => Failed(a)
      case Values(ts) =>
        match Decode(g, cs[n], busy)
        case ContainsItself(a) => Failed(a)
        case Value(t) => Values(ts + [t])
  }
}
