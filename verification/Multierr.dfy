/**
 Combined errors over shared backing arrays. Appending to an error may write into the spare
 capacity of the array that the error itself is stored in; a flag on each error, swapped once,
 decides who may do so.
 */
module Multierr {

  datatype Err = Nil | Single(id: int) | Multi(group: Group)

  /** `multiError`: the first `size` elements of a backing array, and whether a copy is needed. */
  class Group {
    const items: array<Err>
    const size: nat
    var copyNeeded: bool
    /** The list this error was created with. */
    ghost const list: seq<Err>

    constructor (items: array<Err>, size: nat)
      requires size <= items.Length
      ensures this.items == items && this.size == size && !copyNeeded && list == items[..size]
    {
      this.items, this.size, copyNeeded := items, size, false;
      list := items[..size];
    }
  }

  /** A list of plain errors. */
  predicate Flat(es: seq<Err>) {
    forall i :: 0 <= i < |es| ==> es[i].Single?
  }

  /** The errors that a value stands for. */
  ghost function Listed(e: Err): seq<Err> {
    match e
    case Nil => []
    case Single(_) => [e]
    case Multi(g) => g.list
  }

  ghost function ListedAll(es: seq<Err>): seq<Err> {
    if es == [] then [] else ListedAll(es[..|es| - 1]) + Listed(es[|es| - 1])
  }

  lemma ListedAllStep(es: seq<Err>, i: nat)
    requires i < |es|
    ensures ListedAll(es[..i + 1]) == ListedAll(es[..i]) + Listed(es[i])
  {
    assert es[..i + 1][..i] == es[..i];
  }

  lemma {:induction false} ListedGrows(es: seq<Err>, i: nat)
    requires i <= |es|
    ensures |ListedAll(es[..i])| <= |ListedAll(es)|
    decreases |es| - i
  {
    if i == |es| {
      assert es[..i] == es;
    } else {
      ListedAllStep(es, i);
      ListedGrows(es, i + 1);
    }
  }

  lemma {:induction false} ListedNils(es: seq<Err>, n: nat)
    requires n <= |es| && forall i :: 0 <= i < n ==> es[i].Nil?
    ensures ListedAll(es[..n]) == []
  {
    if n > 0 {
      ListedNils(es, n - 1);
      ListedAllStep(es, n - 1);
    }
  }

  lemma {:induction false} ListedFlat(es: seq<Err>)
    requires Flat(es)
    ensures ListedAll(es) == es
  {
    if es != [] {
      ListedFlat(es[..|es| - 1]);
    }
  }

  /** How many are not nil. */
  function Count(es: seq<Err>): (n: nat)
    ensures n <= |es|
  {
    if es == [] then 0 else Count(es[..|es| - 1]) + if es[|es| - 1].Nil? then 0 else 1
  }

  lemma CountStep(es: seq<Err>, i: nat)
    requires i < |es|
    ensures Count(es[..i + 1]) == Count(es[..i]) + if es[i].Nil? then 0 else 1
  {
    assert es[..i + 1][..i] == es[..i];
  }

  lemma {:induction false} CountZero(es: seq<Err>, n: nat)
    requires n <= |es| && Count(es[..n]) == 0
    ensures forall i :: 0 <= i < n ==> es[i].Nil?
  {
    if n > 0 {
      CountStep(es, n - 1);
      CountZero(es, n - 1);
    }
  }

  lemma {:induction false} CountFull(es: seq<Err>, n: nat)
    requires n <= |es| && Count(es[..n]) == n
    ensures forall i :: 0 <= i < n ==> !es[i].Nil?
  {
    if n > 0 {
      CountStep(es, n - 1);
      CountFull(es, n - 1);
    }
  }

  /** Before its only error and after it a list has nothing to add. */
  lemma {:induction false} OneListed(es: seq<Err>, first: nat, n: nat)
    requires first < n <= |es| && Count(es[..n]) == 1 && !es[first].Nil? && forall i :: 0 <= i < first ==> es[i].Nil?
    ensures ListedAll(es[..n]) == Listed(es[first])
  {
    CountStep(es, n - 1);
    ListedAllStep(es, n - 1);
    if n == first + 1 {
      ListedNils(es, first);
    } else {
      if !es[n - 1].Nil? {
        CountZero(es, n - 1);
      }
      OneListed(es, first, n - 1);
    }
  }

  lemma FlatConcat(a: seq<Err>, b: seq<Err>)
    requires Flat(a) && Flat(b)
    ensures Flat(a + b)
  {
  }

  /** Every error in a value is a plain one, and a value that is not nil has some. */
  ghost predicate Sound(e: Err) {
    Flat(Listed(e)) && (!e.Nil? ==> Listed(e) != [])
  }

  lemma EmptyList()
    ensures ListedAll([]) == [] && Flat([]) && Count([]) == 0
    ensures Listed(Nil) == [] && Sound(Nil) && forall id :: Sound(Single(id)) && Listed(Single(id)) == [Single(id)]
  {
  }

  lemma {:induction false} ListedSound(es: seq<Err>, n: nat)
    requires n <= |es| && forall i :: 0 <= i < n ==> Sound(es[i])
    ensures Flat(ListedAll(es[..n])) && |ListedAll(es[..n])| >= Count(es[..n])
  {
    hide ListedAll, Count, Flat, Listed;
    EmptyList();
    if n == 0 {
      assert es[..0] == [];
    } else {
      ListedSound(es, n - 1);
      ListedAllStep(es, n - 1);
      CountStep(es, n - 1);
      FlatConcat(ListedAll(es[..n - 1]), Listed(es[n - 1]));
    }
  }

  /** The package: every combined error it has made. */
  class Package {
    ghost var made: set<Group>

    constructor ()
      ensures made == {} && Valid()
    {
      made := {};
    }

    ghost predicate Own(g: Group)
      reads this, g.items
    {
      && g in made && 2 <= g.size <= g.items.Length
      && Flat(g.list) && g.items[..g.size] == g.list
    }

    /** An error that may be appended to in place is the longest one on its array. */
    ghost predicate Longest(g: Group)
      reads this, g, made
    {
      !g.copyNeeded ==> forall h :: h in made && h != g && h.items == g.items ==> h.size < g.size
    }

    /** Every error made so far still shows the list it was created with. */
    ghost predicate Valid()
      reads this, made, set g | g in made :: g.items
    {
      (forall g :: g in made ==> Own(g)) && (forall g :: g in made ==> Longest(g))
    }

    ghost predicate Known(e: Err)
      reads this
    {
      e.Multi? ==> e.group in made
    }

    /** A new error on an array that nothing else uses. */
    method MakeOwn(items: array<Err>, size: nat) returns (e: Err)
      requires Valid() && 2 <= size <= items.Length && Flat(items[..size])
      requires forall g :: g in made ==> g.items != items
      modifies this
      ensures Valid() && made >= old(made) && Gives(e, old(items[..size]))
      ensures fresh(made - old(made)) && forall g :: g in made - old(made) ==> g.items == items
    {
      var g := new Group(items, size);
      made := made + {g};
      e := Multi(g);
    }

    ghost predicate KnownAll(es: seq<Err>)
      reads this
    {
      forall i :: 0 <= i < |es| ==> Known(es[i])
    }

    /** One pass that counts what is needed to allocate space. */
    method Inspect(errors: array<Err>) returns (count: nat, capacity: nat, first: nat, containsMulti: bool)
      requires Valid() && KnownAll(errors[..])
      ensures count == Count(errors[..]) && capacity == |ListedAll(errors[..])|
      ensures containsMulti <==> exists i :: 0 <= i < errors.Length && errors[i].Multi?
      ensures count > 0 ==> first < errors.Length && !errors[first].Nil?
      ensures forall i :: 0 <= i < first && i < errors.Length ==> errors[i].Nil?
    {
      count, capacity, first, containsMulti := 0, 0, 0, false;
      var isFirst := true;
      var i := 0;
      ghost var es := errors[..];
      assert es[..0] == [];
      while i < errors.Length
        invariant 0 <= i <= errors.Length
        invariant count == Count(es[..i]) && capacity == |ListedAll(es[..i])|
        invariant containsMulti <==> exists j :: 0 <= j < i && es[j].Multi?
        invariant isFirst ==> count == 0 && first == 0 && forall j :: 0 <= j < i ==> es[j].Nil?
        invariant !isFirst ==> first < i && !es[first].Nil? && forall j :: 0 <= j < first ==> es[j].Nil?
      {
        CountStep(es, i);
        ListedAllStep(es, i);
        var err := errors[i];
        assert err == es[i];
        if !err.Nil? {
          count := count + 1;
          if isFirst {
            isFirst := false;
            first := i;
          }
          if err.Multi? {
            assert Known(es[i]) && Own(err.group);
            capacity := capacity + err.group.size;
            containsMulti := true;
          } else {
            capacity := capacity + 1;
          }
        }
        i := i + 1;
      }
      assert es[..i] == es;
    }

    lemma KnownSound(es: seq<Err>)
      requires Valid() && KnownAll(es)
      ensures forall i :: 0 <= i < |es| ==> Sound(es[i])
    {
      forall i | 0 <= i < |es| ensures Sound(es[i]) {
        assert Known(es[i]);
        if es[i].Multi? {
          assert Own(es[i].group);
        }
      }
    }

    /** Copies the lists of all the errors into one new array. */
    method Flatten(errors: array<Err>, first: nat, capacity: nat) returns (out: array<Err>)
      requires Valid() && KnownAll(errors[..]) && first <= errors.Length
      requires forall i :: 0 <= i < first ==> errors[i].Nil?
      requires capacity == |ListedAll(errors[..])|
      ensures fresh(out) && out.Length == capacity && out[..] == ListedAll(errors[..])
    {
      hide Own, Longest, Listed, ListedAll;
      out := new Err[capacity](_ => Nil);
      ghost var es := errors[..];
      var n, i := 0, first;
      ListedNils(es, first);
      while i < errors.Length
        invariant first <= i <= errors.Length && errors[..] == es
        invariant n == |ListedAll(es[..i])| <= capacity && out[..n] == ListedAll(es[..i])
      {
        ListedAllStep(es, i);
        ListedGrows(es, i + 1);
        assert errors[i] == es[i] && Known(es[i]);
        n := Extend(out, n, errors[i]);
        i := i + 1;
      }
      assert es[..i] == es;
    }

    /** Adds one value's errors behind the first `n`. */
    method Extend(out: array<Err>, n: nat, err: Err) returns (m: nat)
      requires Valid() && Known(err) && n + |Listed(err)| <= out.Length
      requires forall g :: g in made ==> g.items != out
      modifies out
      ensures m == n + |Listed(err)| && out[..m] == old(out[..n]) + Listed(err)
    {
      m := n;
      if err.Multi? {
        assert Own(err.group);
        m := CopyList(out, n, err.group);
      } else if err.Single? {
        out[n] := err;
        m := n + 1;
      }
    }

    method CopyList(out: array<Err>, n: nat, g: Group) returns (m: nat)
      requires Own(g) && n + g.size <= out.Length && out != g.items
      modifies out
      ensures m == n + |g.list| && out[..m] == old(out[..n]) + g.list
    {
      var j := 0;
      while j < g.size
        invariant 0 <= j <= g.size && g.items[..g.size] == g.list
        invariant out[..n + j] == old(out[..n]) + g.list[..j]
      {
        assert g.items[j] == g.list[j];
        out[n + j] := g.items[j];
        j := j + 1;
      }
      m := n + g.size;
    }

    /** A value made or handed back by the package, and the list it stands for. */
    ghost predicate Gives(e: Err, list: seq<Err>)
      reads this
    {
      Known(e) && Sound(e) && Listed(e) == list
    }

    /** The array must be the caller's own: a list that is already flat is kept as it is. */
    method FromSlice(errors: array<Err>) returns (e: Err)
      requires Valid() && KnownAll(errors[..])
      requires forall g :: g in made ==> g.items != errors
      modifies this
      ensures Valid() && made >= old(made) && Gives(e, ListedAll(old(errors[..])))
      ensures fresh(made - old(made)) && forall g :: g in made - old(made) ==> g.items == errors || fresh(g.items)
    {
      hide ListedAll, Count, Listed, Flat, Own, Longest;
      ghost var es := errors[..];
      assert es[..|es|] == es;
      KnownSound(es);
      ListedSound(es, |es|);
      var count, capacity, first, containsMulti := Inspect(errors);
      if count == 0 {
        CountZero(es, |es|);
        ListedNils(es, |es|);
        EmptyList();
        return Nil;
      }
      if count == 1 {
        OneListed(es, first, |es|);
        assert Known(es[first]) && Sound(es[first]);
        return errors[first];
      }
      if count == errors.Length && !containsMulti {
        CountFull(es, |es|);
        ListedFlat(es);
        assert errors[..errors.Length] == es;
        e := MakeOwn(errors, errors.Length);
        return;
      }
      var out := Flatten(errors, first, capacity);
      assert out[..capacity] == out[..];
      e := MakeOwn(out, capacity);
    }

    method Combine(errors: seq<Err>) returns (e: Err)
      requires Valid() && KnownAll(errors)
      modifies this
      ensures Valid() && made >= old(made) && Gives(e, ListedAll(errors))
      ensures fresh(made - old(made)) && forall g :: g in made - old(made) ==> fresh(g.items)
    {
      hide ListedAll, Count, Listed, Flat, Own, Longest, Sound;
      var slice := new Err[|errors|](i requires 0 <= i < |errors| => errors[i]);
      assert slice[..] == errors;
      e := FromSlice(slice);
    }

    /** Writes behind the end of an error that allows it; every other error keeps its list. */
    method WriteBehind(g: Group, right: Err) returns (e: Err)
      requires Valid() && g in made && !g.copyNeeded && right.Single? && g.size < g.items.Length
      modifies this, g, g.items
      ensures Valid() && made >= old(made) && Gives(e, g.list + [right])
      ensures fresh(made - old(made)) && forall h :: h in made - old(made) ==> h.items == g.items
    {
      assert Own(g);
      g.copyNeeded := true;
      g.items[g.size] := right;
      assert g.items[..g.size + 1] == g.list + [right];
      var h := new Group(g.items, g.size + 1);
      made := made + {h};
      e := Multi(h);
    }

    /** Moves a full array to a larger one, as Go's `append` does. */
    method Grow(g: Group, right: Err) returns (e: Err)
      requires Valid() && g in made && right.Single? && g.size == g.items.Length
      modifies this, g
      ensures Valid() && made >= old(made) && Gives(e, g.list + [right])
      ensures fresh(made - old(made)) && forall h :: h in made - old(made) ==> fresh(h.items)
    {
      assert Own(g);
      g.copyNeeded := true;
      var capacity :| capacity > g.size;
      var items := new Err[capacity](_ => Nil);
      forall i | 0 <= i < g.size {
        items[i] := g.items[i];
      }
      items[g.size] := right;
      assert items[..g.size + 1] == g.list + [right];
      FlatConcat(g.list, [right]);
      e := MakeOwn(items, g.size + 1);
    }

    method AppendInPlace(g: Group, right: Err) returns (e: Err)
      requires Valid() && g in made && !g.copyNeeded && right.Single?
      modifies this, g, g.items
      ensures Valid() && made >= old(made) && Gives(e, g.list + [right])
      ensures fresh(made - old(made)) && forall h :: h in made - old(made) ==> h.items == g.items || fresh(h.items)
    {
      assert Own(g);
      hide Gives, Longest, Own;
      if g.size < g.items.Length {
        e := WriteBehind(g, right);
      } else {
        e := Grow(g, right);
      }
    }

    ghost function Touched(left: Err): (s: set<object>) {
      if left.Multi? then {left.group, left.group.items} else {}
    }

    lemma KnownListed(e: Err)
      requires Valid() && Known(e)
      ensures Sound(e)
    {
      assert e.Multi? ==> Own(e.group);
    }

    /** The two lists one after the other, whoever else shares the left one's array. */
    method Append(left: Err, right: Err) returns (e: Err)
      requires Valid() && Known(left) && Known(right)
      modifies this, Touched(left)
      ensures Valid() && made >= old(made) && Gives(e, Listed(left) + Listed(right))
      ensures fresh(made - old(made))
      ensures forall h :: h in made - old(made) ==> fresh(h.items) || (left.Multi? && h.items == left.group.items)
    {
      hide ListedAll, Flat, Longest, Sound, Own, Valid;
      KnownListed(left);
      KnownListed(right);
      if left.Nil? {
        return right;
      }
      if right.Nil? {
        return left;
      }
      if !right.Multi? {
        if left.Multi? && !left.group.copyNeeded {
          e := AppendInPlace(left.group, right);
          return;
        } else if !left.Multi? {
          e := MakePair(left, right);
          return;
        }
      }
      ListedTwo(left, right);
      e := Combine([left, right]);
    }

    method MakePair(left: Err, right: Err) returns (e: Err)
      requires Valid() && left.Single? && right.Single?
      modifies this
      ensures Valid() && made >= old(made) && Gives(e, [left, right])
      ensures fresh(made - old(made)) && forall h :: h in made - old(made) ==> fresh(h.items)
    {
      var items := new Err[2](_ => left);
      items[1] := right;
      assert items[..2] == [left, right];
      e := MakeOwn(items, 2);
    }

    /** A copy of what an error shows now: the list it was made with. */
    method Errors(e: Err) returns (list: seq<Err>)
      requires Valid() && Known(e)
      ensures list == Listed(e) && Flat(list) && (list == [] <==> e.Nil?)
    {
      KnownListed(e);
      match e {
        case Nil => list := [];
        case Single(_) => list := [e];
        case Multi(g) =>
          assert Own(g);
          list := g.items[..g.size];
      }
    }
  }

  lemma ListedTwo(left: Err, right: Err)
    ensures ListedAll([left, right]) == Listed(left) + Listed(right)
  {
    assert [left, right][..1] == [left] && [left][..0] == [];
    assert ListedAll([left]) == [] + Listed(left);
  }

  // ---------------------------------------------------------------- whole programs

  /** A program over the package: values are named by the step that made them. */
  datatype Op = None | New(id: int) | Join(left: nat, right: nat) | Gather(parts: seq<nat>)

  predicate Scoped(op: Op, n: nat) {
    match op
    case Join(l, r) => l < n && r < n
    case Gather(ps) => forall i :: 0 <= i < |ps| ==> ps[i] < n
    case _ => true
  }

  predicate WellScoped(ops: seq<Op>) {
    forall i :: 0 <= i < |ops| ==> Scoped(ops[i], i)
  }

  function Gathered(lists: seq<seq<Err>>, parts: seq<nat>): seq<Err>
    requires forall i :: 0 <= i < |parts| ==> parts[i] < |lists|
  {
    if parts == [] then [] else Gathered(lists, parts[..|parts| - 1]) + lists[parts[|parts| - 1]]
  }

  function Made(op: Op, lists: seq<seq<Err>>): seq<Err>
    requires Scoped(op, |lists|)
  {
    match op
    case None => []
    case New(id) => [Single(id)]
    case Join(l, r) => lists[l] + lists[r]
    case Gather(ps) => Gathered(lists, ps)
  }

  /** The program over immutable lists. */
  function Lists(ops: seq<Op>): (r: seq<seq<Err>>)
    requires WellScoped(ops)
    ensures |r| == |ops|
  {
    if ops == [] then []
    else
      var n := |ops| - 1;
      var before := Lists(ops[..n]);
      before + [Made(ops[n], before)]
  }

  ghost predicate Show(values: seq<Err>, lists: seq<seq<Err>>) {
    |values| == |lists| && forall i :: 0 <= i < |values| ==> Listed(values[i]) == lists[i]
  }

  lemma {:induction false} GatheredListed(values: seq<Err>, lists: seq<seq<Err>>, parts: seq<nat>, picked: seq<Err>)
    requires Show(values, lists) && |picked| == |parts|
    requires forall i :: 0 <= i < |parts| ==> parts[i] < |values| && picked[i] == values[parts[i]]
    ensures ListedAll(picked) == Gathered(lists, parts)
    decreases |parts|
  {
    if parts != [] {
      var n := |parts| - 1;
      GatheredListed(values, lists, parts[..n], picked[..n]);
    }
  }

  /** Everything the package has made is new. */
  twostate predicate AllNew(new p: Package)
    reads p
  {
    fresh(p) && fresh(p.made) && forall g :: g in p.made ==> fresh(g.items)
  }

  method Pick(values: seq<Err>, parts: seq<nat>) returns (picked: seq<Err>)
    requires forall i :: 0 <= i < |parts| ==> parts[i] < |values|
    ensures |picked| == |parts| && forall i :: 0 <= i < |parts| ==> picked[i] == values[parts[i]]
  {
    picked := seq(|parts|, i requires 0 <= i < |parts| => values[parts[i]]);
  }

  lemma ListsStep(ops: seq<Op>, i: nat)
    requires WellScoped(ops) && i < |ops|
    ensures WellScoped(ops[..i]) && WellScoped(ops[..i + 1])
    ensures Lists(ops[..i + 1]) == Lists(ops[..i]) + [Made(ops[i], Lists(ops[..i]))]
  {
    assert ops[..i + 1][..i] == ops[..i];
  }

  /** One step of a program on the package. */
  method Do(p: Package, op: Op, values: seq<Err>, ghost lists: seq<seq<Err>>) returns (e: Err)
    requires p.Valid() && p.KnownAll(values) && Show(values, lists) && Scoped(op, |values|)
    modifies p, p.made, set g | g in p.made :: g.items
    ensures p.Valid() && p.made >= old(p.made) && p.Gives(e, Made(op, lists))
    ensures fresh(p.made - old(p.made)) && forall g :: g in p.made - old(p.made) ==>
      fresh(g.items) || exists h :: h in old(p.made) && h.items == g.items
  {
    hide Package.Valid, ListedAll, Flat, Sound;
    match op {
      case None =>
        EmptyList();
        e := Nil;
      case New(id) =>
        EmptyList();
        e := Single(id);
      case Join(l, r) =>
        e := p.Append(values[l], values[r]);
      case Gather(parts) =>
        var picked := Pick(values, parts);
        GatheredListed(values, lists, parts, picked);
        e := p.Combine(picked);
    }
  }

  /**
   Any program of appends and combinations, over values made at any earlier time and used any
   number of times: at the end every value still shows what immutable lists would give.
   */
  method Perform(ops: seq<Op>) returns (shown: seq<seq<Err>>)
    requires WellScoped(ops)
    ensures shown == Lists(ops)
  {
    hide Package.Valid, Flat, Sound, Lists;
    var p := new Package();
    var values := [];
    var i := 0;
    NoLists();
    assert ops[..0] == [];
    while i < |ops|
      invariant i <= |ops| && WellScoped(ops[..i])
      invariant AllNew(p) && p.Valid() && p.KnownAll(values) && Show(values, Lists(ops[..i]))
    {
      ListsStep(ops, i);
      var e := Do(p, ops[i], values, Lists(ops[..i]));
      values := values + [e];
      i := i + 1;
    }
    assert ops[..i] == ops;
    shown := [];
    i := 0;
    while i < |values|
      invariant 0 <= i <= |values| && p.Valid() && p.KnownAll(values) && Show(values, Lists(ops))
      invariant |shown| == i && forall j :: 0 <= j < i ==> shown[j] == Lists(ops)[j]
    {
      var list := p.Errors(values[i]);
      shown := shown + [list];
      i := i + 1;
    }
  }

  lemma NoLists()
    ensures WellScoped([]) && Lists([]) == []
  {
  }
}
