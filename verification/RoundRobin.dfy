/**
 The round-robin balancer as atomic steps: each method is one section under its mutex. Channels
 are numbered; a blocked caller of `Get` holds one, and can go on once it is closed.
 */
module RoundRobin {
  import opened Options

  type Address = int

  datatype AddrInfo = AddrInfo(addr: Address, connected: bool)

  datatype Update = Add(addr: Address) | Delete(addr: Address) | Unknown

  ghost predicate AnyConnected(addrs: seq<AddrInfo>) {
    exists i :: 0 <= i < |addrs| && addrs[i].connected
  }

  predicate Distinct(addrs: seq<AddrInfo>) {
    forall i, j :: 0 <= i < j < |addrs| ==> addrs[i].addr != addrs[j].addr
  }

  // ---------------------------------------------------------------- marking an address connected

  /** The loop of `Up`: the list after it, how many are connected, and whether it stopped early. */
  datatype Marked = Marked(addrs: seq<AddrInfo>, count: nat, stopped: bool)

  function Mark(addrs: seq<AddrInfo>, addr: Address, i: nat, count: nat): (m: Marked)
    requires i <= |addrs|
    ensures |m.addrs| == |addrs|
    decreases |addrs| - i
  {
    if i == |addrs| then Marked(addrs, count, false)
    else if addrs[i].addr == addr && addrs[i].connected then Marked(addrs, count, true)
    else
      var marked := if addrs[i].addr == addr then addrs[i := AddrInfo(addr, true)] else addrs;
      Mark(marked, addr, i + 1, if marked[i].connected then count + 1 else count)
  }

  /** How many entries an address has. */
  function Entries(addrs: seq<AddrInfo>, addr: Address, i: nat): (n: nat)
    requires i <= |addrs|
    decreases |addrs| - i
  {
    if i == |addrs| then 0 else Entries(addrs, addr, i + 1) + if addrs[i].addr == addr then 1 else 0
  }

  lemma {:induction false} EntriesAfter(addrs: seq<AddrInfo>, more: seq<AddrInfo>, addr: Address, i: nat)
    requires i <= |addrs| == |more| && forall j :: i <= j < |addrs| ==> more[j] == addrs[j]
    ensures Entries(more, addr, i) == Entries(addrs, addr, i)
    decreases |addrs| - i
  {
    if i < |addrs| {
      EntriesAfter(addrs, more, addr, i + 1);
    }
  }

  /** With nothing connected from `i` on, marking counts the entries of the address. */
  lemma {:induction false} MarkCounts(addrs: seq<AddrInfo>, addr: Address, i: nat, count: nat)
    requires i <= |addrs| && forall j :: i <= j < |addrs| ==> !addrs[j].connected
    ensures var m := Mark(addrs, addr, i, count); !m.stopped && m.count == count + Entries(addrs, addr, i)
    decreases |addrs| - i
  {
    if i < |addrs| {
      var marked := if addrs[i].addr == addr then addrs[i := AddrInfo(addr, true)] else addrs;
      MarkCounts(marked, addr, i + 1, if marked[i].connected then count + 1 else count);
      EntriesAfter(addrs, marked, addr, i + 1);
    }
  }

  lemma {:induction false} MarkIs(addrs: seq<AddrInfo>, addr: Address, i: nat, count: nat)
    requires i <= |addrs|
    ensures var m := Mark(addrs, addr, i, count);
      && (forall j :: 0 <= j < i ==> m.addrs[j] == addrs[j])
      && (forall j :: i <= j < |addrs| ==> m.addrs[j].addr == addrs[j].addr)
      && (forall j :: i <= j < |addrs| && !m.stopped ==>
            m.addrs[j].connected == (addrs[j].connected || addrs[j].addr == addr))
    decreases |addrs| - i
  {
    if i < |addrs| && !(addrs[i].addr == addr && addrs[i].connected) {
      var marked := if addrs[i].addr == addr then addrs[i := AddrInfo(addr, true)] else addrs;
      MarkIs(marked, addr, i + 1, if marked[i].connected then count + 1 else count);
    }
  }

  lemma {:induction false} SomeEntry(addrs: seq<AddrInfo>, addr: Address, i: nat)
    requires i <= |addrs|
    ensures Entries(addrs, addr, i) > 0 <==> exists j :: i <= j < |addrs| && addrs[j].addr == addr
    decreases |addrs| - i
  {
    if i < |addrs| {
      SomeEntry(addrs, addr, i + 1);
    }
  }

  lemma {:induction false} OneEntry(addrs: seq<AddrInfo>, addr: Address, i: nat)
    requires i <= |addrs| && Distinct(addrs)
    ensures Entries(addrs, addr, i) <= 1
    decreases |addrs| - i
  {
    if i < |addrs| {
      OneEntry(addrs, addr, i + 1);
      SomeEntry(addrs, addr, i + 1);
    }
  }

  /**
   Blocked callers are there only while nothing is connected. Then marking an address wakes them
   (its count is one) just when it connects something and does so through a single entry: an
   address listed twice would connect without waking anyone.
   */
  lemma WakesIffSingleEntry(addrs: seq<AddrInfo>, addr: Address)
    requires !AnyConnected(addrs)
    ensures var m := Mark(addrs, addr, 0, 0);
      && !m.stopped
      && (m.count == 1 <==> Entries(addrs, addr, 0) == 1)
      && (AnyConnected(m.addrs) <==> Entries(addrs, addr, 0) >= 1)
  {
    var m := Mark(addrs, addr, 0, 0);
    MarkCounts(addrs, addr, 0, 0);
    MarkIs(addrs, addr, 0, 0);
    SomeEntry(addrs, addr, 0);
    if Entries(addrs, addr, 0) > 0 {
      var j :| 0 <= j < |addrs| && addrs[j].addr == addr;
      assert m.addrs[j].connected;
    }
    if AnyConnected(m.addrs) {
      var j :| 0 <= j < |m.addrs| && m.addrs[j].connected;
      assert addrs[j].addr == addr;
    }
  }

  /** Two entries for one address: both connected, and a count that wakes nobody. */
  lemma TwoEntriesLoseTheWakeUp(addr: Address)
    ensures Mark([AddrInfo(addr, false), AddrInfo(addr, false)], addr, 0, 0)
         == Marked([AddrInfo(addr, true), AddrInfo(addr, true)], 2, false)
  {
    var addrs := [AddrInfo(addr, false), AddrInfo(addr, false)];
    var marked := addrs[0 := AddrInfo(addr, true)];
    assert marked[1 := AddrInfo(addr, true)] == [AddrInfo(addr, true), AddrInfo(addr, true)];
    assert Mark(marked, addr, 1, 1) == Mark(marked[1 := AddrInfo(addr, true)], addr, 2, 2);
  }

  // ---------------------------------------------------------------- updates of the address list

  ghost predicate Lists(addrs: seq<AddrInfo>, addr: Address) {
    exists i :: 0 <= i < |addrs| && addrs[i].addr == addr
  }

  ghost function Applied(addrs: seq<AddrInfo>, u: Update): (r: seq<AddrInfo>)
    requires Distinct(addrs)
    ensures Distinct(r)
  {
    match u
    case Add(a) => if Lists(addrs, a) then addrs else addrs + [AddrInfo(a, false)]
    case Delete(a) =>
      if Lists(addrs, a) then
        var i :| 0 <= i < |addrs| && addrs[i].addr == a;
        addrs[..i] + addrs[i + 1..]
      else addrs
    case Unknown => addrs
  }

  ghost function AppliedAll(addrs: seq<AddrInfo>, us: seq<Update>): (r: seq<AddrInfo>)
    requires Distinct(addrs)
    ensures Distinct(r)
  {
    if us == [] then addrs else Applied(AppliedAll(addrs, us[..|us| - 1]), us[|us| - 1])
  }

  /** An address is listed after an update as the update says, and no other one is touched. */
  lemma AppliedMeans(addrs: seq<AddrInfo>, u: Update, info: AddrInfo)
    requires Distinct(addrs)
    ensures u.Add? && info.addr == u.addr ==>
      (info in Applied(addrs, u) <==> info in addrs || (!Lists(addrs, u.addr) && !info.connected))
    ensures u.Delete? && info.addr == u.addr ==> info !in Applied(addrs, u)
    ensures u.Unknown? || info.addr != u.addr ==> (info in Applied(addrs, u) <==> info in addrs)
  {
    var r := Applied(addrs, u);
    if u.Delete? && Lists(addrs, u.addr) {
      var i :| 0 <= i < |addrs| && addrs[i].addr == u.addr && r == addrs[..i] + addrs[i + 1..];
      if info in addrs && info.addr != u.addr {
        var j :| 0 <= j < |addrs| && addrs[j] == info;
        assert r[if j < i then j else j - 1] == info;
      }
    } else if u.Add? && !Lists(addrs, u.addr) {
      assert r[|addrs|] == AddrInfo(u.addr, false);
    }
  }

  lemma AppliedConnected(addrs: seq<AddrInfo>, u: Update)
    requires Distinct(addrs) && !AnyConnected(addrs)
    ensures !AnyConnected(Applied(addrs, u))
  {
    var r := Applied(addrs, u);
    forall i | 0 <= i < |r| ensures !r[i].connected {
      AppliedMeans(addrs, u, r[i]);
      if r[i] in addrs {
        var j :| 0 <= j < |addrs| && addrs[j] == r[i];
        assert !addrs[j].connected;
      }
    }
  }

  /** The place `k` steps on from `start` in a ring of `n`. */
  function Around(start: nat, k: nat, n: nat): (i: nat)
    requires start < n && k <= n
    ensures i < n
  {
    if start + k < n then start + k else start + k - n
  }

  lemma NextAround(start: nat, k: nat, n: nat)
    requires start < n && k < n
    ensures (Around(start, k, n) + 1) % n == Around(start, k + 1, n)
  {
  }

  /** How far from `start` the first connected entry is, `k` steps or more; a whole turn if there is none. */
  function Offset(addrs: seq<AddrInfo>, start: nat, k: nat): (d: nat)
    requires start < |addrs| && k <= |addrs|
    ensures k <= d <= |addrs| && (d < |addrs| ==> addrs[Around(start, d, |addrs|)].connected)
    ensures forall j :: k <= j < d ==> !addrs[Around(start, j, |addrs|)].connected
    decreases |addrs| - k
  {
    if k == |addrs| || addrs[Around(start, k, |addrs|)].connected then k else Offset(addrs, start, k + 1)
  }

  /** Where a search begins. */
  function From(addrs: seq<AddrInfo>, next: nat): nat {
    if next >= |addrs| then 0 else next
  }

  /** A full turn from anywhere sees every entry. */
  lemma FullTurn(addrs: seq<AddrInfo>, start: nat)
    requires start < |addrs|
    ensures Offset(addrs, start, 0) < |addrs| <==> AnyConnected(addrs)
  {
    var n := |addrs|;
    if i :| 0 <= i < n && addrs[i].connected {
      assert Around(start, if i >= start then i - start else i + n - start, n) == i;
    }
  }

  // ---------------------------------------------------------------- rotation

  /** The place that is picked, and the one that the next search begins at. */
  ghost function Chosen(addrs: seq<AddrInfo>, next: nat): (i: nat)
    requires AnyConnected(addrs)
    ensures i < |addrs| && addrs[i].connected
  {
    FullTurn(addrs, From(addrs, next));
    Around(From(addrs, next), Offset(addrs, From(addrs, next), 0), |addrs|)
  }

  ghost function After(addrs: seq<AddrInfo>, next: nat): (i: nat)
    requires AnyConnected(addrs)
    ensures i < |addrs|
  {
    (Chosen(addrs, next) + 1) % |addrs|
  }

  /** The places that `m` searches in a row pick while the list stays as it is. */
  ghost function Picks(addrs: seq<AddrInfo>, next: nat, m: nat): (s: seq<nat>)
    requires AnyConnected(addrs)
    ensures |s| == m
    decreases m
  {
    if m == 0 then [] else [Chosen(addrs, next)] + Picks(addrs, After(addrs, next), m - 1)
  }

  /** The connected places from `k` steps on to the end of the turn. */
  function Turn(addrs: seq<AddrInfo>, start: nat, k: nat): (s: seq<nat>)
    requires start < |addrs| && k <= |addrs|
    decreases |addrs| - k
  {
    if k == |addrs| then []
    else
      var i := Around(start, k, |addrs|);
      (if addrs[i].connected then [i] else []) + Turn(addrs, start, k + 1)
  }

  /** A turn holds every connected place that lies ahead, and each of them once. */
  lemma {:induction false} TurnHolds(addrs: seq<AddrInfo>, start: nat, k: nat)
    requires start < |addrs| && k <= |addrs|
    ensures forall i :: i in Turn(addrs, start, k) <==>
      exists j :: k <= j < |addrs| && i == Around(start, j, |addrs|) && addrs[i].connected
    ensures forall a, b :: 0 <= a < b < |Turn(addrs, start, k)| ==> Turn(addrs, start, k)[a] != Turn(addrs, start, k)[b]
    decreases |addrs| - k
  {
    if k < |addrs| {
      TurnHolds(addrs, start, k + 1);
    }
  }

  /** Places without a connection do not matter to a turn. */
  lemma {:induction false} TurnSkips(addrs: seq<AddrInfo>, start: nat, k: nat)
    requires start < |addrs| && k <= |addrs|
    ensures var d := Offset(addrs, start, k);
      if d == |addrs| then Turn(addrs, start, k) == []
      else Turn(addrs, start, k) == [Around(start, d, |addrs|)] + Turn(addrs, start, d + 1)
    decreases |addrs| - k
  {
    hide Around;
    if k < |addrs| && !addrs[Around(start, k, |addrs|)].connected {
      TurnSkips(addrs, start, k + 1);
    }
  }

  /** A search that begins `k` steps into a turn, with something connected ahead, finds the next of that turn. */
  lemma OffsetAhead(addrs: seq<AddrInfo>, start: nat, k: nat)
    requires start < |addrs| && k < |addrs| && Offset(addrs, start, k) < |addrs|
    ensures k + Offset(addrs, Around(start, k, |addrs|), 0) == Offset(addrs, start, k)
  {
    var n, here := |addrs|, Around(start, k, |addrs|);
    var d, e := Offset(addrs, start, k), Offset(addrs, here, 0);
    assert Around(here, d - k, n) == Around(start, d, n);
    if k + e < n {
      assert Around(here, e, n) == Around(start, k + e, n);
    }
  }

  lemma {:induction false} PicksAreTurn(addrs: seq<AddrInfo>, start: nat, k: nat, next: nat)
    requires start < |addrs| && k <= |addrs| && AnyConnected(addrs) && From(addrs, next) == Around(start, k, |addrs|)
    ensures Picks(addrs, next, |Turn(addrs, start, k)|) == Turn(addrs, start, k)
    decreases |addrs| - k
  {
    hide Offset, Around, Turn;
    var n, d := |addrs|, Offset(addrs, start, k);
    TurnSkips(addrs, start, k);
    if d < n {
      OffsetAhead(addrs, start, k);
      AroundTwice(start, k, d - k, n);
      NextAround(start, d, n);
      assert Chosen(addrs, next) == Around(start, d, n);
      PicksAreTurn(addrs, start, d + 1, After(addrs, next));
    }
  }

  lemma AroundTwice(start: nat, k: nat, d: nat, n: nat)
    requires start < n && k + d < n
    ensures Around(Around(start, k, n), d, n) == Around(start, k + d, n)
  {
  }

  /** How many entries are connected. */
  function Connected(addrs: seq<AddrInfo>): (n: nat) {
    if addrs == [] then 0
    else Connected(addrs[..|addrs| - 1]) + if addrs[|addrs| - 1].connected then 1 else 0
  }

  /**
   Round robin: while the list stays as it is, as many calls in a row as there are connected
   entries pick each of them once, wherever the first of them begins.
   */
  lemma Rotation(addrs: seq<AddrInfo>, next: nat)
    requires AnyConnected(addrs)
    ensures var s := Picks(addrs, next, Connected(addrs));
      && (forall i :: i in s <==> 0 <= i < |addrs| && addrs[i].connected)
      && (forall a, b :: 0 <= a < b < |s| ==> s[a] != s[b])
  {
    hide Offset, Picks, Connected;
    var start := From(addrs, next);
    PicksAreTurn(addrs, start, 0, next);
    TurnHolds(addrs, start, 0);
    var s := Turn(addrs, start, 0);
    forall i ensures i in s <==> 0 <= i < |addrs| && addrs[i].connected {
      if 0 <= i < |addrs| && addrs[i].connected {
        assert i == Around(start, if i >= start then i - start else i + |addrs| - start, |addrs|);
      }
    }
    CountByPlaces(addrs, s);
  }

  lemma NothingIfNone(s: seq<nat>)
    ensures s == [] || exists i :: i in s
  {
    assert s == [] || s[0] in s;
  }

  /** A list of all connected places, each once, is as long as they are many. */
  lemma {:induction false} CountByPlaces(addrs: seq<AddrInfo>, s: seq<nat>)
    requires forall i :: i in s <==> 0 <= i < |addrs| && addrs[i].connected
    requires forall a, b :: 0 <= a < b < |s| ==> s[a] != s[b]
    ensures |s| == Connected(addrs)
  {
    if addrs == [] {
      NothingIfNone(s);
    } else {
      var n := |addrs| - 1;
      if addrs[n].connected {
        var c :| 0 <= c < |s| && s[c] == n;
        var t := s[..c] + s[c + 1..];
        forall i ensures i in t <==> 0 <= i < n && addrs[i].connected {
          if i in s && i != n {
            var a :| 0 <= a < |s| && s[a] == i;
            assert t[if a < c then a else a - 1] == i;
          }
        }
        CountByPlaces(addrs[..n], t);
      } else {
        CountByPlaces(addrs[..n], s);
      }
    }
  }

  function Addresses(addrs: seq<AddrInfo>): (r: seq<Address>)
    ensures |r| == |addrs| && forall i :: 0 <= i < |addrs| ==> r[i] == addrs[i].addr
  {
    seq(|addrs|, i requires 0 <= i < |addrs| => addrs[i].addr)
  }

  datatype Got = Picked(addr: Address) | Unavailable | Closing | Blocked

  class Balancer {
    var addrs: seq<AddrInfo>
    var next: nat
    /** The channel that blocked callers of `Get` are put on. */
    var waitCh: Option<nat>
    var done: bool
    /** The buffered channel that passes address lists on, when there is a resolver. */
    var addrCh: Option<seq<seq<Address>>>
    var addrChClosed: bool
    /** Channels made and channels closed so far, and the channel each blocked caller holds. */
    var channels: nat
    var closed: set<nat>
    var waiting: map<int, nat>

    /** Whether there is a name resolver. */
    const resolver: bool

    constructor (resolver: bool)
      ensures Valid() && this.resolver == resolver && addrs == [] && waiting == map[] && closed == {} && !done
      ensures waitCh == None && addrCh == None
    {
      this.resolver := resolver;
      addrs, next, waitCh, done, addrCh, addrChClosed := [], 0, None, false, None, false;
      channels, closed, waiting := 0, {}, map[];
    }

    /** Channels and callers between any two steps. */
    ghost predicate Sound()
      reads this
    {
      && (waitCh.Some? ==> !AnyConnected(addrs) && !done && waitCh.value < channels && waitCh.value !in closed)
      && (forall c :: c in closed ==> c < channels)
      && (forall w :: w in waiting ==> waiting[w] in closed || waitCh == Some(waiting[w]))
      && (addrCh.Some? ==> |addrCh.value| <= 1)
      && (addrChClosed ==> done && addrCh.Some?)
    }

    /** What holds between any two steps of any callers, with no address listed twice. */
    ghost predicate Valid()
      reads this
    {
      Sound() && Distinct(addrs)
    }

    /** No wake-up is lost: with an address connected, or the balancer closed, nobody is left behind. */
    lemma NoLostWakeUp()
      requires Sound() && (done || AnyConnected(addrs))
      ensures waitCh == None && forall w :: w in waiting ==> waiting[w] in closed
    {
    }

    // -------------------------------------------------------------- the resolver's side

    /** Without a resolver the target is listed, even if it is already; that is the one way to list it twice. */
    method Start(target: Address, resolved: bool) returns (ok: bool)
      requires Sound()
      modifies `addrs, `addrCh
      ensures Sound() && ok == (!done && (resolver ==> resolved))
      ensures addrs == if ok && !resolver then old(addrs) + [AddrInfo(target, false)] else old(addrs)
      ensures addrCh == if ok && resolver then Some([]) else old(addrCh)
      ensures old(Valid()) ==> (Valid() <==> resolver || done || !Lists(old(addrs), target))
    {
      if done {
        return false;
      }
      if !resolver {
        Listed(addrs, target);
        addrs := addrs + [AddrInfo(target, false)];
        return true;
      }
      if !resolved {
        return false;
      }
      addrCh := Some([]);
      ok := true;
    }

    /** Where an address is, or the length of the list. */
    method Find(addr: Address) returns (i: nat)
      ensures i <= |addrs| && (i < |addrs| ==> addrs[i].addr == addr)
      ensures i == |addrs| ==> !Lists(addrs, addr)
    {
      i := 0;
      while i < |addrs|
        invariant i <= |addrs| && forall j :: 0 <= j < i ==> addrs[j].addr != addr
      {
        if addrs[i].addr == addr {
          return;
        }
        i := i + 1;
      }
    }

    method ApplyUpdate(u: Update)
      requires Valid()
      modifies `addrs
      ensures Valid() && addrs == Applied(old(addrs), u)
    {
      if waitCh.Some? {
        AppliedConnected(addrs, u);
      }
      match u {
        case Add(a) =>
          var i := Find(a);
          if i == |addrs| {
            addrs := addrs + [AddrInfo(a, false)];
          }
        case Delete(a) =>
          var i := Find(a);
          if i < |addrs| {
            OnlyOne(addrs, a, i);
            addrs := addrs[..i] + addrs[i + 1..];
          }
        case Unknown =>
      }
    }

    /** Applies the updates and leaves the newest list in the channel, without ever blocking on it. */
    method WatchAddrUpdates(updates: seq<Update>) returns (ok: bool)
      requires Valid() && addrCh.Some?
      modifies `addrs, `addrCh
      ensures Valid() && ok == !done
      ensures addrs == AppliedAll(old(addrs), updates)
      ensures addrCh == if ok then Some([Addresses(addrs)]) else old(addrCh)
    {
      var n := 0;
      assert updates[..0] == [];
      while n < |updates|
        invariant n <= |updates| && Valid() && addrs == AppliedAll(old(addrs), updates[..n]) && addrCh == old(addrCh)
      {
        assert updates[..n + 1][..n] == updates[..n];
        ApplyUpdate(updates[n]);
        n := n + 1;
      }
      assert updates[..n] == updates;
      var open := Addresses(addrs);
      if done {
        return false;
      }
      var buffer := addrCh.value;
      if buffer != [] {
        buffer := buffer[1..];
      }
      assert buffer == [] && !addrChClosed;
      assert buffer + [open] == [open];
      addrCh := Some(buffer + [open]);
      ok := true;
    }

    // -------------------------------------------------------------- connections

    /** The loop over the list; stops early at an address that is connected already. */
    method MarkConnected(addr: Address) returns (count: nat, stopped: bool)
      modifies `addrs
      ensures Marked(addrs, count, stopped) == Mark(old(addrs), addr, 0, 0)
    {
      count := 0;
      var i := 0;
      while i < |addrs|
        invariant i <= |addrs| && Mark(addrs, addr, i, count) == Mark(old(addrs), addr, 0, 0)
      {
        if addrs[i].addr == addr {
          if addrs[i].connected {
            return count, true;
          }
          addrs := addrs[i := AddrInfo(addr, true)];
        }
        if addrs[i].connected {
          count := count + 1;
        }
        i := i + 1;
      }
      stopped := false;
    }

    /**
     Wakes the blocked callers if a single entry is connected afterwards. That they are woken
     whenever something is connected depends on the address being listed once.
     */
    method Up(addr: Address) returns (registered: bool)
      requires Sound()
      modifies `addrs, `waitCh, `closed
      ensures var m := Mark(old(addrs), addr, 0, 0);
        && addrs == m.addrs && registered == !m.stopped
        && if registered && m.count == 1 && old(waitCh).Some?
           then waitCh == None && closed == old(closed) + {old(waitCh).value}
           else waitCh == old(waitCh) && closed == old(closed)
      ensures Sound() <==> old(waitCh).None? || Entries(old(addrs), addr, 0) <= 1
      ensures old(Valid()) ==> Valid() && (Lists(addrs, addr) ==> waitCh == None)
    {
      MarkIs(addrs, addr, 0, 0);
      if waitCh.Some? {
        WakesIffSingleEntry(addrs, addr);
        SomeEntry(addrs, addr, 0);
      }
      if Distinct(addrs) {
        OneEntry(addrs, addr, 0);
      }
      if waitCh.None? {
        MarkConnects(addrs, addr);
      }
      var count, stopped := MarkConnected(addr);
      if stopped {
        return false;
      }
      if count == 1 && waitCh.Some? {
        closed := closed + {waitCh.value};
        waitCh := None;
      }
      registered := true;
    }

    method Down(addr: Address)
      requires Valid()
      modifies `addrs
      ensures Valid() && |addrs| == |old(addrs)|
      ensures forall i :: 0 <= i < |addrs| ==>
        addrs[i] == AddrInfo(old(addrs)[i].addr, old(addrs)[i].connected && old(addrs)[i].addr != addr)
    {
      var i := Find(addr);
      if i < |addrs| {
        addrs := addrs[i := AddrInfo(addr, false)];
      }
    }

    // -------------------------------------------------------------- callers of Get

    /** One turn at most: the first connected address from `next` on, if any is connected. */
    method Scan() returns (found: Option<Address>)
      modifies `next
      ensures found.Some? <==> AnyConnected(addrs)
      ensures found.Some? ==> found.value == addrs[Chosen(addrs, old(next))].addr && next == After(addrs, old(next))
      ensures found.None? ==> next == if addrs == [] then old(next) else From(addrs, old(next))
    {
      if |addrs| == 0 {
        return None;
      }
      if next >= |addrs| {
        next := 0;
      }
      FullTurn(addrs, next);
      var at := next;
      ghost var k := 0;
      while true
        invariant 0 <= k < |addrs| && next == From(addrs, old(next)) && at == Around(next, k, |addrs|)
        invariant Offset(addrs, next, 0) == Offset(addrs, next, k)
        decreases |addrs| - k
      {
        var a := addrs[at];
        NextAround(next, k, |addrs|);
        at := (at + 1) % |addrs|;
        if a.connected {
          next := at;
          return Some(a.addr);
        }
        k := k + 1;
        if at == next {
          break;
        }
      }
      found := None;
    }

    /** The caller has the connected address whose turn it was, and the next turn is the one after it. */
    ghost predicate Served(r: Got, was: nat)
      requires AnyConnected(addrs)
      reads `addrs, `next
    {
      r == Picked(addrs[Chosen(addrs, was)].addr) && next == After(addrs, was)
    }

    /** The caller holds the channel that the next connection closes. */
    ghost predicate OnHold(caller: int, was: map<int, nat>)
      reads `waitCh, `waiting, `closed
    {
      waitCh.Some? && waitCh.value !in closed && waiting == was[caller := waitCh.value]
    }

    /** Puts a caller on the current channel, making one if there is none. */
    method Block(caller: int)
      requires Sound() && !AnyConnected(addrs) && !done
      modifies `waitCh, `channels, `waiting
      ensures Sound() && waitCh.Some? && waitCh.value !in closed && waiting == old(waiting)[caller := waitCh.value]
      ensures old(waitCh).Some? ==> waitCh == old(waitCh)
    {
      if waitCh.None? {
        waitCh := Some(channels);
        channels := channels + 1;
      }
      waiting := waiting[caller := waitCh.value];
    }

    /**
     The connected address whose turn it is. A caller that does not want to wait gets the next
     address even if it is not connected.
     */
    method Get(caller: int, blocking: bool) returns (r: Got)
      requires Sound() && caller !in waiting
      modifies `next, `waitCh, `channels, `waiting
      ensures Sound()
      ensures done ==> r == Closing && next == old(next)
      ensures !done && AnyConnected(addrs) ==> Served(r, old(next))
      ensures !done && !AnyConnected(addrs) && blocking ==> r == Blocked && OnHold(caller, old(waiting))
      ensures !done && !AnyConnected(addrs) && !blocking ==>
        if addrs == [] then r == Unavailable
        else r == Picked(addrs[From(addrs, old(next))].addr) && next == From(addrs, old(next)) + 1
      ensures r != Blocked ==> waiting == old(waiting) && waitCh == old(waitCh)
    {
      if done {
        return Closing;
      }
      var found := Scan();
      if found.Some? {
        return Picked(found.value);
      }
      if !blocking {
        if |addrs| == 0 {
          return Unavailable;
        }
        r := Picked(addrs[next].addr);
        next := next + 1;
        return;
      }
      Block(caller);
      r := Blocked;
    }

    /** A caller whose channel was closed looks again, and blocks again if the address is gone. */
    method Resume(caller: int) returns (r: Got)
      requires Sound() && caller in waiting && waiting[caller] in closed
      modifies `next, `waitCh, `channels, `waiting
      ensures Sound()
      ensures done ==> r == Closing && next == old(next)
      ensures !done && AnyConnected(addrs) ==> Served(r, old(next))
      ensures !done && !AnyConnected(addrs) ==> r == Blocked && OnHold(caller, old(waiting))
      ensures r != Blocked ==> waiting == old(waiting) - {caller} && waitCh == old(waitCh)
    {
      if done {
        waiting := waiting - {caller};
        return Closing;
      }
      var found := Scan();
      if found.Some? {
        waiting := waiting - {caller};
        return Picked(found.value);
      }
      Block(caller);
      r := Blocked;
    }

    /** The caller's context is done. */
    method Cancel(caller: int)
      requires Valid() && caller in waiting
      modifies `waiting
      ensures Valid() && waiting == old(waiting) - {caller}
    {
      waiting := waiting - {caller};
    }

    method Close() returns (ok: bool)
      requires Valid()
      modifies `done, `waitCh, `closed, `addrChClosed
      ensures Valid() && ok == !old(done) && done && waitCh == None
      ensures closed == if ok && old(waitCh).Some? then old(closed) + {old(waitCh).value} else old(closed)
      ensures addrChClosed == if ok then addrCh.Some? else old(addrChClosed)
    {
      if done {
        return false;
      }
      done := true;
      if waitCh.Some? {
        closed := closed + {waitCh.value};
        waitCh := None;
      }
      if addrCh.Some? {
        addrChClosed := true;
      }
      ok := true;
    }
  }

  datatype Step =
    | Resolved(updates: seq<Update>) | ConnectionUp(addr: Address) | ConnectionDown(addr: Address)
    | Call(caller: int, blocking: bool) | Retry(caller: int) | GiveUp(caller: int) | Shutdown

  /**
   Any interleaving of the steps; one that cannot happen yet is passed over. After each of them,
   if an address is connected or the balancer closed, every blocked caller can go on.
   */
  method Interleave(target: Address, resolver: bool, resolved: bool, steps: seq<Step>) returns (b: Balancer)
    ensures b.Valid()
    ensures b.done || AnyConnected(b.addrs) ==> forall w :: w in b.waiting ==> b.waiting[w] in b.closed
  {
    b := new Balancer(resolver);
    var started := b.Start(target, resolved);
    var n := 0;
    while n < |steps|
      invariant fresh(b) && b.Valid()
    {
      match steps[n] {
        case Resolved(us) =>
          if b.addrCh.Some? {
            var ok := b.WatchAddrUpdates(us);
          }
        case ConnectionUp(a) => var registered := b.Up(a);
        case ConnectionDown(a) => b.Down(a);
        case Call(c, blocking) =>
          if c !in b.waiting {
            var r := b.Get(c, blocking);
          }
        case Retry(c) =>
          if c in b.waiting && b.waiting[c] in b.closed {
            var r := b.Resume(c);
          }
        case GiveUp(c) =>
          if c in b.waiting {
            b.Cancel(c);
          }
        case Shutdown => var ok := b.Close();
      }
      n := n + 1;
    }
    if b.done || AnyConnected(b.addrs) {
      b.NoLostWakeUp();
    }
  }

  /** Listing one address twice loses a wake-up: it is connected, and the caller that waits for it is not woken. */
  method LoseWakeUp(addr: Address, caller: int) returns (b: Balancer)
    ensures b.addrs == [AddrInfo(addr, true), AddrInfo(addr, true)] && !b.done
    ensures caller in b.waiting && b.waiting[caller] !in b.closed
  {
    b := new Balancer(false);
    var first := b.Start(addr, false);
    var second := b.Start(addr, false);
    assert b.addrs == [AddrInfo(addr, false), AddrInfo(addr, false)];
    var got := b.Get(caller, true);
    TwoEntriesLoseTheWakeUp(addr);
    var registered := b.Up(addr);
  }

  lemma Listed(addrs: seq<AddrInfo>, addr: Address)
    ensures Distinct(addrs + [AddrInfo(addr, false)]) <==> Distinct(addrs) && !Lists(addrs, addr)
  {
    var r := addrs + [AddrInfo(addr, false)];
    if Lists(addrs, addr) {
      var i :| 0 <= i < |addrs| && addrs[i].addr == addr;
      assert r[i].addr == r[|addrs|].addr;
    }
    assert forall i :: 0 <= i < |addrs| ==> r[i] == addrs[i];
  }

  lemma MarkConnects(addrs: seq<AddrInfo>, addr: Address)
    ensures Distinct(addrs) ==> Distinct(Mark(addrs, addr, 0, 0).addrs)
  {
    MarkIs(addrs, addr, 0, 0);
  }

  lemma OnlyOne(addrs: seq<AddrInfo>, a: Address, i: nat)
    requires Distinct(addrs) && i < |addrs| && addrs[i].addr == a
    ensures Applied(addrs, Delete(a)) == addrs[..i] + addrs[i + 1..]
  {
    var k :| 0 <= k < |addrs| && addrs[k].addr == a && Applied(addrs, Delete(a)) == addrs[..k] + addrs[k + 1..];
    assert k == i;
  }
}
