/**
 The layout of the tokens: what one lexeme does to the scanner, as a function on values, and
 what every run of it keeps. Blocks are opened and closed by columns: outside flow
 collections, no token stands to the left of a block that is open around it.
 */
module TokenLayout {
  import opened TokenQueue

  datatype Sight =
    | EndOfInput
    | Stray
    | Sees(kind: Kind)
    | BlockScalar

  /**
   `freshLine`: a line break was passed on the way to `start`. `broken`: the anchor, tag,
   directive or scalar that starts there is malformed. `spilled`: a plain scalar ran over a line
   break before it ended.
   */
  datatype Lexeme = Lexeme(sight: Sight, start: Mark, end: Mark, freshLine: bool, broken: bool, spilled: bool)

  // ---------------------------------------------------------------- what the tokens alone say

  /** How many flow collections are open after the tokens; an end without a start is ignored. */
  function FlowOf(ts: seq<Token>): nat {
    if ts == [] then 0
    else
      var n, kind := FlowOf(ts[..|ts| - 1]), ts[|ts| - 1].kind;
      if kind.FlowSequenceStart? || kind.FlowMappingStart? then n + 1
      else if (kind.FlowSequenceEnd? || kind.FlowMappingEnd?) && n > 0 then n - 1
      else n
  }

  /** The columns of the blocks open after the tokens, from the stream itself at -1. */
  function LevelsOf(ts: seq<Token>): (levels: seq<int>)
    ensures levels != []
  {
    if ts == [] then [-1]
    else
      var levels, t := LevelsOf(ts[..|ts| - 1]), ts[|ts| - 1];
      if t.kind.BlockSequenceStart? || t.kind.BlockMappingStart? then levels + [t.start.column]
      else if t.kind.BlockEnd? && |levels| > 1 then levels[..|levels| - 1]
      else levels
  }

  function Last(levels: seq<int>): int
    requires levels != []
  {
    levels[|levels| - 1]
  }

  /** Token `n` is not to the left of the innermost block; a new block is to the right of it. */
  predicate AlignedAt(ts: seq<Token>, n: nat)
    requires n < |ts|
  {
    var t, level := ts[n], Last(LevelsOf(ts[..n]));
    FlowOf(ts[..n]) == 0 && !t.kind.BlockEnd? ==>
      if t.kind.BlockSequenceStart? || t.kind.BlockMappingStart? then t.start.column > level
      else t.start.column >= level
  }

  predicate Aligned(ts: seq<Token>) { forall n: nat :: n < |ts| ==> AlignedAt(ts, n) }

  /** A block starts right in front of its first entry, key or value. */
  predicate OpenedAt(ts: seq<Token>, n: nat)
    requires n < |ts|
  {
    && (ts[n].kind.BlockSequenceStart? && n + 1 < |ts| ==> ts[n + 1] == Token(BlockEntry, ts[n].start))
    && (ts[n].kind.BlockMappingStart? && n + 1 < |ts| ==>
          ts[n + 1] == Token(Key, ts[n].start) || ts[n + 1] == Token(Value, ts[n].start))
  }

  predicate Opened(ts: seq<Token>) { forall n: nat :: n < |ts| ==> OpenedAt(ts, n) }

  // ---------------------------------------------------------------- one lexeme

  /** All tokens so far, the columns of the open blocks, the simple keys, and whether a key may start. */
  datatype View = View(all: seq<Token>, levels: seq<int>, keys: seq<SimpleKey>, flow: nat, allowed: bool)

  /** A simple key is on one line and at most 1024 characters long. */
  predicate Stale(k: SimpleKey, at: Mark) {
    k.possible && (k.mark.line < at.line || k.mark.index + 1024 < at.index)
  }

  function Unstaled(keys: seq<SimpleKey>, at: Mark): (r: seq<SimpleKey>)
    ensures |r| == |keys|
    ensures forall i :: 0 <= i < |keys| ==> r[i] == if Stale(keys[i], at) then keys[i].(possible := false) else keys[i]
  {
    seq(|keys|, i requires 0 <= i < |keys| => if Stale(keys[i], at) then keys[i].(possible := false) else keys[i])
  }

  /** The levels not deeper than a column. */
  function Kept(levels: seq<int>, column: int): (r: seq<int>)
    ensures r <= levels && (levels != [] && levels[0] <= column ==> r != [])
  {
    if levels == [] || levels[|levels| - 1] <= column then levels else Kept(levels[..|levels| - 1], column)
  }

  /** Closes the blocks deeper than a column, each with a BLOCK-END. */
  function Unrolled(v: View, column: int, at: Mark): View {
    if v.flow > 0 then v
    else
      var kept := Kept(v.levels, column);
      v.(levels := kept, all := v.all + Ends(|v.levels| - |kept|, at))
  }

  /** Opens a block if a column is deeper than the innermost one. */
  function Rolled(v: View, kind: Kind, at: Mark): View
    requires v.levels != []
  {
    if v.flow == 0 && Last(v.levels) < at.column then
      v.(levels := v.levels + [at.column], all := v.all + [Token(kind, at)])
    else v
  }

  function Put(v: View, kind: Kind, at: Mark): View {
    v.(all := v.all + [Token(kind, at)])
  }

  function Forgotten(v: View): View
    requires v.flow < |v.keys|
  {
    v.(keys := v.keys[v.flow := v.keys[v.flow].(possible := false)])
  }

  /** The next token may turn out to be a simple key. */
  function Noted(v: View, at: Mark): View
    requires v.flow < |v.keys| && v.levels != []
  {
    if v.allowed then
      var k := SimpleKey(true, v.flow == 0 && Last(v.levels) == at.column, |v.all|, at);
      v.(keys := v.keys[v.flow := k])
    else v
  }

  /** The simple key before a `:` gets its KEY, and opens a mapping if it is deeper than the innermost block. */
  function Keyed(v: View): View
    requires v.flow < |v.keys| && v.levels != [] && v.keys[v.flow].number < |v.all|
  {
    var k := v.keys[v.flow];
    var opens := v.flow == 0 && Last(v.levels) < k.mark.column;
    Forgotten(v).(all := WithKey(v.all, k.number, k.mark, opens),
                  levels := v.levels + if opens then [k.mark.column] else [])
  }

  /** The stream ends at the start of a line. */
  function LineStart(at: Mark): Mark {
    if at.column != 0 then at.(column := 0, line := at.line + 1) else at
  }

  /** The innermost key may be given up. */
  predicate Free(v: View)
    requires v.flow < |v.keys|
  {
    !(v.keys[v.flow].possible && v.keys[v.flow].required)
  }

  predicate IsNodeStart(kind: Kind) { kind.Alias? || kind.Anchor? || kind.Tag? || kind.Scalar? }

  /** Whether what is seen can be a token here. */
  predicate Fits(v: View, l: Lexeme)
    requires v.flow < |v.keys|
  {
    match l.sight
    case EndOfInput => Free(v)
    case BlockScalar => v.flow == 0 && Free(v) && !l.broken
    case Stray => false
    case Sees(kind) =>
      if kind.Directive? then Free(v) && !l.broken
      else if kind.DocumentStart? || kind.DocumentEnd? || kind.FlowEntry? then Free(v)
      else if kind.FlowSequenceEnd? || kind.FlowMappingEnd? then Free(v)
      else if kind.FlowSequenceStart? || kind.FlowMappingStart? then v.allowed ==> Free(v)
      else if kind.BlockEntry? || kind.Key? then (v.flow > 0 || v.allowed) && Free(v)
      else if kind.Value? then v.keys[v.flow].possible || v.flow > 0 || v.allowed
      else if IsNodeStart(kind) then (v.allowed ==> Free(v)) && !l.broken
      else false
  }

  predicate Ready(v: View) {
    && |v.keys| == v.flow + 1 && Rising(v.levels)
    && forall i :: 0 <= i < |v.keys| && v.keys[i].possible ==> v.keys[i].number < |v.all|
  }

  function AfterValue(v: View, at: Mark): View
    requires Ready(v)
  {
    if v.keys[v.flow].possible then Put(Keyed(v), Value, at).(allowed := false)
    else Put(Rolled(Forgotten(v), BlockMappingStart, at), Value, at).(allowed := v.flow == 0)
  }

  /** What a lexeme adds, with the blocks that end before it closed. */
  function AfterSight(v: View, at: Mark, l: Lexeme): View
    requires Ready(v)
  {
    match l.sight
    case EndOfInput =>
      Put(Forgotten(Unrolled(v, -1, LineStart(at))), StreamEnd, LineStart(at)).(allowed := false)
    case BlockScalar => Put(Forgotten(v), Scalar, at).(allowed := true)
    case Stray => v
    case Sees(kind) =>
      if kind.Directive? || kind.DocumentStart? || kind.DocumentEnd? then
        Put(Forgotten(Unrolled(v, -1, at)), kind, at).(allowed := false)
      else if kind.FlowSequenceStart? || kind.FlowMappingStart? then
        var w := Put(Noted(v, at), kind, at);
        w.(keys := w.keys + [NoKey], flow := v.flow + 1, allowed := true)
      else if kind.FlowSequenceEnd? || kind.FlowMappingEnd? then
        var w := Put(Forgotten(v), kind, at).(allowed := false);
        if v.flow > 0 then w.(keys := w.keys[..v.flow], flow := v.flow - 1) else w
      else if kind.FlowEntry? then Put(Forgotten(v), FlowEntry, at).(allowed := true)
      else if kind.BlockEntry? then
        Put(Rolled(Forgotten(v), BlockSequenceStart, at), BlockEntry, at).(allowed := true)
      else if kind.Key? then
        Put(Rolled(Forgotten(v), BlockMappingStart, at), Key, at).(allowed := v.flow == 0)
      else if kind.Value? then AfterValue(v, at)
      else Put(Noted(v, at), kind, at).(allowed := kind.Scalar? && l.spilled)
  }

  /** A new line allows a key again, and the keys that cannot reach this far are given up. */
  function Arrived(v: View, l: Lexeme): View {
    v.(allowed := v.allowed || (l.freshLine && v.flow == 0), keys := Unstaled(v.keys, l.start))
  }

  /** A lexeme is accepted if no key that is required goes stale and the token fits. */
  predicate Accepts(v: View, l: Lexeme)
    requires v.flow < |v.keys|
  {
    && (forall i :: 0 <= i < |v.keys| && Stale(v.keys[i], l.start) ==> !v.keys[i].required)
    && Fits(Arrived(v, l), l)
  }

  function AfterLexeme(v: View, l: Lexeme): View
    requires Ready(v)
  {
    AfterSight(Unrolled(Arrived(v, l), l.start.column, l.start), l.start, l)
  }

  // ---------------------------------------------------------------- adding a token

  predicate OpensBlock(t: Token) { t.kind.BlockSequenceStart? || t.kind.BlockMappingStart? }

  predicate OpensFlow(kind: Kind) { kind.FlowSequenceStart? || kind.FlowMappingStart? }

  predicate ClosesFlow(kind: Kind) { kind.FlowSequenceEnd? || kind.FlowMappingEnd? }

  lemma FlowSnoc(ts: seq<Token>, t: Token)
    ensures FlowOf(ts + [t]) == if OpensFlow(t.kind) then FlowOf(ts) + 1
                                else if ClosesFlow(t.kind) && FlowOf(ts) > 0 then FlowOf(ts) - 1
                                else FlowOf(ts)
  {
    assert (ts + [t])[..|ts|] == ts;
  }

  lemma LevelsSnoc(ts: seq<Token>, t: Token)
    ensures LevelsOf(ts + [t]) == if OpensBlock(t) then LevelsOf(ts) + [t.start.column]
                                  else if t.kind.BlockEnd? && |LevelsOf(ts)| > 1 then
                                    LevelsOf(ts)[..|LevelsOf(ts)| - 1]
                                  else LevelsOf(ts)
  {
    assert (ts + [t])[..|ts|] == ts;
  }

  /** What the tokens so far have to satisfy. */
  ghost predicate WellLaid(ts: seq<Token>) { Aligned(ts) && Opened(ts) }

  lemma PrefixLaid(ts: seq<Token>, n: nat)
    requires n <= |ts| && WellLaid(ts)
    ensures WellLaid(ts[..n])
  {
    hide FlowOf, LevelsOf;
    var front := ts[..n];
    forall m: nat | m < n
      ensures AlignedAt(front, m) && OpenedAt(front, m)
    {
      assert front[..m] == ts[..m] && AlignedAt(ts, m) && OpenedAt(ts, m);
    }
  }

  lemma SnocLaid(ts: seq<Token>, t: Token)
    requires WellLaid(ts) && AlignedAt(ts + [t], |ts|) && (ts != [] ==> OpenedAt(ts + [t], |ts| - 1))
    ensures WellLaid(ts + [t])
  {
    hide FlowOf, LevelsOf;
    var more := ts + [t];
    forall m: nat | m < |more|
      ensures AlignedAt(more, m) && OpenedAt(more, m)
    {
      if m < |ts| {
        assert more[..m] == ts[..m] && AlignedAt(ts, m) && OpenedAt(ts, m);
      }
    }
  }

  // ---------------------------------------------------------------- putting a token in

  predicate IsNeutral(t: Token) { Step(t) == 0 && !OpensFlow(t.kind) && !ClosesFlow(t.kind) }

  lemma {:induction false} FlowInsert(a: seq<Token>, t: Token, b: seq<Token>)
    requires !OpensFlow(t.kind) && !ClosesFlow(t.kind)
    ensures FlowOf(a + [t] + b) == FlowOf(a + b)
    decreases |b|
  {
    hide FlowOf;
    if b == [] {
      assert a + [t] + b == a + [t] && a + b == a;
      FlowSnoc(a, t);
    } else {
      var n := |b| - 1;
      assert a + [t] + b == a + [t] + b[..n] + [b[n]] && a + b == a + b[..n] + [b[n]];
      FlowInsert(a, t, b[..n]);
      FlowSnoc(a + [t] + b[..n], b[n]);
      FlowSnoc(a + b[..n], b[n]);
    }
  }

  lemma {:induction false} LevelsInsert(a: seq<Token>, t: Token, b: seq<Token>)
    requires Step(t) == 0
    ensures LevelsOf(a + [t] + b) == LevelsOf(a + b)
    decreases |b|
  {
    hide LevelsOf;
    if b == [] {
      assert a + [t] + b == a + [t] && a + b == a;
      LevelsSnoc(a, t);
    } else {
      var n := |b| - 1;
      assert a + [t] + b == a + [t] + b[..n] + [b[n]] && a + b == a + b[..n] + [b[n]];
      LevelsInsert(a, t, b[..n]);
      LevelsSnoc(a + [t] + b[..n], b[n]);
      LevelsSnoc(a + b[..n], b[n]);
    }
  }

  predicate NoBlocks(b: seq<Token>) { forall i :: 0 <= i < |b| ==> Step(b[i]) == 0 }

  /** Without block tokens the levels stay. */
  lemma {:induction false} LevelsStay(a: seq<Token>, b: seq<Token>)
    requires NoBlocks(b)
    ensures LevelsOf(a + b) == LevelsOf(a)
    decreases |b|
  {
    hide LevelsOf;
    if b == [] {
      assert a + b == a;
    } else {
      var n := |b| - 1;
      assert a + b == a + b[..n] + [b[n]];
      LevelsStay(a, b[..n]);
      LevelsSnoc(a + b[..n], b[n]);
    }
  }

  /** A KEY goes in front of a token that is not left of it. */
  lemma InsertKeyLaid(a: seq<Token>, at: Mark, b: seq<Token>)
    requires WellLaid(a + b) && (FlowOf(a) == 0 ==> at.column >= Last(LevelsOf(a)))
    requires a != [] ==> !OpensBlock(a[|a| - 1])
    ensures WellLaid(a + [Token(Key, at)] + b)
  {
    hide FlowOf, LevelsOf, Aligned, Opened;
    var t := Token(Key, at);
    var s := a + [t] + b;
    forall m: nat | m < |s|
      ensures AlignedAt(s, m) && OpenedAt(s, m)
    {
      if m < |a| {
        KeyKeeps(a, at, b, m);
      } else if m == |a| {
        assert s[..m] == a && s[m] == t;
      } else {
        KeyShifts(a, at, b, m - |a| - 1);
      }
    }
    assert WellLaid(s) by { AllLaid(s); }
  }

  lemma AllLaid(s: seq<Token>)
    requires forall m: nat :: m < |s| ==> AlignedAt(s, m) && OpenedAt(s, m)
    ensures WellLaid(s)
  {
    hide AlignedAt, OpenedAt;
  }

  lemma KeyKeeps(a: seq<Token>, at: Mark, b: seq<Token>, m: nat)
    requires WellLaid(a + b) && m < |a| && !OpensBlock(a[|a| - 1])
    ensures var s := a + [Token(Key, at)] + b; AlignedAt(s, m) && OpenedAt(s, m)
  {
    hide FlowOf, LevelsOf;
    var s, was := a + [Token(Key, at)] + b, a + b;
    assert AlignedAt(was, m) && OpenedAt(was, m);
    assert s[..m] == was[..m] && s[m] == a[m] == was[m];
    assert m + 1 < |a| ==> s[m + 1] == a[m + 1] == was[m + 1];
  }

  lemma KeyShifts(a: seq<Token>, at: Mark, b: seq<Token>, k: nat)
    requires WellLaid(a + b) && k < |b|
    ensures var s := a + [Token(Key, at)] + b; AlignedAt(s, |a| + 1 + k) && OpenedAt(s, |a| + 1 + k)
  {
    hide FlowOf, LevelsOf;
    var t, n := Token(Key, at), |a| + k;
    var s, was := a + [t] + b, a + b;
    assert s[..n + 1] == a + [t] + b[..k] && was[..n] == a + b[..k] && s[n + 1] == b[k] == was[n];
    assert k + 1 < |b| ==> s[n + 2] == b[k + 1] == was[n + 1];
    FlowInsert(a, t, b[..k]);
    LevelsInsert(a, t, b[..k]);
    assert AlignedAt(was, n) && OpenedAt(was, n);
  }

  /** Tokens of which none stands left of a column, outside flow collections that they open. */
  predicate RightOf(a: seq<Token>, b: seq<Token>, column: int) {
    forall k :: 0 <= k < |b| ==> FlowOf(a + b[..k]) == 0 ==> b[k].start.column >= column
  }

  /** The start of a mapping goes in front of its first KEY. */
  lemma InsertStartLaid(a: seq<Token>, at: Mark, b: seq<Token>)
    requires WellLaid(a + [Token(Key, at)] + b) && FlowOf(a) == 0 && at.column > Last(LevelsOf(a))
    requires NoBlocks(b) && RightOf(a, b, at.column)
    requires a != [] ==> !OpensBlock(a[|a| - 1])
    ensures WellLaid(a + [Token(BlockMappingStart, at), Token(Key, at)] + b)
    ensures LevelsOf(a + [Token(BlockMappingStart, at), Token(Key, at)] + b) == LevelsOf(a) + [at.column]
    ensures FlowOf(a + [Token(BlockMappingStart, at), Token(Key, at)] + b) == FlowOf(a + b)
  {
    hide FlowOf, LevelsOf, NoBlocks, RightOf;
    var s0, t := Token(BlockMappingStart, at), Token(Key, at);
    var was, s := a + [t] + b, a + [s0, t] + b;
    forall m: nat | m < |s|
      ensures AlignedAt(s, m) && OpenedAt(s, m)
    {
      if m < |a| {
        assert s[..m] == was[..m] && AlignedAt(was, m) && OpenedAt(was, m);
      } else if m == |a| {
        assert s[..m] == a;
      } else if m == |a| + 1 {
        assert s[..m] == a + [s0];
        LevelsSnoc(a, s0);
      } else {
        var k := m - |a| - 2;
        StartLevels(a, at, b, k);
        assert s[..m] == a + [s0, t] + b[..k] && OpenedAt(was, m - 1);
      }
    }
    StartLevels(a, at, b, |b|);
    assert b[..|b|] == b;
  }

  lemma StartLevels(a: seq<Token>, at: Mark, b: seq<Token>, k: nat)
    requires k <= |b| && NoBlocks(b) && RightOf(a, b, at.column)
    ensures var s := a + [Token(BlockMappingStart, at), Token(Key, at)] + b[..k];
            && LevelsOf(s) == LevelsOf(a) + [at.column] && FlowOf(s) == FlowOf(a + b[..k])
            && (k < |b| && FlowOf(s) == 0 ==> b[k].start.column >= at.column) && (k < |b| ==> Step(b[k]) == 0)
  {
    hide FlowOf, LevelsOf;
    var s0, t := Token(BlockMappingStart, at), Token(Key, at);
    LevelsSnoc(a, s0);
    LevelsSnoc(a + [s0], t);
    assert a + [s0, t] == a + [s0] + [t];
    LevelsStay(a + [s0, t], b[..k]);
    FlowInsert(a, s0, [t] + b[..k]);
    FlowInsert(a, t, b[..k]);
    assert a + [s0, t] + b[..k] == a + [s0] + ([t] + b[..k]) && a + ([t] + b[..k]) == a + [t] + b[..k];
  }

  // ---------------------------------------------------------------- the invariant

  /** In reading order. */
  predicate Before(a: Mark, b: Mark) { a.line < b.line || (a.line == b.line && a.column <= b.column) }

  predicate MayBeKey(kind: Kind) { IsNodeStart(kind) || OpensFlow(kind) }

  /** A possible key is at its token, at its flow level, and behind no later lexeme. */
  ghost predicate KeyLaid(all: seq<Token>, i: nat, k: SimpleKey, at: Mark) {
    k.possible ==>
      && k.number < |all| && all[k.number].start == k.mark && MayBeKey(all[k.number].kind)
      && FlowOf(all[..k.number]) == i && Before(k.mark, at)
  }

  ghost predicate KeysLaid(all: seq<Token>, keys: seq<SimpleKey>, at: Mark) {
    && (forall i: nat :: i < |keys| ==> KeyLaid(all, i, keys[i], at))
    && (forall i, j :: 0 <= i < j < |keys| && keys[i].possible && keys[j].possible ==> keys[i].number < keys[j].number)
  }

  /** From a possible key outside flow collections on, no block starts or ends and nothing is left of it. */
  ghost predicate OnLine(all: seq<Token>, levels: seq<int>, k: SimpleKey)
    requires levels != []
  {
    k.possible ==>
      && k.number < |all| && Last(levels) <= k.mark.column
      && NoBlocks(all[k.number..]) && RightOf(all[..k.number], all[k.number..], k.mark.column)
  }

  predicate Settled(all: seq<Token>) { all != [] ==> !OpensBlock(all[|all| - 1]) }

  /** What every lexeme keeps; `at` is where the last one started. */
  ghost predicate Laid(v: View, at: Mark) {
    && |v.keys| == v.flow + 1 && v.levels == LevelsOf(v.all) && Rising(v.levels) && v.flow == FlowOf(v.all)
    && WellLaid(v.all) && Settled(v.all)
    && KeysLaid(v.all, v.keys, at) && OnLine(v.all, v.levels, v.keys[0])
  }

  lemma LaidIsReady(v: View, at: Mark)
    requires Laid(v, at)
    ensures Ready(v)
  {
    hide FlowOf, LevelsOf, WellLaid, RightOf, NoBlocks;
    forall i | 0 <= i < |v.keys| && v.keys[i].possible
      ensures v.keys[i].number < |v.all|
    {
      var n: nat := i;
      assert KeyLaid(v.all, n, v.keys[n], at);
    }
  }

  /** Nothing outside flow collections is left of the innermost block or of a key that is still possible. */
  predicate Here(v: View, at: Mark)
    requires v.levels != [] && v.keys != []
  {
    v.flow == 0 ==> Last(v.levels) <= at.column && (v.keys[0].possible ==> v.keys[0].mark.column <= at.column)
  }

  lemma KeysForget(all: seq<Token>, keys: seq<SimpleKey>, keys': seq<SimpleKey>, at: Mark)
    requires KeysLaid(all, keys, at) && Forgets(keys', keys)
    ensures KeysLaid(all, keys', at)
  {
    hide KeyLaid;
    forall i: nat | i < |keys'|
      ensures KeyLaid(all, i, keys'[i], at)
    {
      assert KeyLaid(all, i, keys[i], at);
      OneForgets(all, i, keys[i], keys'[i], at);
    }
  }

  lemma OneForgets(all: seq<Token>, i: nat, k: SimpleKey, k': SimpleKey, at: Mark)
    requires KeyLaid(all, i, k, at) && (k' == k || k' == k.(possible := false))
    ensures KeyLaid(all, i, k', at)
  {
  }

  lemma ForgetLaid(v: View, keys: seq<SimpleKey>, allowed: bool, at: Mark)
    requires Laid(v, at) && Forgets(keys, v.keys)
    ensures Laid(v.(keys := keys, allowed := allowed), at)
  {
    hide FlowOf, LevelsOf, WellLaid, KeysLaid, RightOf, NoBlocks;
    KeysForget(v.all, v.keys, keys, at);
  }

  lemma LaterLaid(v: View, at: Mark, later: Mark)
    requires Laid(v, at) && Before(at, later)
    ensures Laid(v, later)
  {
    hide FlowOf, LevelsOf, WellLaid, RightOf, NoBlocks;
    forall i: nat | i < |v.keys|
      ensures KeyLaid(v.all, i, v.keys[i], later)
    {
      assert KeyLaid(v.all, i, v.keys[i], at);
    }
  }

  /** A key that is still possible is on the line of the lexeme. */
  lemma ArrivedLaid(v: View, at: Mark, l: Lexeme)
    requires Laid(v, at) && Before(at, l.start)
    ensures var w := Arrived(v, l);
            && Laid(w, l.start) && (w.keys[0].possible ==> w.keys[0].mark.column <= l.start.column)
  {
    hide FlowOf, LevelsOf, WellLaid, RightOf, NoBlocks;
    var w := Arrived(v, l);
    LaterLaid(v, at, l.start);
    ForgetLaid(v, w.keys, w.allowed, l.start);
    assert KeyLaid(w.all, 0, w.keys[0], l.start);
  }

  // ---------------------------------------------------------------- closing blocks

  lemma EndLaid(s: seq<Token>, at: Mark)
    requires WellLaid(s) && Settled(s) && |LevelsOf(s)| > 1
    ensures var more := s + [Token(BlockEnd, at)];
            && WellLaid(more) && Settled(more) && FlowOf(more) == FlowOf(s)
            && LevelsOf(more) == LevelsOf(s)[..|LevelsOf(s)| - 1]
  {
    hide FlowOf, LevelsOf, Aligned, Opened;
    var t := Token(BlockEnd, at);
    FlowSnoc(s, t);
    LevelsSnoc(s, t);
    SnocLaid(s, t);
  }

  lemma {:induction false} EndsLaid(all: seq<Token>, n: nat, at: Mark)
    requires WellLaid(all) && Settled(all) && n < |LevelsOf(all)|
    ensures var s := all + Ends(n, at);
            && WellLaid(s) && Settled(s) && FlowOf(s) == FlowOf(all)
            && LevelsOf(s) == LevelsOf(all)[..|LevelsOf(all)| - n]
  {
    hide FlowOf, LevelsOf, WellLaid, Settled;
    if n == 0 {
      assert all + Ends(n, at) == all;
    } else {
      EndsLaid(all, n - 1, at);
      var s := all + Ends(n - 1, at);
      EndLaid(s, at);
      assert all + Ends(n, at) == s + [Token(BlockEnd, at)];
    }
  }

  lemma {:induction false} KeptExactly(levels: seq<int>, column: int)
    requires Rising(levels) && column >= -1
    ensures var r := Kept(levels, column);
            && r != [] && Rising(r) && (forall j :: 0 <= j < |r| ==> r[j] <= column)
            && (forall j :: |r| <= j < |levels| ==> levels[j] > column)
    decreases |levels|
  {
    var n := |levels| - 1;
    if levels[n] > column {
      assert n > 0;
      assert Rising(levels[..n]);
      KeptExactly(levels[..n], column);
    }
  }

  lemma NoneKept(all: seq<Token>, keys: seq<SimpleKey>, more: seq<Token>, at: Mark)
    requires |keys| == 1 && !keys[0].possible
    ensures KeysLaid(all + more, keys, at)
  {
  }

  lemma UnrolledLaid(v: View, column: int, at: Mark, now: Mark)
    requires Laid(v, now) && column >= -1
    requires v.flow == 0 && v.keys[0].possible ==> v.keys[0].mark.column <= column
    ensures var w := Unrolled(v, column, at);
            && Laid(w, now) && (v.flow == 0 ==> Last(w.levels) <= column)
  {
    hide FlowOf, LevelsOf, WellLaid, RightOf, NoBlocks, KeysLaid;
    if v.flow == 0 {
      KeptExactly(v.levels, column);
      var n := |v.levels| - |Kept(v.levels, column)|;
      if v.keys[0].possible {
        assert n == 0;
        assert v.all + Ends(n, at) == v.all;
      } else {
        EndsLaid(v.all, n, at);
        NoneKept(v.all, v.keys, Ends(n, at), now);
      }
    }
  }

  // ---------------------------------------------------------------- one more token

  lemma KeysAppend(all: seq<Token>, keys: seq<SimpleKey>, at: Mark, t: Token)
    requires KeysLaid(all, keys, at)
    ensures KeysLaid(all + [t], keys, at)
  {
    hide FlowOf;
    forall i: nat | i < |keys|
      ensures KeyLaid(all + [t], i, keys[i], at)
    {
      assert KeyLaid(all, i, keys[i], at);
      if keys[i].possible {
        assert (all + [t])[..keys[i].number] == all[..keys[i].number];
      }
    }
  }

  lemma LineAppend(all: seq<Token>, levels: seq<int>, k: SimpleKey, t: Token)
    requires levels != [] && OnLine(all, levels, k) && Step(t) == 0
    requires FlowOf(all) == 0 && k.possible ==> t.start.column >= k.mark.column
    ensures OnLine(all + [t], levels, k)
  {
    hide FlowOf;
    if k.possible {
      var a, b, n := all[..k.number], all[k.number..], |all| - k.number;
      assert (all + [t])[..k.number] == a && (all + [t])[k.number..] == b + [t];
      forall i | 0 <= i <= n
        ensures FlowOf(a + (b + [t])[..i]) == 0 ==> (b + [t])[i].start.column >= k.mark.column
      {
        if i < n {
          assert (b + [t])[..i] == b[..i];
        } else {
          assert (b + [t])[..i] == b && a + b == all;
        }
      }
    }
  }

  /** A token that neither starts nor ends a block, in its place. */
  lemma TokenLaid(v: View, t: Token)
    requires v.keys != [] && v.levels == LevelsOf(v.all) && v.flow == FlowOf(v.all) && WellLaid(v.all) && Settled(v.all)
    requires Step(t) == 0 && Here(v, t.start)
    ensures var all := v.all + [t]; WellLaid(all) && Settled(all) && LevelsOf(all) == v.levels
  {
    hide FlowOf, LevelsOf, Aligned, Opened;
    LevelsSnoc(v.all, t);
    assert (v.all + [t])[..|v.all|] == v.all;
    SnocLaid(v.all, t);
  }

  lemma PutLaid(v: View, kind: Kind, at: Mark, now: Mark)
    requires Laid(v, now) && IsNeutral(Token(kind, at)) && Here(v, at)
    ensures Laid(Put(v, kind, at), now) && Here(Put(v, kind, at), at)
  {
    hide FlowOf, LevelsOf, WellLaid, KeysLaid, OnLine;
    var t := Token(kind, at);
    TokenLaid(v, t);
    FlowSnoc(v.all, t);
    KeysAppend(v.all, v.keys, now, t);
    LineAppend(v.all, v.levels, v.keys[0], t);
  }

  lemma ForgottenLaid(v: View, at: Mark)
    requires Laid(v, at)
    ensures Laid(Forgotten(v), at) && (v.flow == 0 ==> !Forgotten(v).keys[0].possible)
  {
    ForgetLaid(v, Forgotten(v).keys, v.allowed, at);
  }

  /** The keys when the next token is noted as a possible one. */
  lemma NotedKeys(v: View, t: Token)
    requires Laid(v, t.start) && MayBeKey(t.kind) && Here(v, t.start)
    ensures var w := Noted(v, t.start);
            && KeysLaid(v.all + [t], w.keys, t.start) && OnLine(v.all + [t], v.levels, w.keys[0])
            && |w.keys| == |v.keys|
  {
    hide FlowOf, LevelsOf, WellLaid, OnLine, RightOf, NoBlocks;
    var w := Noted(v, t.start);
    KeysAppend(v.all, v.keys, t.start, t);
    LineAppend(v.all, v.levels, v.keys[0], t);
    if v.allowed {
      var k := w.keys[v.flow];
      assert (v.all + [t])[..|v.all|] == v.all && Before(t.start, t.start);
      forall i: nat | i < |w.keys|
        ensures KeyLaid(v.all + [t], i, w.keys[i], t.start)
      {
        assert KeyLaid(v.all + [t], i, v.keys[i], t.start) && KeyLaid(v.all, i, v.keys[i], t.start);
      }
      NotedOrder(v, w.keys, k, t.start);
      if v.flow == 0 {
        NotedLine(v.all, v.levels, k, t);
      }
    }
  }

  lemma NotedOrder(v: View, keys: seq<SimpleKey>, k: SimpleKey, at: Mark)
    requires KeysLaid(v.all, v.keys, at) && |v.keys| == v.flow + 1
    requires keys == v.keys[v.flow := k] && k.number == |v.all|
    ensures forall i, j :: 0 <= i < j < |keys| && keys[i].possible && keys[j].possible ==>
              keys[i].number < keys[j].number
  {
    hide FlowOf;
    forall i, j | 0 <= i < j < |keys| && keys[i].possible && keys[j].possible
      ensures keys[i].number < keys[j].number
    {
      var n: nat := i;
      assert KeyLaid(v.all, n, v.keys[n], at);
    }
  }

  lemma NotedLine(all: seq<Token>, levels: seq<int>, k: SimpleKey, t: Token)
    requires levels != [] && k.number == |all| && k.mark == t.start && Step(t) == 0 && Last(levels) <= t.start.column
    ensures OnLine(all + [t], levels, k)
  {
    hide FlowOf;
    assert (all + [t])[|all|..] == [t] && (all + [t])[..|all|] == all;
  }

  lemma NotedLaid(v: View, kind: Kind, at: Mark)
    requires Laid(v, at) && IsNodeStart(kind) && Here(v, at)
    ensures Laid(Put(Noted(v, at), kind, at), at)
  {
    hide FlowOf, LevelsOf, WellLaid, KeysLaid, OnLine;
    var t := Token(kind, at);
    TokenLaid(v, t);
    FlowSnoc(v.all, t);
    NotedKeys(v, t);
  }

  lemma FlowStartLaid(v: View, kind: Kind, at: Mark)
    requires Laid(v, at) && OpensFlow(kind) && Here(v, at)
    ensures var w := Put(Noted(v, at), kind, at);
            Laid(w.(keys := w.keys + [NoKey], flow := v.flow + 1, allowed := true), at)
  {
    hide FlowOf, LevelsOf, WellLaid, OnLine, RightOf;
    var t := Token(kind, at);
    TokenLaid(v, t);
    FlowSnoc(v.all, t);
    NotedKeys(v, t);
    var w := Put(Noted(v, at), kind, at);
    var keys := w.keys + [NoKey];
    forall i: nat | i < |keys|
      ensures KeyLaid(w.all, i, keys[i], at)
    {
      if i < |w.keys| {
        assert KeyLaid(w.all, i, w.keys[i], at);
      }
    }
  }

  lemma FlowEndLaid(v: View, kind: Kind, at: Mark)
    requires Laid(v, at) && ClosesFlow(kind) && Here(v, at) && !v.keys[v.flow].possible
    ensures var w := Put(v, kind, at).(allowed := false);
            Laid(if v.flow > 0 then w.(keys := w.keys[..v.flow], flow := v.flow - 1) else w, at)
  {
    hide FlowOf, LevelsOf, WellLaid, OnLine, RightOf;
    var t := Token(kind, at);
    TokenLaid(v, t);
    FlowSnoc(v.all, t);
    KeysAppend(v.all, v.keys, at, t);
    LineAppend(v.all, v.levels, v.keys[0], t);
    if v.flow > 0 {
      var keys := v.keys[..v.flow];
      forall i: nat | i < |keys|
        ensures KeyLaid(v.all + [t], i, keys[i], at)
      {
        assert KeyLaid(v.all + [t], i, v.keys[i], at);
      }
    }
  }

  /** The start of a block and its first entry or key, right of the innermost block. */
  lemma RolledLaid(v: View, start: Kind, kind: Kind, at: Mark)
    requires Laid(v, at) && Here(v, at) && !v.keys[v.flow].possible
    requires (start.BlockSequenceStart? && kind.BlockEntry?) || (start.BlockMappingStart? && (kind.Key? || kind.Value?))
    ensures Laid(Put(Rolled(v, start, at), kind, at), at)
  {
    hide FlowOf, LevelsOf, KeysLaid, Aligned, Opened;
    var t := Token(kind, at);
    if v.flow == 0 && Last(v.levels) < at.column {
      var s := Token(start, at);
      FlowSnoc(v.all, s);
      LevelsSnoc(v.all, s);
      assert (v.all + [s])[..|v.all|] == v.all;
      SnocLaid(v.all, s);
      FlowSnoc(v.all + [s], t);
      LevelsSnoc(v.all + [s], t);
      assert (v.all + [s] + [t])[..|v.all| + 1] == v.all + [s];
      SnocLaid(v.all + [s], t);
      RisingLevels(v.levels, at.column);
      KeysAppend(v.all, v.keys, at, s);
      KeysAppend(v.all + [s], v.keys, at, t);
    } else {
      PutLaid(v, kind, at, at);
    }
  }

  lemma RisingLevels(levels: seq<int>, column: int)
    requires Rising(levels) && Last(levels) < column
    ensures Rising(levels + [column])
  {
    var n := |levels| - 1;
    RisingPush(levels[..n], levels[n], column);
    assert levels[..n] + [levels[n]] == levels;
  }

  // ---------------------------------------------------------------- a simple key becomes a KEY

  /** The keys of the levels around keep their tokens, which come first. */
  lemma KeysAround(all: seq<Token>, keys: seq<SimpleKey>, at: Mark, all': seq<Token>, p: nat)
    requires KeysLaid(all, keys, at) && p <= |all| && p <= |all'| && all'[..p] == all[..p] && KeysBelow(keys, p)
    ensures KeysLaid(all', keys, at)
  {
    hide FlowOf;
    forall i: nat | i < |keys|
      ensures KeyLaid(all', i, keys[i], at)
    {
      assert KeyLaid(all, i, keys[i], at);
      if keys[i].possible {
        var n := keys[i].number;
        assert all'[..n] == all'[..p][..n] && all[..n] == all[..p][..n];
        assert all'[n] == all'[..p][n] && all[n] == all[..p][n];
      }
    }
  }

  lemma LineInsert(all: seq<Token>, levels: seq<int>, k: SimpleKey, p: nat, t: Token)
    requires levels != [] && OnLine(all, levels, k) && IsNeutral(t) && p <= |all| && FlowOf(all[..p]) > 0
    requires k.possible ==> k.number < p
    ensures OnLine(all[..p] + [t] + all[p..], levels, k)
  {
    hide FlowOf;
    if k.possible {
      var n, q := k.number, p - k.number;
      var a, b := all[..n], all[n..];
      var all' := all[..p] + [t] + all[p..];
      assert all'[..n] == a && all'[n..] == b[..q] + [t] + b[q..] && a + b[..q] == all[..p];
      var b' := b[..q] + [t] + b[q..];
      forall i | 0 <= i < |b'|
        ensures FlowOf(a + b'[..i]) == 0 ==> b'[i].start.column >= k.mark.column
      {
        if i <= q {
          assert b'[..i] == b[..i];
        } else {
          var j := i - q - 1;
          assert a + b'[..i] == all[..p] + [t] + b[q..][..j] && a + b[..i - 1] == all[..p] + b[q..][..j];
          FlowInsert(all[..p], t, b[q..][..j]);
          assert b'[i] == b[i - 1];
        }
      }
    }
  }

  lemma KeyIsLast(v: View, at: Mark)
    requires Laid(v, at) && v.keys[v.flow].possible
    ensures var k := v.keys[v.flow];
            && k.number < |v.all| && FlowOf(v.all[..k.number]) == v.flow && KeysBelow(Forgotten(v).keys, k.number)
            && (k.number > 0 ==> !OpensBlock(v.all[k.number - 1]))
  {
    hide FlowOf, LevelsOf, Aligned, RightOf, NoBlocks;
    var k := v.keys[v.flow];
    assert KeyLaid(v.all, v.flow, k, at);
    if k.number > 0 {
      assert OpenedAt(v.all, k.number - 1);
    }
  }

  /** A KEY put in front of a token that may be a key. */
  lemma WithKeyLaid(all: seq<Token>, p: nat, at: Mark)
    requires WellLaid(all) && Settled(all) && p < |all| && (p > 0 ==> !OpensBlock(all[p - 1]))
    requires FlowOf(all[..p]) == 0 ==> at.column >= Last(LevelsOf(all[..p]))
    ensures var s := WithKey(all, p, at, false);
            WellLaid(s) && Settled(s) && FlowOf(s) == FlowOf(all) && LevelsOf(s) == LevelsOf(all)
  {
    hide FlowOf, LevelsOf, WellLaid;
    var a, b, t := all[..p], all[p..], Token(Key, at);
    var s := WithKey(all, p, at, false);
    assert a + b == all && s == a + [t] + b;
    InsertKeyLaid(a, at, b);
    FlowInsert(a, t, b);
    LevelsInsert(a, t, b);
    assert s[|s| - 1] == all[|all| - 1];
  }

  lemma KeyedInFlow(v: View, at: Mark)
    requires Laid(v, at) && v.keys[v.flow].possible && v.flow > 0 && v.keys[v.flow].number < |v.all|
    ensures Laid(Keyed(v), at)
  {
    hide FlowOf, LevelsOf, KeysLaid, OnLine, WellLaid, Settled, WithKey;
    KeyIsLast(v, at);
    WithKeyLaid(v.all, v.keys[v.flow].number, v.keys[v.flow].mark);
    KeyedKeys(v, at);
    assert Keyed(v).levels == v.levels;
  }

  /** The keys around a key in a flow collection that has become a KEY. */
  lemma KeyedKeys(v: View, at: Mark)
    requires Laid(v, at) && v.keys[v.flow].possible && v.flow > 0 && v.keys[v.flow].number < |v.all|
    ensures var w := Keyed(v); KeysLaid(w.all, w.keys, at) && OnLine(w.all, v.levels, w.keys[0])
  {
    hide FlowOf, LevelsOf, KeysLaid, OnLine, WellLaid;
    var w, k := Keyed(v), v.keys[v.flow];
    KeyIsLast(v, at);
    var t := Token(Key, k.mark);
    assert w.all == v.all[..k.number] + [t] + v.all[k.number..];
    ForgottenLaid(v, at);
    KeysAround(v.all, Forgotten(v).keys, at, w.all, k.number);
    LineInsert(v.all, v.levels, w.keys[0], k.number, t);
  }

  lemma KeyedInBlock(v: View, at: Mark)
    requires Laid(v, at) && v.keys[0].possible && v.flow == 0 && v.keys[0].number < |v.all|
    ensures Laid(Keyed(v), at)
  {
    hide FlowOf, LevelsOf, KeysLaid, WellLaid, RightOf, NoBlocks, Settled, WithKey;
    var w, k := Keyed(v), v.keys[0];
    KeyIsLast(v, at);
    BlockKeyLaid(v.all, v.levels, k);
    ForgottenLaid(v, at);
    assert w.all[..k.number] == v.all[..k.number] by { WithKeyPrefix(v.all, k.number, k.mark); }
    KeysAround(v.all, w.keys, at, w.all, k.number);
    if Last(v.levels) < k.mark.column {
      RisingLevels(v.levels, k.mark.column);
    } else {
      assert w.levels == v.levels;
    }
  }

  lemma WithKeyPrefix(all: seq<Token>, p: nat, at: Mark)
    requires p < |all|
    ensures WithKey(all, p, at, true)[..p] == all[..p] && WithKey(all, p, at, false)[..p] == all[..p]
  {
  }

  /** The KEY of a simple key outside flow collections, with the start of the mapping that it opens. */
  lemma BlockKeyLaid(all: seq<Token>, levels: seq<int>, k: SimpleKey)
    requires WellLaid(all) && Settled(all) && levels == LevelsOf(all) && k.possible && OnLine(all, levels, k)
    requires FlowOf(all) == FlowOf(all[..k.number]) == 0 && (k.number > 0 ==> !OpensBlock(all[k.number - 1]))
    ensures var opens := Last(levels) < k.mark.column;
            var s := WithKey(all, k.number, k.mark, opens);
            && WellLaid(s) && Settled(s) && FlowOf(s) == 0
            && LevelsOf(s) == levels + if opens then [k.mark.column] else []
  {
    hide FlowOf, LevelsOf, WellLaid, RightOf, NoBlocks;
    var a, b, t := all[..k.number], all[k.number..], Token(Key, k.mark);
    assert a + b == all;
    LevelsStay(a, b);
    WithKeyLaid(all, k.number, k.mark);
    if Last(levels) < k.mark.column {
      assert WithKey(all, k.number, k.mark, false) == a + [t] + b;
      InsertStartLaid(a, k.mark, b);
      var s := WithKey(all, k.number, k.mark, true);
      assert s[|s| - 1] == all[|all| - 1];
    } else {
      assert levels + [] == levels;
    }
  }

  lemma KeyedLaid(v: View, at: Mark)
    requires Laid(v, at) && v.keys[v.flow].possible && Here(v, at) && v.keys[v.flow].number < |v.all|
    ensures Laid(Keyed(v), at) && Here(Keyed(v), at)
  {
    hide Laid;
    if v.flow > 0 {
      KeyedInFlow(v, at);
    } else {
      assert |v.keys| == 1 by { OneKey(v, at); }
      KeyedInBlock(v, at);
    }
  }

  lemma OneKey(v: View, at: Mark)
    requires Laid(v, at)
    ensures |v.keys| == v.flow + 1 && v.levels != []
  {
  }

  // ---------------------------------------------------------------- every lexeme

  lemma AllClosedLaid(v: View, kind: Kind, at: Mark, now: Mark)
    requires Laid(v, now) && IsNeutral(Token(kind, at))
    ensures Laid(Put(Forgotten(Unrolled(v, -1, at)), kind, at).(allowed := false), now)
  {
    hide Laid;
    OneKey(v, now);
    ForgottenLaid(v, now);
    var u := Forgotten(v);
    assert Unrolled(u, -1, at) == Forgotten(Unrolled(v, -1, at));
    UnrolledLaid(u, -1, at, now);
    var w := Unrolled(u, -1, at);
    PutLaid(w, kind, at, now);
    AllowLaid(Put(w, kind, at), false, now);
  }

  lemma AllowLaid(v: View, allowed: bool, at: Mark)
    requires Laid(v, at)
    ensures Laid(v.(allowed := allowed), at)
  {
  }

  lemma SightLaid(v: View, at: Mark, l: Lexeme)
    requires Laid(v, at) && Ready(v) && Here(v, at) && Fits(v, l)
    ensures Laid(AfterSight(v, at, l), at)
  {
    hide Laid, Put, Noted, Rolled, Keyed, Unrolled, Ready;
    OneKey(v, at);
    ForgottenLaid(v, at);
    var u := Forgotten(v);
    match l.sight {
      case EndOfInput => AllClosedLaid(v, StreamEnd, LineStart(at), at);
      case BlockScalar =>
        PutLaid(u, Scalar, at, at);
        AllowLaid(Put(u, Scalar, at), true, at);
      case Stray =>
      case Sees(kind) =>
        if kind.Directive? || kind.DocumentStart? || kind.DocumentEnd? {
          AllClosedLaid(v, kind, at, at);
        } else if OpensFlow(kind) {
          FlowStartLaid(v, kind, at);
        } else if ClosesFlow(kind) {
          FlowEndLaid(u, kind, at);
        } else if kind.FlowEntry? {
          PutLaid(u, FlowEntry, at, at);
          AllowLaid(Put(u, FlowEntry, at), true, at);
        } else if kind.Value? && v.keys[v.flow].possible {
          KeyNumber(v, at);
          KeyedLaid(v, at);
          PutLaid(Keyed(v), Value, at, at);
          AllowLaid(Put(Keyed(v), Value, at), false, at);
        } else if kind.BlockEntry? || kind.Key? || kind.Value? {
          var start := if kind.BlockEntry? then BlockSequenceStart else BlockMappingStart;
          RolledLaid(u, start, kind, at);
          AllowLaid(Put(Rolled(u, start, at), kind, at), kind.BlockEntry? || v.flow == 0, at);
        } else {
          NotedLaid(v, kind, at);
          AllowLaid(Put(Noted(v, at), kind, at), kind.Scalar? && l.spilled, at);
        }
    }
  }

  lemma KeyNumber(v: View, at: Mark)
    requires Laid(v, at) && v.keys[v.flow].possible
    ensures v.keys[v.flow].number < |v.all|
  {
    KeyIsLast(v, at);
  }

  /** Every accepted lexeme keeps the layout, if the lexemes come in reading order. */
  lemma LexemeLaid(v: View, at: Mark, l: Lexeme)
    requires Laid(v, at) && Ready(v) && Before(at, l.start) && Accepts(v, l)
    ensures Laid(AfterLexeme(v, l), l.start)
  {
    hide Laid, AfterSight;
    ArrivedLaid(v, at, l);
    var u := Arrived(v, l);
    OneKey(u, l.start);
    UnrolledLaid(u, l.start.column, l.start, l.start);
    var w := Unrolled(u, l.start.column, l.start);
    LaidIsReady(w, l.start);
    SightLaid(w, l.start, l);
  }
}
