/**
 What the token scanner keeps true of its token queue, its simple keys and its indentation
 stack, stated on values so that it can be shown once for every way the queue changes.
 */
module TokenQueue {

  /** A position in the input: `yaml_mark_t`. */
  datatype Mark = Mark(index: nat, line: nat, column: nat)

  datatype Kind =
    | StreamStart | StreamEnd | Directive | DocumentStart | DocumentEnd
    | BlockSequenceStart | BlockMappingStart | BlockEnd
    | FlowSequenceStart | FlowMappingStart | FlowSequenceEnd | FlowMappingEnd
    | BlockEntry | FlowEntry | Key | Value | Alias | Anchor | Tag | Scalar

  datatype Token = Token(kind: Kind, start: Mark)

  /** `number` counts tokens from the start of the stream, handed to the parser or not. */
  datatype SimpleKey = SimpleKey(possible: bool, required: bool, number: nat, mark: Mark)

  const NoKey := SimpleKey(false, false, 0, Mark(0, 0, 0))

  // ---------------------------------------------------------------- simple keys

  /** A possible key's first token is still in the queue, and a deeper key comes later. */
  predicate KeysInQueue(keys: seq<SimpleKey>, live: seq<Token>, parsed: nat) {
    && (forall i :: 0 <= i < |keys| && keys[i].possible ==>
          parsed <= keys[i].number < parsed + |live| && live[keys[i].number - parsed].start == keys[i].mark)
    && (forall i, j :: 0 <= i < j < |keys| && keys[i].possible && keys[j].possible ==> keys[i].number < keys[j].number)
  }

  /** Forgetting keys is always possible. */
  predicate Forgets(keys': seq<SimpleKey>, keys: seq<SimpleKey>) {
    && |keys'| == |keys|
    && forall i :: 0 <= i < |keys| ==> keys'[i] == keys[i] || keys'[i] == keys[i].(possible := false)
  }

  lemma KeysAfterForget(keys: seq<SimpleKey>, keys': seq<SimpleKey>, live: seq<Token>, parsed: nat)
    requires KeysInQueue(keys, live, parsed) && Forgets(keys', keys)
    ensures KeysInQueue(keys', live, parsed)
  {
  }

  function Inserted(live: seq<Token>, p: nat, t: Token): (s: seq<Token>)
    requires p <= |live|
    ensures |s| == |live| + 1
  {
    live[..p] + [t] + live[p..]
  }

  /** A new key at the deepest level, together with the token it starts with. */
  lemma KeysAfterSave(keys: seq<SimpleKey>, live: seq<Token>, parsed: nat, k: SimpleKey, t: Token)
    requires keys != [] && KeysInQueue(keys, live, parsed)
    requires k.number == parsed + |live| && k.mark == t.start
    ensures KeysInQueue(keys[|keys| - 1 := k], Inserted(live, |live|, t), parsed)
  {
    var keys' := keys[|keys| - 1 := k];
    var s := Inserted(live, |live|, t);
    forall i | 0 <= i < |keys'| && keys'[i].possible
      ensures parsed <= keys'[i].number < parsed + |s| && s[keys'[i].number - parsed].start == keys'[i].mark
    {
      if i < |keys| - 1 {
        assert keys'[i] == keys[i];
      }
    }
  }

  function Saved(keys: seq<SimpleKey>, allowed: bool, k: SimpleKey): (s: seq<SimpleKey>)
    requires keys != []
    ensures |s| == |keys|
  {
    if allowed then keys[|keys| - 1 := k] else keys
  }

  lemma InsertedLast(live: seq<Token>, t: Token)
    ensures Inserted(live, |live|, t) == live + [t]
  {
  }

  predicate KeysBelow(keys: seq<SimpleKey>, bound: int) {
    forall i :: 0 <= i < |keys| && keys[i].possible ==> keys[i].number < bound
  }

  lemma KeysBelowEnd(keys: seq<SimpleKey>, live: seq<Token>, parsed: nat)
    requires KeysInQueue(keys, live, parsed)
    ensures KeysBelow(keys, parsed + |live|)
  {
  }

  /** Putting a token in front of the deepest key's first token moves no other key. */
  lemma KeysAfterInsert(keys: seq<SimpleKey>, live: seq<Token>, parsed: nat, p: nat, t: Token)
    requires KeysInQueue(keys, live, parsed) && p <= |live|
    requires KeysBelow(keys, parsed + p)
    ensures KeysInQueue(keys, Inserted(live, p, t), parsed)
  {
    var s := Inserted(live, p, t);
    forall i | 0 <= i < |keys| && keys[i].possible ensures s[keys[i].number - parsed].start == keys[i].mark {
      assert s[keys[i].number - parsed] == live[keys[i].number - parsed];
    }
  }

  lemma KeysAfterToken(keys: seq<SimpleKey>, live: seq<Token>, parsed: nat, allowed: bool, k: SimpleKey, t: Token)
    requires keys != [] && KeysInQueue(keys, live, parsed)
    requires k.number == parsed + |live| && k.mark == t.start
    ensures KeysInQueue(Saved(keys, allowed, k), Inserted(live, |live|, t), parsed)
  {
    if allowed {
      KeysAfterSave(keys, live, parsed, k, t);
    } else {
      KeysAfterInsert(keys, live, parsed, |live|, t);
    }
  }

  /** The deepest possible key comes last: taking it out leaves only keys before its token. */
  lemma LastKey(keys: seq<SimpleKey>, live: seq<Token>, parsed: nat)
    requires keys != [] && KeysInQueue(keys, live, parsed) && keys[|keys| - 1].possible
    ensures var k := keys[|keys| - 1]; var rest := keys[|keys| - 1 := k.(possible := false)];
      && parsed <= k.number < parsed + |live| && live[k.number - parsed].start == k.mark
      && KeysInQueue(rest, live, parsed) && KeysBelow(rest, k.number)
  {
    var k := keys[|keys| - 1];
    var rest := keys[|keys| - 1 := k.(possible := false)];
    KeysAfterForget(keys, rest, live, parsed);
  }

  /** A KEY put in at `p`, after the start of the block it opens if it opens one. */
  function WithKey(live: seq<Token>, p: nat, at: Mark, opens: bool): (s: seq<Token>)
    requires p < |live|
    ensures |s| == |live| + (if opens then 2 else 1)
  {
    var head := if opens then [Token(BlockMappingStart, at), Token(Key, at)] else [Token(Key, at)];
    live[..p] + head + live[p..]
  }

  lemma InsertedTwice(live: seq<Token>, p: nat, at: Mark)
    requires p < |live|
    ensures Inserted(live, p, Token(Key, at)) == WithKey(live, p, at, false)
    ensures Inserted(Inserted(live, p, Token(Key, at)), p, Token(BlockMappingStart, at)) == WithKey(live, p, at, true)
  {
    var s := Inserted(live, p, Token(Key, at));
    assert s[..p] == live[..p] && s[p..] == [Token(Key, at)] + live[p..];
  }

  /** The head can be handed out when no key starts there. */
  lemma KeysAfterTake(keys: seq<SimpleKey>, live: seq<Token>, parsed: nat)
    requires live != [] && KeysInQueue(keys, live, parsed)
    requires forall i :: 0 <= i < |keys| && keys[i].possible ==> keys[i].number != parsed
    ensures KeysInQueue(keys, live[1..], parsed + 1)
  {
  }

  lemma KeysAfterShrink(keys: seq<SimpleKey>, live: seq<Token>, parsed: nat)
    requires keys != [] && KeysInQueue(keys, live, parsed)
    ensures KeysInQueue(keys[..|keys| - 1], live, parsed)
    ensures KeysInQueue(keys + [NoKey], live, parsed)
  {
  }

  // ---------------------------------------------------------------- indentation

  /** Strictly increasing from -1, the current level last. */
  predicate Rising(levels: seq<int>) {
    levels != [] && levels[0] == -1 && forall i, j :: 0 <= i < j < |levels| ==> levels[i] < levels[j]
  }

  function Step(t: Token): int {
    if t.kind.BlockSequenceStart? || t.kind.BlockMappingStart? then 1 else if t.kind.BlockEnd? then -1 else 0
  }

  /** Block starts minus block ends. */
  function Depth(ts: seq<Token>): int {
    if ts == [] then 0 else Depth(ts[..|ts| - 1]) + Step(ts[|ts| - 1])
  }

  /** No block end comes before the start it belongs to. */
  predicate Nested(ts: seq<Token>) {
    forall n :: 0 <= n <= |ts| ==> Depth(ts[..n]) >= 0
  }

  lemma DepthAppend(ts: seq<Token>, t: Token)
    ensures Depth(ts + [t]) == Depth(ts) + Step(t)
  {
    assert (ts + [t])[..|ts|] == ts;
  }

  lemma NestedAppend(ts: seq<Token>, t: Token)
    requires Nested(ts) && Depth(ts) + Step(t) >= 0
    ensures Nested(ts + [t]) && Depth(ts + [t]) == Depth(ts) + Step(t)
  {
    DepthAppend(ts, t);
    var s := ts + [t];
    forall n | 0 <= n <= |s| ensures Depth(s[..n]) >= 0 {
      if n <= |ts| {
        assert s[..n] == ts[..n];
      } else {
        assert s[..n] == s;
      }
    }
  }

  lemma {:induction false} DepthInsert(a: seq<Token>, t: Token, b: seq<Token>)
    ensures Depth(a + [t] + b) == Depth(a + b) + Step(t)
    decreases |b|
  {
    if b == [] {
      assert a + [t] + b == a + [t] && a + b == a;
      DepthAppend(a, t);
    } else {
      var b', x := b[..|b| - 1], b[|b| - 1];
      assert a + [t] + b == (a + [t] + b') + [x] && a + b == (a + b') + [x];
      DepthInsert(a, t, b');
      DepthAppend(a + [t] + b', x);
      DepthAppend(a + b', x);
    }
  }

  /** A token other than a block end may be put in anywhere. */
  lemma NestedInsert(a: seq<Token>, t: Token, b: seq<Token>)
    requires Nested(a + b) && Step(t) >= 0
    ensures Nested(a + [t] + b) && Depth(a + [t] + b) == Depth(a + b) + Step(t)
  {
    DepthInsert(a, t, b);
    var s := a + [t] + b;
    forall n | 0 <= n <= |s| ensures Depth(s[..n]) >= 0 {
      if n <= |a| {
        assert s[..n] == (a + b)[..n];
      } else {
        var m := n - |a| - 1;
        assert s[..n] == a + [t] + b[..m] && (a + b)[..|a| + m] == a + b[..m];
        DepthInsert(a, t, b[..m]);
      }
    }
  }

  // ---------------------------------------------------------------- the two together

  /** The indentation stack against every token produced so far. */
  predicate Blocks(handed: seq<Token>, live: seq<Token>, indents: seq<int>, indent: int) {
    && Rising(indents + [indent])
    && Nested(handed + live)
    && Depth(handed + live) == |indents|
  }

  /** The scanner before its first token. */
  lemma Fresh()
    ensures Blocks([], [], [], -1) && KeysInQueue([NoKey], [], 0)
  {
    var none: seq<int>, nothing: seq<Token> := [], [];
    assert none + [-1] == [-1];
    assert nothing + nothing == [];
  }

  lemma InsertedInAll(handed: seq<Token>, live: seq<Token>, p: nat, t: Token)
    requires p <= |live|
    ensures handed + Inserted(live, p, t) == (handed + live[..p]) + [t] + live[p..]
    ensures handed + live == (handed + live[..p]) + live[p..]
  {
    assert live == live[..p] + live[p..];
  }

  lemma BlocksPlain(handed: seq<Token>, live: seq<Token>, p: nat, t: Token, indents: seq<int>, indent: int)
    requires Blocks(handed, live, indents, indent) && p <= |live| && Step(t) == 0
    ensures Blocks(handed, Inserted(live, p, t), indents, indent)
  {
    InsertedInAll(handed, live, p, t);
    NestedInsert(handed + live[..p], t, live[p..]);
  }

  lemma RisingPush(indents: seq<int>, indent: int, column: int)
    requires Rising(indents + [indent]) && indent < column
    ensures Rising((indents + [indent]) + [column])
  {
    var s := indents + [indent];
    forall i, j | 0 <= i < j < |s + [column]| ensures (s + [column])[i] < (s + [column])[j] {
      if j == |s| {
        assert s[i] <= s[|s| - 1];
      }
    }
  }

  /** A start token may be put in anywhere, as far as nesting goes, when a deeper level is pushed. */
  lemma BlocksRoll(handed: seq<Token>, live: seq<Token>, p: nat, t: Token, indents: seq<int>, indent: int, column: int)
    requires Blocks(handed, live, indents, indent) && p <= |live| && Step(t) == 1 && indent < column
    ensures Blocks(handed, Inserted(live, p, t), indents + [indent], column)
  {
    InsertedInAll(handed, live, p, t);
    NestedInsert(handed + live[..p], t, live[p..]);
    RisingPush(indents, indent, column);
  }

  lemma RisingPop(indents: seq<int>, indent: int)
    requires Rising(indents + [indent]) && indent > -1
    ensures indents != [] && Rising(indents[..|indents| - 1] + [indents[|indents| - 1]])
    ensures indents[|indents| - 1] < indent
  {
    var s := indents + [indent];
    assert indents != [] by {
      assert s[0] == -1;
    }
    assert indents[..|indents| - 1] + [indents[|indents| - 1]] == indents;
    forall i, j | 0 <= i < j < |indents| ensures indents[i] < indents[j] {
      assert s[i] == indents[i] && s[j] == indents[j];
    }
    assert s[|indents| - 1] < s[|indents|];
  }

  /** There is a level to go back to, and a block end for it. */
  lemma BlocksUnroll(handed: seq<Token>, live: seq<Token>, t: Token, indents: seq<int>, indent: int)
    requires Blocks(handed, live, indents, indent) && indent > -1 && t.kind.BlockEnd?
    ensures indents != [] && indents[|indents| - 1] < indent
    ensures Blocks(handed, Inserted(live, |live|, t), indents[..|indents| - 1], indents[|indents| - 1])
  {
    RisingPop(indents, indent);
    NestedAppend(handed + live, t);
    assert handed + Inserted(live, |live|, t) == (handed + live) + [t];
  }

  function Ends(n: nat, at: Mark): (s: seq<Token>)
    ensures |s| == n
  {
    if n == 0 then [] else Ends(n - 1, at) + [Token(BlockEnd, at)]
  }

  lemma BlocksTake(handed: seq<Token>, live: seq<Token>, indents: seq<int>, indent: int)
    requires Blocks(handed, live, indents, indent) && live != []
    ensures Blocks(handed + [live[0]], live[1..], indents, indent)
  {
    assert (handed + [live[0]]) + live[1..] == handed + live;
  }

  /** What has been handed out is nested however the queue still changes. */
  lemma BlocksHanded(handed: seq<Token>, live: seq<Token>, indents: seq<int>, indent: int)
    requires Blocks(handed, live, indents, indent)
    ensures Nested(handed)
  {
    forall n | 0 <= n <= |handed| ensures Depth(handed[..n]) >= 0 {
      assert handed[..n] == (handed + live)[..n];
    }
  }

  /** At the bottom level every block that was started has been ended. */
  lemma BlocksClosed(handed: seq<Token>, live: seq<Token>, indents: seq<int>, indent: int)
    requires Blocks(handed, live, indents, indent) && indent <= -1
    ensures indents == [] && indent == -1 && Depth(handed + live) == 0
  {
    var s := indents + [indent];
    assert s[0] == -1 && s[|indents|] == indent;
  }

  // ---------------------------------------------------------------- the end of the stream

  predicate NoEnd(ts: seq<Token>) { forall i :: 0 <= i < |ts| ==> !ts[i].kind.StreamEnd? }

  /** Only the last token can be the end of the stream. */
  predicate EndsOnlyLast(ts: seq<Token>) { ts != [] && NoEnd(ts[..|ts| - 1]) }

  lemma LastAdded(ts: seq<Token>, t: Token)
    ensures NoEnd(ts) ==> EndsOnlyLast(ts + [t])
    ensures EndsOnlyLast([t])
  {
    assert (ts + [t])[..|ts|] == ts;
  }

  lemma PlainAdded(ts: seq<Token>, t: Token)
    requires !t.kind.StreamEnd?
    ensures NoEnd(ts + [t]) == NoEnd(ts)
  {
    assert forall i :: 0 <= i < |ts| ==> (ts + [t])[i] == ts[i];
  }

  lemma {:induction false} BlockEndsAdded(ts: seq<Token>, n: nat, at: Mark)
    ensures NoEnd(ts + Ends(n, at)) == NoEnd(ts)
  {
    hide NoEnd;
    if n == 0 {
      assert ts + Ends(n, at) == ts;
    } else {
      BlockEndsAdded(ts, n - 1, at);
      PlainAdded(ts + Ends(n - 1, at), Token(BlockEnd, at));
      assert ts + Ends(n, at) == ts + Ends(n - 1, at) + [Token(BlockEnd, at)];
    }
  }

  lemma KeyAdded(ts: seq<Token>, p: nat, at: Mark, opens: bool)
    requires p < |ts|
    ensures NoEnd(ts) ==> NoEnd(WithKey(ts, p, at, opens))
  {
  }

  lemma NothingHasNoEnd(ts: seq<Token>)
    ensures ts == [] ==> NoEnd(ts)
  {
  }

  lemma LastDecides(ts: seq<Token>)
    ensures EndsOnlyLast(ts) && !ts[|ts| - 1].kind.StreamEnd? ==> NoEnd(ts)
  {
    if EndsOnlyLast(ts) {
      assert ts == ts[..|ts| - 1] + [ts[|ts| - 1]];
    }
  }

  /** When the end of the stream is handed out, nothing is left behind it. */
  lemma EndTaken(ts: seq<Token>)
    requires EndsOnlyLast(ts)
    ensures ts[0].kind.StreamEnd? ==> ts[1..] == []
    ensures ts[1..] != [] ==> EndsOnlyLast(ts[1..]) && NoEnd(ts[1..]) == NoEnd(ts)
  {
    if |ts| > 1 {
      assert !ts[..|ts| - 1][0].kind.StreamEnd?;
      assert ts[1..][..|ts| - 2] == ts[..|ts| - 1][1..];
      assert NoEnd(ts[1..]) ==> NoEnd(ts) by {
        assert ts == [ts[0]] + ts[1..];
      }
    }
  }
}
