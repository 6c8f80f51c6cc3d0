/**
 The tokenizer above the level of characters: simple keys, flow levels, the indentation stack
 and the token queue.

 What the scanner sees in the text is a parameter: a `Lexeme` says which indicator or scalar
 starts where, and where it ends. Every property below holds for every sequence of lexemes, but
 for the layout of the tokens, which needs them in reading order.
 */
module TokenScanner {
  import opened TokenQueue
  import opened TokenLayout

  /** The token a lexeme ends in. */
  function TokenFor(sight: Sight): Kind {
    match sight
    case EndOfInput => StreamEnd
    case Sees(kind) => kind
    case _ => Scalar
  }

  /** The token that opens the block an indicator belongs to. */
  function StartFor(kind: Kind): Kind {
    if kind.BlockEntry? then BlockSequenceStart else BlockMappingStart
  }

  predicate AllEnd(input: seq<Lexeme>) {
    forall i :: 0 <= i < |input| ==> input[i].sight.EndOfInput?
  }

  /** At the end of the input the scanner sees nothing but the end. */
  predicate Sticky(input: seq<Lexeme>) {
    forall i, j :: 0 <= i < j < |input| && input[i].sight.EndOfInput? ==> input[j].sight.EndOfInput?
  }

  lemma Appended(tokens: seq<Token>, head: nat, t: Token)
    requires head <= |tokens|
    ensures (tokens + [t])[head..] == Inserted(tokens[head..], |tokens| - head, t)
  {
  }

  /** Copying the tail one place up and overwriting its first element inserts there. */
  lemma Shifted(tokens: seq<Token>, head: nat, pos: nat, t: Token, now: seq<Token>)
    requires head + pos <= |tokens|
    requires var at := head + pos; now == ((tokens + [t])[..at + 1] + (tokens + [t])[at..|tokens|])[at := t]
    ensures now[head..] == Inserted(tokens[head..], pos, t)
  {
    var at := head + pos;
    assert now == tokens[..at] + [t] + tokens[at..];
  }

  lemma PutInAll(handed: seq<Token>, live: seq<Token>, more: seq<Token>)
    ensures handed + (live + more) == (handed + live) + more
  {
  }

  lemma KeyInAll(handed: seq<Token>, live: seq<Token>, p: nat, at: Mark, opens: bool)
    requires p < |live|
    ensures handed + WithKey(live, p, at, opens) == WithKey(handed + live, |handed| + p, at, opens)
  {
    var all := handed + live;
    assert all[..|handed| + p] == handed + live[..p] && all[|handed| + p..] == live[p..];
  }

  lemma {:induction false} KeptIs(levels: seq<int>, r: seq<int>, column: int)
    requires r <= levels && r != [] && r[|r| - 1] <= column && forall j :: |r| <= j < |levels| ==> levels[j] > column
    ensures Kept(levels, column) == r
    decreases |levels|
  {
    if |r| < |levels| {
      KeptIs(levels[..|levels| - 1], r, column);
    }
  }

  lemma FitsUnrolled(v: View, column: int, at: Mark, l: Lexeme)
    requires v.flow < |v.keys|
    ensures var w := Unrolled(v, column, at); w.flow < |w.keys| && Fits(w, l) == Fits(v, l)
  {
  }

  /** In reading order, behind `at`. */
  ghost predicate Follows(at: Mark, input: seq<Lexeme>) {
    && (forall i :: 0 <= i < |input| ==> Before(at, input[i].start))
    && (forall i, j :: 0 <= i < j < |input| ==> Before(input[i].start, input[j].start))
  }

  lemma UnstaledLaid(v: View, at: Mark, now: Mark)
    requires Laid(v, at)
    ensures Laid(v.(keys := Unstaled(v.keys, now)), at)
  {
    hide Laid;
    ForgetLaid(v, Unstaled(v.keys, now), v.allowed, at);
  }

  /** The first token of a stream lies where it likes. */
  lemma FirstLaid(first: Mark, at: Mark)
    ensures Laid(View([Token(StreamStart, first)], [-1], [NoKey], 0, true), at)
  {
    var t := Token(StreamStart, first);
    assert [t][..0] == [];
    assert AlignedAt([t], 0) && OpenedAt([t], 0);
  }

  /** What a lexeme leaves behind, from what was there before it. */
  lemma NextLaid(began: bool, was: View, at: Mark, input: seq<Lexeme>, first: Mark) returns (next: Mark)
    requires input != [] && Follows(at, input)
    requires began ==> Laid(was, at) && Ready(was) && Accepts(was, input[0])
    ensures Follows(next, input[1..])
    ensures began ==> Ready(was) && Laid(AfterLexeme(was, input[0]), next)
    ensures !began ==> Laid(View([Token(StreamStart, first)], [-1], [NoKey], 0, true), next)
  {
    hide Laid, AfterLexeme, Accepts;
    if began {
      next := input[0].start;
      LexemeLaid(was, at, input[0]);
    } else {
      next := at;
      FirstLaid(first, at);
    }
  }

  lemma RollForget(v: View, kind: Kind, at: Mark)
    requires v.flow < |v.keys| && v.levels != []
    ensures Forgotten(Rolled(v, kind, at)) == Rolled(Forgotten(v), kind, at)
    ensures v.flow > 0 ==> Rolled(v, kind, at) == v
  {
  }

  class Scanner {
    var tokens: seq<Token>
    var capacity: nat
    var tokensHead: nat
    var tokensParsed: nat
    var tokenAvailable: bool
    var streamStartProduced: bool
    var streamEndProduced: bool
    var indent: int
    var indents: seq<int>
    var simpleKeyAllowed: bool
    var simpleKeys: seq<SimpleKey>
    var flowLevel: nat
    var mark: Mark
    var failed: bool
    /** Every token handed to the parser, in order. */
    ghost var handed: seq<Token>

    ghost predicate Queue()
      reads `tokens, `tokensHead, `capacity, `handed, `tokensParsed
    {
      tokensHead <= |tokens| <= capacity && |handed| == tokensParsed
    }

    /** The tokens produced and not yet handed out. */
    function Live(): (s: seq<Token>)
      requires tokensHead <= |tokens|
      reads `tokens, `tokensHead
    {
      tokens[tokensHead..]
    }

    ghost function Levels(): (s: seq<int>)
      reads `indent, `indents
    {
      indents + [indent]
    }

    /** Every token so far, and what decides on the next ones. */
    ghost function Now(): (v: View)
      requires tokensHead <= |tokens|
      reads `tokens, `tokensHead, `handed, `indent, `indents, `simpleKeys, `flowLevel, `simpleKeyAllowed
    {
      View(handed + Live(), Levels(), simpleKeys, flowLevel, simpleKeyAllowed)
    }

    ghost predicate BlocksKept()
      requires Queue()
      reads `tokens, `tokensHead, `capacity, `handed, `tokensParsed, `indents, `indent
    {
      Blocks(handed, Live(), indents, indent)
    }

    ghost predicate KeysKept()
      requires Queue()
      reads `tokens, `tokensHead, `capacity, `handed, `tokensParsed, `simpleKeys, `flowLevel
    {
      |simpleKeys| == flowLevel + 1 && KeysInQueue(simpleKeys, Live(), tokensParsed)
    }

    /** No possible key starts at the head of the queue. */
    ghost predicate HeadFree()
      reads `simpleKeys, `tokensParsed
    {
      forall i :: 0 <= i < |simpleKeys| && simpleKeys[i].possible ==> simpleKeys[i].number != tokensParsed
    }

    ghost predicate Started()
      reads `tokens, `tokensHead, `capacity, `handed, `tokensParsed, `indents, `indent, `simpleKeys, `flowLevel,
        `streamStartProduced
    {
      streamStartProduced && Queue() && BlocksKept() && KeysKept()
    }

    ghost predicate Unstarted()
      reads `tokens, `tokensHead, `capacity, `handed, `tokensParsed, `indents, `simpleKeys, `flowLevel,
        `streamStartProduced
    {
      && !streamStartProduced && Queue() && Live() == [] && handed == []
      && simpleKeys == [] && indents == [] && flowLevel == 0
    }

    /**
     The end of the stream comes last in the queue. If no flow collection was open there, no block
     is open either and no key can be waiting for its `:`.
     */
    ghost predicate EndKept()
      requires Queue()
      reads `tokens, `tokensHead, `capacity, `handed, `tokensParsed, `indents, `simpleKeys, `flowLevel
    {
      !NoEnd(Live()) && flowLevel == 0 ==>
        EndsOnlyLast(Live()) && indents == [] && forall i :: 0 <= i < |simpleKeys| ==> !simpleKeys[i].possible
    }

    /** What holds between any two calls until the scanner reports an error. */
    ghost predicate Valid()
      reads this
    {
      && (Started() || Unstarted())
      && (tokenAvailable ==> Live() != [] && HeadFree())
    }

    constructor ()
      ensures Valid() && !failed && !streamEndProduced && !tokenAvailable && Unstarted()
    {
      tokens, capacity, tokensHead, tokensParsed, tokenAvailable := [], 0, 0, 0, false;
      streamStartProduced, streamEndProduced, indent, indents := false, false, 0, [];
      simpleKeyAllowed, simpleKeys, flowLevel, mark, failed := false, [], 0, Mark(0, 0, 0), false;
      handed := [];
    }

    /** Moves the live tokens to the front of a full buffer, or else gets a larger one. */
    method MakeRoom()
      requires Queue()
      modifies `tokens, `tokensHead, `capacity
      ensures Queue() && Live() == old(Live()) && |tokens| < capacity
    {
      if tokensHead > 0 && |tokens| == capacity {
        tokens := tokens[tokensHead..];
        tokensHead := 0;
      }
      if |tokens| == capacity {
        capacity := 2 * capacity + 1;
      }
    }

    /** Compacts when the buffer is full, appends, and shifts the tail up when a place is given. */
    method InsertToken(pos: int, t: Token)
      requires Queue() && pos <= |Live()|
      modifies `tokens, `tokensHead, `capacity
      ensures Queue()
      ensures Live() == Inserted(old(Live()), if pos < 0 then |old(Live())| else pos, t)
    {
      MakeRoom();
      ghost var was := tokens;
      tokens := tokens + [t];
      Appended(was, tokensHead, t);
      if pos < 0 {
        return;
      }
      var at := tokensHead + pos;
      tokens := tokens[..at + 1] + tokens[at..|tokens| - 1];
      tokens := tokens[at := t];
      Shifted(was, tokensHead, pos, t, tokens);
    }

    /** Appends a token that neither starts nor ends a block. */
    method AppendToken(t: Token)
      requires Started() && Step(t) == 0
      modifies `tokens, `tokensHead, `capacity
      ensures Started()
      ensures Live() == Inserted(old(Live()), |old(Live())|, t)
    {
      ghost var live := Live();
      InsertToken(-1, t);
      BlocksPlain(handed, live, |live|, t, indents, indent);
      KeysAfterInsert(simpleKeys, live, tokensParsed, |live|, t);
    }

    /** Drops the keys that can no longer be simple; a required one among them is an error. */
    method StaleSimpleKeys() returns (ok: bool)
      requires Started()
      modifies `simpleKeys, `failed
      ensures Started() && Forgets(simpleKeys, old(simpleKeys))
      ensures ok == forall k :: k in old(simpleKeys) && Stale(k, mark) ==> !k.required
      ensures ok ==> failed == old(failed)
      ensures ok ==> Now() == old(Now()).(keys := Unstaled(old(simpleKeys), mark))
      ensures ok ==> forall i :: 0 <= i < |simpleKeys| && simpleKeys[i].possible ==>
        simpleKeys[i].mark.line >= mark.line && mark.index <= simpleKeys[i].mark.index + 1024
      ensures !ok ==> failed
    {
      ghost var keys := simpleKeys;
      var i := 0;
      while i < |simpleKeys|
        invariant 0 <= i <= |simpleKeys| == |keys|
        invariant Forgets(simpleKeys, keys)
        invariant forall j :: 0 <= j < i ==> simpleKeys[j].possible == (keys[j].possible && !Stale(keys[j], mark))
        invariant forall j :: 0 <= j < i && Stale(keys[j], mark) ==> !keys[j].required
        invariant forall j :: i <= j < |keys| ==> simpleKeys[j] == keys[j]
        invariant failed == old(failed)
      {
        if Stale(simpleKeys[i], mark) {
          if simpleKeys[i].required {
            failed := true;
            KeysAfterForget(keys, simpleKeys, Live(), tokensParsed);
            assert keys[i] in keys;
            return false;
          }
          simpleKeys := simpleKeys[i := simpleKeys[i].(possible := false)];
        }
        i := i + 1;
      }
      KeysAfterForget(keys, simpleKeys, Live(), tokensParsed);
      ok := true;
    }

    /** The key of the current level may be dropped: it is not one that is required. */
    predicate KeyFree()
      requires |simpleKeys| == flowLevel + 1
      reads `simpleKeys, `flowLevel
    {
      !(simpleKeys[flowLevel].possible && simpleKeys[flowLevel].required)
    }

    method RemoveSimpleKey() returns (ok: bool)
      requires Started()
      modifies `simpleKeys, `failed
      ensures Started() && ok == old(KeyFree())
      ensures ok ==> failed == old(failed)
      ensures ok ==> Now() == Forgotten(old(Now()))
      ensures !ok ==> failed
    {
      ghost var keys := simpleKeys;
      var i := |simpleKeys| - 1;
      if simpleKeys[i].possible && simpleKeys[i].required {
        failed := true;
        return false;
      }
      simpleKeys := simpleKeys[i := simpleKeys[i].(possible := false)];
      KeysAfterForget(keys, simpleKeys, Live(), tokensParsed);
      ok := true;
    }

    /** What a key starting here would be recorded as. */
    function NewKey(): (k: SimpleKey)
      requires tokensHead <= |tokens|
      reads `flowLevel, `indent, `mark, `tokensParsed, `tokens, `tokensHead
    {
      SimpleKey(true, flowLevel == 0 && indent == mark.column, tokensParsed + |Live()|, mark)
    }

    /** The key's first token is appended by the caller. */
    method SaveSimpleKey() returns (ok: bool)
      requires Started()
      modifies `simpleKeys, `failed
      ensures ok ==> failed == old(failed) && simpleKeys == Saved(old(simpleKeys), simpleKeyAllowed, NewKey())
      ensures ok ==> Now() == Noted(old(Now()), mark)
      ensures !ok ==> failed
      ensures ok == (simpleKeyAllowed ==> old(KeyFree()))
    {
      hide Blocks, KeysInQueue, Live;
      ok := true;
      if simpleKeyAllowed {
        var key := NewKey();
        ok := RemoveSimpleKey();
        if !ok {
          return;
        }
        simpleKeys := simpleKeys[|simpleKeys| - 1 := key];
      }
    }

    method IncreaseFlowLevel()
      modifies `simpleKeys, `flowLevel
      ensures simpleKeys == old(simpleKeys) + [NoKey] && flowLevel == old(flowLevel) + 1
    {
      simpleKeys := simpleKeys + [NoKey];
      flowLevel := flowLevel + 1;
    }

    method DecreaseFlowLevel()
      requires Started()
      modifies `simpleKeys, `flowLevel
      ensures Started()
      ensures flowLevel == if old(flowLevel) > 0 then old(flowLevel) - 1 else 0
      ensures simpleKeys == old(simpleKeys)[..flowLevel + 1]
    {
      if flowLevel > 0 {
        KeysAfterShrink(simpleKeys, Live(), tokensParsed);
        flowLevel := flowLevel - 1;
        simpleKeys := simpleKeys[..|simpleKeys| - 1];
      }
    }

    /** Whether a column opens a new block here. */
    predicate Opens(column: int)
      reads `flowLevel, `indent
    {
      flowLevel == 0 && indent < column
    }

    /** The place in the queue that a token number, or -1 for the end, stands for. */
    function Place(number: int): (p: int)
      requires tokensHead <= |tokens|
      reads `tokens, `tokensHead, `tokensParsed
    {
      if number < 0 then |Live()| else number - tokensParsed
    }

    /** A deeper column opens a block: one level is pushed and the start token goes where asked. */
    method RollIndent(column: int, number: int, kind: Kind, at: Mark)
      requires Started() && (kind.BlockSequenceStart? || kind.BlockMappingStart?)
      requires -1 <= number && 0 <= Place(number) <= |Live()|
      requires KeysBelow(simpleKeys, tokensParsed + Place(number))
      modifies `tokens, `tokensHead, `capacity, `indent, `indents
      ensures Started()
      ensures old(Opens(column)) ==>
        && indents == old(indents) + [old(indent)] && indent == column
        && Live() == Inserted(old(Live()), old(Place(number)), Token(kind, at))
      ensures !old(Opens(column)) ==> indents == old(indents) && indent == old(indent) && Live() == old(Live())
      ensures number < 0 && column == at.column ==> Now() == Rolled(old(Now()), kind, at)
    {
      hide KeysInQueue, KeysBelow, Blocks, Inserted, Live;
      if flowLevel > 0 {
        return;
      }
      if indent < column {
        ghost var live, p := Live(), Place(number);
        BlocksRoll(handed, live, p, Token(kind, at), indents, indent, column);
        KeysAfterInsert(simpleKeys, live, tokensParsed, p, Token(kind, at));
        indents := indents + [indent];
        indent := column;
        var pos := if number > -1 then number - tokensParsed else number;
        InsertToken(pos, Token(kind, at));
        if number < 0 {
          InsertedLast(live, Token(kind, at));
          PutInAll(handed, live, [Token(kind, at)]);
        }
      }
    }

    /** The innermost level is popped, with its block end. */
    method UnrollOne()
      requires Started() && indent > -1
      modifies `tokens, `tokensHead, `capacity, `indent, `indents
      ensures Started() && Live() == old(Live()) + [Token(BlockEnd, mark)]
      ensures |old(indents)| > 0 && Levels() == old(indents)
    {
      hide KeysInQueue, KeysBelow, Blocks, Inserted, Live;
      ghost var live := Live();
      var t := Token(BlockEnd, mark);
      BlocksUnroll(handed, live, t, indents, indent);
      KeysBelowEnd(simpleKeys, live, tokensParsed);
      KeysAfterInsert(simpleKeys, live, tokensParsed, |live|, t);
      InsertToken(-1, t);
      InsertedLast(live, t);
      indent := indents[|indents| - 1];
      indents := indents[..|indents| - 1];
    }

    /** Levels deeper than the column are popped, each with its own block end. */
    method UnrollIndent(column: int)
      requires Started() && column >= -1
      modifies `tokens, `tokensHead, `capacity, `indent, `indents
      ensures Started()
      ensures flowLevel > 0 ==> Levels() == old(Levels()) && Live() == old(Live())
      ensures flowLevel == 0 ==>
        && Levels() <= old(Levels()) && indent <= column
        && (forall j :: |Levels()| <= j < |old(Levels())| ==> old(Levels())[j] > column)
        && Live() == old(Live()) + Ends(|old(Levels())| - |Levels()|, mark)
      ensures Now() == Unrolled(old(Now()), column, mark)
    {
      hide KeysInQueue, KeysBelow, Blocks, Inserted, Live;
      if flowLevel > 0 {
        return;
      }
      ghost var n: nat := 0;
      while indent > column
        invariant Started()
        invariant Levels() <= old(Levels()) && n == |old(Levels())| - |Levels()|
        invariant forall j :: |Levels()| <= j < |old(Levels())| ==> old(Levels())[j] > column
        invariant Live() == old(Live()) + Ends(n, mark)
        decreases |indents|
      {
        UnrollOne();
        n := n + 1;
      }
      KeptIs(old(Levels()), Levels(), column);
      PutInAll(handed, old(Live()), Ends(n, mark));
    }

    // -------------------------------------------------------------- fetchers

    method FetchStreamStart()
      requires Unstarted()
      modifies `tokens, `tokensHead, `capacity, `mark, `indent, `simpleKeys, `simpleKeyAllowed, `streamStartProduced
      ensures Started() && handed == [] && mark == old(mark) && Live() == [Token(StreamStart, mark)]
      ensures Now() == View([Token(StreamStart, mark)], [-1], [NoKey], 0, true)
    {
      hide KeysInQueue, KeysBelow, Blocks, Inserted, Live;
      indent := -1;
      simpleKeys := simpleKeys + [NoKey];
      simpleKeyAllowed := true;
      streamStartProduced := true;
      assert simpleKeys == [NoKey];
      Fresh();
      Consume(StreamStart, mark);
    }

    /** The tail every fetcher shares: a token from here to the end of the lexeme. */
    method Consume(kind: Kind, end: Mark)
      requires Started() && Step(Token(kind, mark)) == 0
      modifies `tokens, `tokensHead, `capacity, `mark
      ensures Started() && mark == end
      ensures Live() == old(Live()) + [Token(kind, old(mark))] && Now() == Put(old(Now()), kind, old(mark))
    {
      hide KeysInQueue, KeysBelow, Blocks, Inserted, Live;
      var start := mark;
      mark := end;
      AppendToken(Token(kind, start));
      InsertedLast(old(Live()), Token(kind, start));
      PutInAll(handed, old(Live()), [Token(kind, start)]);
    }

    /** Gives up the key of the current level and closes every block, unless a flow collection is open. */
    method CloseBlocks() returns (ok: bool)
      requires Started()
      modifies `tokens, `tokensHead, `capacity, `indent, `indents, `simpleKeys, `simpleKeyAllowed, `failed
      ensures ok ==> Started() && failed == old(failed) && (NoEnd(Live()) <==> old(NoEnd(Live())))
      ensures ok ==> Now() == Forgotten(Unrolled(old(Now()), -1, mark)).(allowed := false)
      ensures ok ==> !simpleKeys[flowLevel].possible && (flowLevel == 0 ==> indents == [] && indent == -1)
      ensures ok == old(KeyFree())
      ensures !ok ==> failed
    {
      hide KeysInQueue, KeysBelow, Blocks, Inserted, Live, NoEnd;
      ghost var live, n := Live(), |Levels()|;
      UnrollIndent(-1);
      BlockEndsAdded(live, n - |Levels()|, mark);
      ok := RemoveSimpleKey();
      simpleKeyAllowed := false;
      if flowLevel == 0 {
        BlocksClosed(handed, Live(), indents, indent);
      }
    }

    /** With no flow collection open, every block is closed before the stream ends. */
    method FetchStreamEnd() returns (ok: bool)
      requires Started()
      modifies `tokens, `tokensHead, `capacity, `mark, `indent, `indents, `simpleKeys, `simpleKeyAllowed, `failed
      ensures ok ==> Started() && failed == old(failed) && |Live()| > 0 && Live()[|Live()| - 1].kind == StreamEnd
      ensures ok ==> var at := LineStart(old(mark));
        Now() == Put(Forgotten(Unrolled(old(Now()), -1, at)), StreamEnd, at).(allowed := false)
      ensures ok && flowLevel == 0 ==> indents == [] && indent == -1 && Depth(handed + Live()) == 0
      ensures ok ==> !simpleKeys[flowLevel].possible && (old(NoEnd(Live())) ==> EndsOnlyLast(Live()))
      ensures ok == old(KeyFree())
      ensures !ok ==> failed
    {
      hide KeysInQueue, KeysBelow, Blocks, Inserted, Live, NoEnd, EndsOnlyLast, Unrolled;
      if mark.column != 0 {
        mark := mark.(column := 0, line := mark.line + 1);
      }
      ok := CloseBlocks();
      if !ok {
        return;
      }
      LastAdded(Live(), Token(StreamEnd, mark));
      Consume(StreamEnd, mark);
      if flowLevel == 0 {
        BlocksClosed(handed, Live(), indents, indent);
      }
    }

    /** A directive or a document indicator closes every block. */
    method FetchDocumentMark(kind: Kind, l: Lexeme) returns (ok: bool)
      requires Started() && (kind.Directive? || kind.DocumentStart? || kind.DocumentEnd?)
      modifies `tokens, `tokensHead, `capacity, `mark, `indent, `indents, `simpleKeys, `simpleKeyAllowed, `failed
      ensures ok ==> Started() && failed == old(failed)
      ensures ok ==> |Live()| > 0 && Live()[|Live()| - 1] == Token(kind, old(mark))
      ensures ok ==> Now() == Put(Forgotten(Unrolled(old(Now()), -1, old(mark))), kind, old(mark)).(allowed := false)
      ensures ok && flowLevel == 0 ==> indents == [] && indent == -1 && Depth(handed + Live()) == 0
      ensures ok && old(NoEnd(Live())) ==> EndsOnlyLast(Live())
      ensures ok == (old(KeyFree()) && !(kind.Directive? && l.broken))
      ensures !ok ==> failed
    {
      hide KeysInQueue, KeysBelow, Blocks, Inserted, Live, NoEnd, EndsOnlyLast, Unrolled;
      ok := CloseBlocks();
      if !ok {
        return;
      }
      if kind.Directive? && l.broken {
        failed := true;
        return false;
      }
      LastAdded(Live(), Token(kind, mark));
      Consume(kind, l.end);
      if flowLevel == 0 {
        BlocksClosed(handed, Live(), indents, indent);
      }
    }

    /** The token of a key that has just been saved. */
    method ConsumeSaved(kind: Kind, end: Mark, ghost keys: seq<SimpleKey>, ghost allowed: bool, ghost key: SimpleKey)
      requires streamStartProduced && Queue() && BlocksKept() && Step(Token(kind, mark)) == 0
      requires keys != [] && KeysInQueue(keys, Live(), tokensParsed) && |simpleKeys| == flowLevel + 1
      requires key.number == tokensParsed + |Live()| && key.mark == mark && simpleKeys == Saved(keys, allowed, key)
      modifies `tokens, `tokensHead, `capacity, `mark
      ensures Started() && mark == end
      ensures Live() == old(Live()) + [Token(kind, old(mark))] && Now() == Put(old(Now()), kind, old(mark))
    {
      hide Blocks, Inserted, Live, KeysInQueue, KeysBelow;
      ghost var live := Live();
      var t := Token(kind, mark);
      mark := end;
      InsertToken(-1, t);
      BlocksPlain(handed, live, |live|, t, indents, indent);
      KeysAfterToken(keys, live, tokensParsed, allowed, key, t);
      InsertedLast(live, t);
      PutInAll(handed, live, [t]);
    }

    /** A token that may be a simple key is recorded under the number it gets in the queue. */
    method FetchFlowCollectionStart(kind: Kind, l: Lexeme) returns (ok: bool)
      requires Started() && (kind.FlowSequenceStart? || kind.FlowMappingStart?)
      modifies `tokens, `tokensHead, `capacity, `mark, `simpleKeys, `simpleKeyAllowed, `flowLevel, `failed
      ensures ok ==> Started() && failed == old(failed)
      ensures ok ==> var v := Put(Noted(old(Now()), old(mark)), kind, old(mark));
        Now() == v.(keys := v.keys + [NoKey], flow := old(flowLevel) + 1, allowed := true)
      ensures ok ==> Live() == old(Live()) + [Token(kind, old(mark))]
      ensures ok == (old(simpleKeyAllowed) ==> old(KeyFree()))
      ensures !ok ==> failed
    {
      hide KeysInQueue, KeysBelow, Blocks, Inserted, Live, Put, Noted;
      ghost var keys, key, allowed := simpleKeys, NewKey(), simpleKeyAllowed;
      ok := SaveSimpleKey();
      if !ok {
        return;
      }
      ConsumeSaved(kind, l.end, keys, allowed, key);
      KeysAfterShrink(simpleKeys, Live(), tokensParsed);
      IncreaseFlowLevel();
      simpleKeyAllowed := true;
    }

    method FetchFlowCollectionEnd(kind: Kind, l: Lexeme) returns (ok: bool)
      requires Started() && (kind.FlowSequenceEnd? || kind.FlowMappingEnd?)
      modifies `tokens, `tokensHead, `capacity, `mark, `simpleKeys, `simpleKeyAllowed, `flowLevel, `failed
      ensures ok ==> Started() && failed == old(failed)
      ensures ok ==> var v := Put(Forgotten(old(Now())), kind, old(mark)).(allowed := false);
        Now() == if old(flowLevel) == 0 then v else v.(keys := v.keys[..old(flowLevel)], flow := old(flowLevel) - 1)
      ensures ok ==> Live() == old(Live()) + [Token(kind, old(mark))]
      ensures ok == old(KeyFree())
      ensures !ok ==> failed
    {
      hide KeysInQueue, KeysBelow, Blocks, Inserted, Live;
      ok := RemoveSimpleKey();
      if !ok {
        return;
      }
      DecreaseFlowLevel();
      simpleKeyAllowed := false;
      Consume(kind, l.end);
    }

    method FetchFlowEntry(l: Lexeme) returns (ok: bool)
      requires Started()
      modifies `tokens, `tokensHead, `capacity, `mark, `simpleKeys, `simpleKeyAllowed, `failed
      ensures ok ==> Started() && failed == old(failed)
      ensures ok ==> Live() == old(Live()) + [Token(FlowEntry, old(mark))]
      ensures ok ==> Now() == Put(Forgotten(old(Now())), FlowEntry, old(mark)).(allowed := true)
      ensures ok == old(KeyFree())
      ensures !ok ==> failed
    {
      hide KeysInQueue, KeysBelow, Blocks, Inserted, Live;
      ok := RemoveSimpleKey();
      if !ok {
        return;
      }
      simpleKeyAllowed := true;
      Consume(FlowEntry, l.end);
    }

    /** A `-`, a `?` or a `:` after no simple key, with the start of the block it opens. */
    method FetchBlockIndicator(kind: Kind, l: Lexeme) returns (ok: bool)
      requires Started() && (kind.BlockEntry? || kind.Key?)
      modifies `tokens, `tokensHead, `capacity, `mark, `indent, `indents, `simpleKeys, `simpleKeyAllowed, `failed
      ensures ok ==> Started() && failed == old(failed)
      ensures ok && kind.BlockEntry? ==>
        Now() == Put(Rolled(Forgotten(old(Now())), BlockSequenceStart, old(mark)), BlockEntry, old(mark))
                   .(allowed := true)
      ensures ok && kind.Key? ==>
        Now() == Put(Rolled(Forgotten(old(Now())), BlockMappingStart, old(mark)), Key, old(mark))
                   .(allowed := flowLevel == 0)
      ensures ok && old(Opens(mark.column)) ==>
        Live() == old(Live()) + [Token(StartFor(kind), old(mark))] + [Token(kind, old(mark))]
      ensures ok && !old(Opens(mark.column)) ==> Live() == old(Live()) + [Token(kind, old(mark))]
      ensures ok == ((flowLevel > 0 || old(simpleKeyAllowed)) && old(KeyFree()))
      ensures !ok ==> failed
    {
      hide KeysInQueue, KeysBelow, Blocks, Inserted, Live, Rolled, Forgotten;
      ghost var live := Live();
      ReadyNow();
      RollForget(Now(), StartFor(kind), mark);
      if flowLevel == 0 {
        if !simpleKeyAllowed {
          failed := true;
          return false;
        }
        KeysBelowEnd(simpleKeys, live, tokensParsed);
        RollIndent(mark.column, -1, StartFor(kind), mark);
        InsertedLast(live, Token(StartFor(kind), mark));
      }
      ok := RemoveSimpleKey();
      if !ok {
        return;
      }
      simpleKeyAllowed := kind.BlockEntry? || flowLevel == 0;
      Consume(kind, l.end);
    }

    /**
     A simple key is only known by the `:` after it. The KEY goes in front of the key's first
     token, and the start of the block it opens just ahead of that; nothing handed out changes.
     */
    method FetchSimpleValue()
      requires Started() && simpleKeys[flowLevel].possible
      modifies `tokens, `tokensHead, `capacity, `indent, `indents, `simpleKeys, `simpleKeyAllowed
      ensures Started()
      ensures simpleKeys[flowLevel].number < |handed + old(Live())| && Now() == Keyed(old(Now())).(allowed := false)
      ensures var k := old(simpleKeys)[flowLevel]; var p := k.number - tokensParsed;
        && 0 <= p < |old(Live())| && old(Live())[p].start == k.mark
        && Live() == WithKey(old(Live()), p, k.mark, old(Opens(k.mark.column)))
    {
      hide Blocks, Inserted, WithKey, Live, KeysInQueue, KeysBelow;
      var k := simpleKeys[|simpleKeys| - 1];
      ghost var keys, live := simpleKeys, Live();
      ghost var p := k.number - tokensParsed;
      LastKey(keys, live, tokensParsed);
      simpleKeys := simpleKeys[|simpleKeys| - 1 := k.(possible := false)];
      var t := Token(Key, k.mark);
      BlocksPlain(handed, live, p, t, indents, indent);
      KeysAfterInsert(simpleKeys, live, tokensParsed, p, t);
      InsertedTwice(live, p, k.mark);
      InsertToken(k.number - tokensParsed, t);
      RollIndent(k.mark.column, k.number, BlockMappingStart, k.mark);
      simpleKeyAllowed := false;
      KeyInAll(handed, live, p, k.mark, old(Opens(k.mark.column)));
    }

    /** What the queue holds after a `:` that starts here, before the VALUE itself. */
    ghost function BeforeValue(): (s: seq<Token>)
      requires Started()
      reads this
    {
      var k := simpleKeys[flowLevel];
      if k.possible then WithKey(Live(), k.number - tokensParsed, k.mark, Opens(k.mark.column))
      else if Opens(mark.column) then Live() + [Token(BlockMappingStart, mark)]
      else Live()
    }

    method FetchValue(l: Lexeme) returns (ok: bool)
      requires Started()
      modifies `tokens, `tokensHead, `capacity, `mark, `indent, `indents, `simpleKeys, `simpleKeyAllowed, `failed
      ensures ok ==> Started() && failed == old(failed)
      ensures ok ==> Live() == old(BeforeValue()) + [Token(Value, old(mark))]
      ensures Ready(old(Now())) && (ok ==> Now() == AfterValue(old(Now()), old(mark)))
      ensures ok == (old(simpleKeys)[flowLevel].possible || flowLevel > 0 || old(simpleKeyAllowed))
      ensures !ok ==> failed
    {
      hide Blocks, Inserted, WithKey, Live, KeysInQueue, KeysBelow;
      ReadyNow();
      if simpleKeys[|simpleKeys| - 1].possible {
        FetchSimpleValue();
      } else {
        if flowLevel == 0 {
          if !simpleKeyAllowed {
            failed := true;
            return false;
          }
          KeysBelowEnd(simpleKeys, Live(), tokensParsed);
          InsertedLast(Live(), Token(BlockMappingStart, mark));
          RollIndent(mark.column, -1, BlockMappingStart, mark);
        }
        simpleKeyAllowed := flowLevel == 0;
      }
      Consume(Value, l.end);
      ok := true;
    }

    /** An anchor, an alias, a tag or a scalar on one line: it may turn out to be a key. */
    method FetchPossibleKey(kind: Kind, l: Lexeme) returns (ok: bool)
      requires Started() && (kind.Alias? || kind.Anchor? || kind.Tag? || kind.Scalar?)
      modifies `tokens, `tokensHead, `capacity, `mark, `simpleKeys, `simpleKeyAllowed, `failed
      ensures ok ==> Started() && failed == old(failed)
      ensures ok ==> Live() == old(Live()) + [Token(kind, old(mark))]
      ensures ok ==>
        Now() == Put(Noted(old(Now()), old(mark)), kind, old(mark)).(allowed := kind.Scalar? && l.spilled)
      ensures ok == ((old(simpleKeyAllowed) ==> old(KeyFree())) && !l.broken)
      ensures !ok ==> failed
    {
      hide Blocks, Inserted, Live, KeysInQueue, KeysBelow, Put, Noted;
      ghost var keys, key, allowed := simpleKeys, NewKey(), simpleKeyAllowed;
      ok := SaveSimpleKey();
      if !ok {
        return;
      }
      if l.broken {
        failed := true;
        return false;
      }
      ConsumeSaved(kind, l.end, keys, allowed, key);
      simpleKeyAllowed := kind.Scalar? && l.spilled;
    }

    method FetchBlockScalar(l: Lexeme) returns (ok: bool)
      requires Started()
      modifies `tokens, `tokensHead, `capacity, `mark, `simpleKeys, `simpleKeyAllowed, `failed
      ensures ok ==> Started() && failed == old(failed)
      ensures ok ==> Live() == old(Live()) + [Token(Scalar, old(mark))]
      ensures ok ==> Now() == Put(Forgotten(old(Now())), Scalar, old(mark)).(allowed := true)
      ensures ok == (old(KeyFree()) && !l.broken)
      ensures !ok ==> failed
    {
      hide Blocks, Inserted, Live, KeysInQueue, KeysBelow;
      ok := RemoveSimpleKey();
      if !ok {
        return;
      }
      simpleKeyAllowed := true;
      if l.broken {
        failed := true;
        return false;
      }
      Consume(Scalar, l.end);
    }

    lemma ReadyNow()
      requires Started()
      ensures Ready(Now()) && Free(Now()) == KeyFree()
      ensures Now().flow == flowLevel && Now().keys == simpleKeys && Now().allowed == simpleKeyAllowed
    {
    }

    /** However a token is added, only the token itself can be the end of the stream. */
    lemma LastIsNew(kind: Kind)
      requires Started()
      ensures var t := Token(kind, mark);
        NoEnd(Live()) ==> && EndsOnlyLast(Live() + [t]) && EndsOnlyLast(Live() + [Token(StartFor(kind), mark)] + [t])
                          && EndsOnlyLast(BeforeValue() + [t])
    {
      hide NoEnd, EndsOnlyLast, WithKey, Blocks, Live;
      var live, t, k := Live(), Token(kind, mark), simpleKeys[flowLevel];
      LastAdded(live, t);
      PlainAdded(live, Token(StartFor(kind), mark));
      LastAdded(live + [Token(StartFor(kind), mark)], t);
      PlainAdded(live, Token(BlockMappingStart, mark));
      if k.possible {
        KeyAdded(live, k.number - tokensParsed, k.mark, Opens(k.mark.column));
      }
      LastAdded(BeforeValue(), t);
    }

    method FetchSeen(l: Lexeme) returns (ok: bool)
      requires Started()
      modifies `tokens, `tokensHead, `capacity, `mark, `indent, `indents, `simpleKeys, `simpleKeyAllowed, `flowLevel,
        `failed
      ensures ok ==> Started() && failed == old(failed)
      ensures ok ==> |Live()| > 0 && Live()[|Live()| - 1].kind == TokenFor(l.sight)
      ensures ok && !l.sight.EndOfInput? ==> Live()[|Live()| - 1].start == old(mark)
      ensures ok && l.sight.EndOfInput? && flowLevel == 0 ==> indents == [] && Depth(handed + Live()) == 0
      ensures ok ==> (TokenFor(l.sight).StreamEnd? <==> l.sight.EndOfInput?)
      ensures ok && l.sight.EndOfInput? ==> !simpleKeys[flowLevel].possible && flowLevel == old(flowLevel)
      ensures ok && old(NoEnd(Live())) ==> EndsOnlyLast(Live())
      ensures Ready(old(Now())) && ok == Fits(old(Now()), l)
      ensures ok ==> Now() == AfterSight(old(Now()), old(mark), l)
      ensures !ok ==> failed
    {
      hide Blocks, Inserted, Live, KeysInQueue, KeysBelow, NoEnd, EndsOnlyLast, BeforeValue, Depth, Ready, Now, Put;
      hide Forgotten, Noted, Rolled, Keyed, Unrolled;
      ReadyNow();
      LastIsNew(TokenFor(l.sight));
      match l.sight {
        case EndOfInput => ok := FetchStreamEnd();
        case BlockScalar =>
          if flowLevel == 0 {
            ok := FetchBlockScalar(l);
          } else {
            ok, failed := false, true;
          }
        case Stray => ok, failed := false, true;
        case Sees(kind) =>
          if kind.Directive? || kind.DocumentStart? || kind.DocumentEnd? {
            ok := FetchDocumentMark(kind, l);
          } else if kind.FlowSequenceStart? || kind.FlowMappingStart? {
            ok := FetchFlowCollectionStart(kind, l);
          } else if kind.FlowSequenceEnd? || kind.FlowMappingEnd? {
            ok := FetchFlowCollectionEnd(kind, l);
          } else if kind.FlowEntry? {
            ok := FetchFlowEntry(l);
          } else if kind.BlockEntry? || kind.Key? {
            ok := FetchBlockIndicator(kind, l);
          } else if kind.Value? {
            ok := FetchValue(l);
          } else if kind.Alias? || kind.Anchor? || kind.Tag? || kind.Scalar? {
            ok := FetchPossibleKey(kind, l);
          } else {
            ok, failed := false, true;
          }
      }
    }

    /**
     The way to the next lexeme: a new line allows a key again, keys that cannot reach this far are
     given up, and the blocks deeper than its column are closed.
     */
    method Approach(l: Lexeme) returns (ok: bool)
      requires Started()
      modifies `tokens, `tokensHead, `capacity, `mark, `indent, `indents, `simpleKeys, `simpleKeyAllowed, `failed
      ensures ok == forall i :: 0 <= i < |old(simpleKeys)| && Stale(old(simpleKeys)[i], l.start) ==>
        !old(simpleKeys)[i].required
      ensures ok ==> Started() && failed == old(failed) && mark == l.start
      ensures ok ==> Now() == Unrolled(Arrived(old(Now()), l), l.start.column, l.start)
      ensures ok && flowLevel == 0 ==>
        && Levels() <= old(Levels()) && indent <= l.start.column
        && (forall j :: |Levels()| <= j < |old(Levels())| ==> old(Levels())[j] > l.start.column)
        && Live() == old(Live()) + Ends(|old(Levels())| - |Levels()|, l.start)
      ensures ok && flowLevel > 0 ==> Levels() == old(Levels()) && Live() == old(Live())
      ensures ok ==> (NoEnd(Live()) <==> old(NoEnd(Live())))
      ensures !ok ==> failed
    {
      hide Blocks, Inserted, Live, KeysInQueue, KeysBelow, NoEnd, Unrolled;
      if l.freshLine && flowLevel == 0 {
        simpleKeyAllowed := true;
      }
      mark := l.start;
      ok := StaleSimpleKeys();
      if !ok {
        return;
      }
      assert Now() == Arrived(old(Now()), l);
      ghost var live, n := Live(), |Levels()|;
      UnrollIndent(mark.column);
      BlockEndsAdded(live, n - |Levels()|, mark);
    }

    /**
     One lexeme. It is accepted if and only if `Accepts` says so, and then all that the scanner holds is
     what `AfterLexeme` says; without a flow collection open, the last of the tokens is preceded by one
     BLOCK-END, at the start of the lexeme, for each level deeper than its column.
     */
    method FetchNextToken(l: Lexeme) returns (ok: bool)
      requires Started() || Unstarted()
      modifies `tokens, `tokensHead, `capacity, `mark, `indent, `indents, `simpleKeys, `simpleKeyAllowed, `flowLevel,
        `failed, `streamStartProduced
      ensures ok ==> Started() && failed == old(failed) && |Live()| > 0
      ensures !old(streamStartProduced) ==> ok && Live() == [Token(StreamStart, mark)] && NoEnd(Live())
      ensures !old(streamStartProduced) ==>
        mark == old(mark) && Now() == View([Token(StreamStart, mark)], [-1], [NoKey], 0, true)
      ensures ok && old(streamStartProduced) ==> Live()[|Live()| - 1].kind == TokenFor(l.sight)
      ensures old(streamStartProduced) ==> Ready(old(Now())) && ok == Accepts(old(Now()), l)
      ensures ok && old(streamStartProduced) ==> Now() == AfterLexeme(old(Now()), l)
      ensures ok && old(streamStartProduced) && l.sight.EndOfInput? ==> flowLevel == old(flowLevel)
      ensures ok && old(streamStartProduced && NoEnd(Live())) ==> EndKept() && (NoEnd(Live()) || l.sight.EndOfInput?)
      ensures !ok ==> failed
    {
      hide Blocks, Inserted, Live, KeysInQueue, KeysBelow, NoEnd, EndsOnlyLast, AfterSight, Ready, Now, Unrolled, Fits;
      if !streamStartProduced {
        FetchStreamStart();
        LastAdded([], Token(StreamStart, mark));
        LastDecides(Live());
        return true;
      }
      ReadyNow();
      ok := Approach(l);
      if !ok {
        return;
      }
      FitsUnrolled(Arrived(old(Now()), l), l.start.column, l.start, l);
      ok := FetchSeen(l);
      if ok {
        LastDecides(Live());
      }
    }

    /** Whether some possible key starts at the head of the queue. */
    method HeadTaken() returns (taken: bool)
      requires Queue()
      ensures taken == !HeadFree()
    {
      var i := 0;
      while i < |simpleKeys|
        invariant 0 <= i <= |simpleKeys|
        invariant forall j :: 0 <= j < i && simpleKeys[j].possible ==> simpleKeys[j].number != tokensParsed
      {
        if simpleKeys[i].possible && simpleKeys[i].number == tokensParsed {
          return true;
        }
        i := i + 1;
      }
      taken := false;
    }

    /** The queue is in order, and so is the input: behind the end of the stream nothing else comes. */
    ghost predicate Orderly(input: seq<Lexeme>)
      requires Queue()
      reads `tokens, `tokensHead, `capacity, `handed, `tokensParsed, `indents, `simpleKeys, `flowLevel
    {
      EndKept() && Sticky(input) && (!NoEnd(Live()) ==> AllEnd(input))
    }

    /** The tokens so far are laid out in order, and the lexemes to come are in order behind them. */
    ghost predicate LaidOut(at: Mark, input: seq<Lexeme>)
      requires Queue()
      reads `tokens, `tokensHead, `capacity, `tokensParsed, `handed, `indent, `indents, `simpleKeys, `flowLevel,
        `simpleKeyAllowed, `streamStartProduced
    {
      (streamStartProduced ==> Laid(Now(), at)) && Follows(at, input)
    }

    /** Whether the queue is empty or its head may still turn out to be the start of a simple key. */
    method NeedsMore(ghost input: seq<Lexeme>, ghost sticky: bool, ghost ordered: bool, ghost at: Mark)
      returns (ok: bool, need: bool)
      requires (Started() || Unstarted()) && (sticky ==> Orderly(input)) && (ordered ==> LaidOut(at, input))
      modifies `simpleKeys, `failed
      ensures ok ==> (Started() || Unstarted()) && failed == old(failed)
      ensures ok && sticky ==> Orderly(input)
      ensures ok && ordered ==> LaidOut(at, input)
      ensures ok && !need ==> Started() && Live() != [] && HeadFree()
      ensures ok && need && sticky && !NoEnd(Live()) ==> flowLevel > 0
      ensures !ok ==> failed
    {
      hide Blocks, KeysInQueue, NoEnd, EndsOnlyLast, Laid, Follows, Now;
      ok, need := true, tokensHead == |tokens|;
      NothingHasNoEnd(Live());
      if !need {
        ghost var was := Now();
        NowKeys();
        ok := StaleSimpleKeys();
        if !ok {
          return;
        }
        if ordered {
          UnstaledLaid(was, at, mark);
        }
        need := HeadTaken();
      }
    }

    lemma NowKeys()
      requires tokensHead <= |tokens|
      ensures Now().keys == simpleKeys
    {
    }

    /** One lexeme, with what is kept of the queue and of the layout. */
    method FetchOne(input: seq<Lexeme>, ghost sticky: bool, ghost ordered: bool, ghost from: Mark)
      returns (ok: bool, ghost at: Mark)
      requires (Started() || Unstarted()) && input != []
      requires (sticky ==> Orderly(input)) && (ordered ==> LaidOut(from, input))
      requires sticky && !NoEnd(Live()) ==> flowLevel > 0
      modifies `tokens, `tokensHead, `capacity, `mark, `indent, `indents, `simpleKeys, `simpleKeyAllowed, `flowLevel,
        `failed, `streamStartProduced
      ensures ok ==> Started() && failed == old(failed)
      ensures ok && sticky ==> Orderly(input[1..])
      ensures ok && ordered ==> LaidOut(at, input[1..])
      ensures !ok ==> failed
    {
      hide Blocks, KeysInQueue, NoEnd, EndsOnlyLast, Laid, Follows, Now, AfterLexeme, Accepts, Ready, Live;
      at := from;
      ghost var was, began := Now(), streamStartProduced;
      NothingHasNoEnd(Live());
      ok := FetchNextToken(input[0]);
      if ok && ordered {
        at := NextLaid(began, was, from, input, mark);
      }
    }

    /** Reads until the head of the queue can no longer be the start of a simple key. */
    method FetchMoreTokens(input: seq<Lexeme>, ghost sticky: bool, ghost ordered: bool, ghost from: Mark)
      returns (ok: bool, used: nat, ghost at: Mark)
      requires (Started() || Unstarted()) && !tokenAvailable && (sticky ==> Orderly(input))
      requires ordered ==> LaidOut(from, input)
      modifies `tokens, `tokensHead, `capacity, `mark, `indent, `indents, `simpleKeys, `simpleKeyAllowed, `flowLevel,
        `failed, `streamStartProduced, `tokenAvailable
      ensures used <= |input|
      ensures ok ==> Valid() && Started() && tokenAvailable && failed == old(failed)
      ensures ok && used == 0 ==> Live() == old(Live())
      ensures ok && sticky ==> Orderly(input[used..])
      ensures ok && ordered ==> LaidOut(at, input[used..])
      ensures !ok ==> failed
    {
      hide Blocks, KeysInQueue, NoEnd, EndsOnlyLast, LaidOut, Now, Orderly;
      used, at := 0, from;
      assert input[0..] == input;
      while true
        invariant used <= |input| && (used == 0 ==> tokens == old(tokens) && tokensHead == old(tokensHead))
        invariant (Started() || Unstarted()) && failed == old(failed)
        invariant sticky ==> Orderly(input[used..])
        invariant ordered ==> LaidOut(at, input[used..])
        decreases |input| - used
      {
        var need;
        ok, need := NeedsMore(input[used..], sticky, ordered, at);
        if !ok {
          return;
        }
        if !need {
          break;
        }
        if used == |input| {
          failed := true;
          return false, used, at;
        }
        assert input[used..][1..] == input[used + 1..];
        ok, at := FetchOne(input[used..], sticky, ordered, at);
        if !ok {
          return;
        }
        used := used + 1;
      }
      tokenAvailable := true;
      ok := true;
    }

    lemma HandedLaid(at: Mark, input: seq<Lexeme>)
      requires Started() && LaidOut(at, input)
      ensures WellLaid(handed)
    {
      hide Blocks, KeysInQueue, Live, WellLaid, KeysLaid;
      PrefixLaid(Now().all, |handed|);
      assert Now().all[..|handed|] == handed;
    }

    /** Hands the head of the queue to the parser. */
    method SkipToken() returns (t: Token)
      requires Valid() && tokenAvailable
      modifies `tokensHead, `tokensParsed, `tokenAvailable, `streamEndProduced, `handed
      ensures Valid() && !tokenAvailable
      ensures t == old(Live())[0] && Live() == old(Live())[1..] && handed == old(handed) + [t]
      ensures Now() == old(Now())
      ensures streamEndProduced == t.kind.StreamEnd?
    {
      hide Blocks, KeysInQueue;
      BlocksTake(handed, Live(), indents, indent);
      KeysAfterTake(simpleKeys, Live(), tokensParsed);
      t := tokens[tokensHead];
      tokenAvailable := false;
      tokensParsed := tokensParsed + 1;
      streamEndProduced := t.kind.StreamEnd?;
      tokensHead := tokensHead + 1;
      handed := handed + [t];
      assert handed + Live() == old(handed + Live());
    }
  }

  /**
   A whole run over any input: what reaches the parser never ends a block that was not started,
   and the scanner's invariants hold at the end of every run that reports no error. Unless a flow
   collection is left open, every block that was started has then been ended. If the lexemes come in
   reading order, no token but a BLOCK-END stands to the left of a block that is open around it unless
   a flow collection is open, and every block starts right in front of its first entry, key or value.
   */
  method ScanAll(input: seq<Lexeme>) returns (out: seq<Token>, s: Scanner)
    ensures Nested(out) && s.handed == out
    ensures !s.failed ==> s.Valid() && out != [] && out[|out| - 1].kind.StreamEnd?
    ensures Sticky(input) && !s.failed && s.flowLevel == 0 ==> Depth(out) == 0
    ensures InOrder(input) ==> Aligned(out) && Opened(out)
  {
    hide Blocks, Nested, KeysInQueue, NoEnd, EndsOnlyLast, Depth, Scanner.Live, Laid, Scanner.Now, Aligned, Opened;
    hide Follows;
    s := new Scanner();
    out := [];
    Fresh();
    BlocksHanded([], [], [], -1);
    NothingLaid(input);
    var rest := input;
    ghost var at := Mark(0, 0, 0);
    NothingHasNoEnd(s.Live());
    while !s.streamEndProduced
      invariant fresh(s) && s.Valid() && Nested(out) && !s.failed && s.handed == out && !s.tokenAvailable
      invariant s.streamEndProduced ==> out != [] && out[|out| - 1].kind.StreamEnd?
      invariant Sticky(input) && !s.streamEndProduced ==> s.Orderly(rest)
      invariant Sticky(input) && s.streamEndProduced && s.flowLevel == 0 ==> Depth(out) == 0
      invariant InOrder(input) ==> s.LaidOut(at, rest) && WellLaid(out)
      decreases |rest|, |s.Live()|
    {
      var ok, used;
      ok, used, at := s.FetchMoreTokens(rest, Sticky(input), InOrder(input), at);
      if !ok {
        break;
      }
      rest := rest[used..];
      ghost var live := s.Live();
      if EndsOnlyLast(live) {
        EndTaken(live);
      }
      FirstTaken(live);
      var t := s.SkipToken();
      out := out + [t];
      BlocksHanded(s.handed, s.Live(), s.indents, s.indent);
      AllHanded(s.handed, s.Live(), s.indents, s.indent);
      if InOrder(input) {
        s.HandedLaid(at, rest);
      }
    }
  }

  ghost predicate InOrder(input: seq<Lexeme>) {
    forall i, j :: 0 <= i < j < |input| ==> Before(input[i].start, input[j].start)
  }

  lemma NothingLaid(input: seq<Lexeme>)
    ensures WellLaid([]) && (InOrder(input) ==> Follows(Mark(0, 0, 0), input))
  {
  }

  /** Without the head, the queue still holds no end of the stream if it held none. */
  lemma FirstTaken(ts: seq<Token>)
    requires ts != []
    ensures NoEnd(ts) ==> NoEnd(ts[1..]) && !ts[0].kind.StreamEnd?
    ensures ts[0].kind.StreamEnd? ==> !NoEnd(ts)
    ensures !ts[0].kind.StreamEnd? && NoEnd(ts[1..]) ==> NoEnd(ts)
  {
    assert ts == [ts[0]] + ts[1..];
  }

  lemma AllHanded(handed: seq<Token>, live: seq<Token>, indents: seq<int>, indent: int)
    requires Blocks(handed, live, indents, indent)
    ensures live == [] && indents == [] ==> Depth(handed) == 0
  {
    if live == [] {
      assert handed + live == handed;
    }
  }
}
