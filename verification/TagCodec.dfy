/** Tag maps in binary form: a version byte, then every key and value with its length in front. */
module TagCodec {

  type Byte = b: int | 0 <= b < 256

  // ---------------------------------------------------------------- lengths of variable size

  const MAX_VARINT: nat := 10

  /** Seven bits to a byte, lowest first; the high bit says that more follow. */
  function PutUvarint(x: nat): (s: seq<Byte>)
    ensures s != []
  {
    if x < 128 then [x] else [x % 128 + 128] + PutUvarint(x / 128)
  }

  datatype Varint = Ok(value: nat, size: nat) | Overflow | Truncated

  /** Reads from the `i`-th byte of a number on; more than 64 bits are an overflow. */
  function Uvarint(s: seq<Byte>, i: nat): (v: Varint)
    ensures v.Ok? ==> 1 <= v.size <= |s|
    decreases |s|
  {
    if s == [] then Truncated
    else if s[0] < 128 then
      if i > 9 || (i == 9 && s[0] > 1) then Overflow else Ok(s[0], 1)
    else
      match Uvarint(s[1..], i + 1)
      case Ok(v, n) => Ok(s[0] - 128 + 128 * v, n + 1)
      case Overflow => Overflow
      case Truncated => Truncated
  }

  /** What is left of 64 bits after `i` bytes. */
  function Room(i: nat): (m: int)
    ensures m >= 2
    decreases if i >= 9 then 0 else 9 - i
  {
    if i >= 9 then 2 else 128 * Room(i + 1)
  }

  lemma RoomIsWord()
    ensures Room(0) == 0x1_0000_0000_0000_0000
  {
    assert Room(9) == 2 && Room(8) == 0x100 && Room(7) == 0x8000 && Room(6) == 0x40_0000;
    assert Room(5) == 0x2000_0000 && Room(4) == 0x10_0000_0000 && Room(3) == 0x800_0000_0000;
    assert Room(2) == 0x4_0000_0000_0000 && Room(1) == 0x200_0000_0000_0000;
  }

  lemma {:induction false} VarintInverse(x: nat, i: nat, rest: seq<Byte>)
    requires i <= 9 && x < Room(i)
    ensures Uvarint(PutUvarint(x) + rest, i) == Ok(x, |PutUvarint(x)|)
    ensures |PutUvarint(x)| <= MAX_VARINT - i
    decreases x
  {
    var s := PutUvarint(x);
    if x >= 128 {
      assert i < 9;
      assert x / 128 < Room(i + 1);
      VarintInverse(x / 128, i + 1, rest);
      assert (s + rest)[1..] == PutUvarint(x / 128) + rest;
    }
  }

  // ---------------------------------------------------------------- fields

  const INT_END: int := 0x8000_0000_0000_0000

  /** What a sum of two 64-bit integers comes to. */
  function Wrap(n: int): (r: int)
    ensures -INT_END <= r < INT_END
    ensures -INT_END <= n < INT_END ==> r == n
  {
    (n + INT_END) % (2 * INT_END) - INT_END
  }

  /** The length of a slice is an `int`. */
  predicate IsSlice(s: seq<Byte>) { |s| < INT_END }

  /** `t` is written in `s` at `p`. */
  ghost predicate At(s: seq<Byte>, p: nat, t: seq<Byte>) {
    p + |t| <= |s| && s[p..p + |t|] == t
  }

  lemma AtSplit(s: seq<Byte>, p: nat, t: seq<Byte>, u: seq<Byte>)
    requires At(s, p, t + u)
    ensures At(s, p, t) && At(s, p + |t|, u)
  {
    var w := s[p..p + |t| + |u|];
    assert s[p..p + |t|] == w[..|t|] && s[p + |t|..p + |t| + |u|] == w[|t|..];
  }

  /** A field and the index behind it; `OutOfRange` is a slice expression whose bounds are not in order. */
  datatype Field = Field(bytes: seq<Byte>, next: nat) | BadField | OutOfRange

  function FieldBytes(b: seq<Byte>): (s: seq<Byte>)
    ensures s != []
  {
    PutUvarint(|b|) + b
  }

  /** The field at `p`; the end of the field is computed in 64 bits. */
  function ReadField(s: seq<Byte>, p: nat): (f: Field)
    requires p <= |s|
    ensures f.Field? ==> p < f.next <= |s|
  {
    if p == |s| then BadField
    else
      match Uvarint(s[p..], 0)
      case Overflow => BadField
      case Truncated => BadField
      case Ok(length, size) =>
        var start := p + size;
        var end := Wrap(start + Wrap(length));
        if end > |s| then BadField
        else if end < start then OutOfRange
        else Field(s[start..end], end)
  }

  lemma FieldInverse(s: seq<Byte>, p: nat, b: seq<Byte>)
    requires IsSlice(s) && At(s, p, FieldBytes(b))
    ensures ReadField(s, p) == Field(b, p + |FieldBytes(b)|)
  {
    hide Uvarint, PutUvarint;
    RoomIsWord();
    var v := PutUvarint(|b|);
    AtSplit(s, p, v, b);
    assert s[p..] == v + s[p + |v|..];
    VarintInverse(|b|, 0, s[p + |v|..]);
  }

  // ---------------------------------------------------------------- maps

  type Tags = map<seq<Byte>, seq<Byte>>

  const MAX_LENGTH: nat := 255

  predicate IsAscii(s: seq<Byte>) {
    forall i :: 0 <= i < |s| ==> 32 <= s[i] <= 126
  }

  predicate ValidKey(k: seq<Byte>) {
    0 < |k| <= MAX_LENGTH && IsAscii(k)
  }

  predicate ValidValue(v: seq<Byte>) {
    |v| <= MAX_LENGTH && IsAscii(v)
  }

  predicate ValidTags(m: Tags) {
    forall k :: k in m ==> ValidKey(k) && ValidValue(m[k])
  }

  datatype Outcome = Decoded(tags: Tags) | Malformed | Crash

  const STRING_KEY: Byte := 0
  const VERSION: Byte := 0

  function EntryBytes(k: seq<Byte>, v: seq<Byte>): (s: seq<Byte>)
    ensures s != []
  {
    [STRING_KEY] + FieldBytes(k) + FieldBytes(v)
  }

  /** The entries of a map in a given order. */
  function EntriesBytes(m: Tags, order: seq<seq<Byte>>): seq<Byte>
    requires forall i :: 0 <= i < |order| ==> order[i] in m
  {
    if order == [] then []
    else EntriesBytes(m, order[..|order| - 1]) + EntryBytes(order[|order| - 1], m[order[|order| - 1]])
  }

  /** The entries from `p` on. */
  function DecodeEntries(s: seq<Byte>, p: nat, tags: Tags): Outcome
    requires p <= |s|
    decreases |s| - p
  {
    if p == |s| then Decoded(tags)
    else if s[p] != STRING_KEY then Malformed
    else
      match ReadField(s, p + 1)
      case BadField => Malformed
      case OutOfRange => Crash
      case Field(k, q) =>
        match ReadField(s, q)
        case BadField => Malformed
        case OutOfRange => Crash
        case Field(v, r) =>
          if !ValidKey(k) || !ValidValue(v) then Malformed else DecodeEntries(s, r, tags[k := v])
  }

  function DecodeSpec(s: seq<Byte>): Outcome {
    if s == [] then Decoded(map[])
    else if s[0] > VERSION then Malformed
    else DecodeEntries(s, 1, map[])
  }

  lemma EntryInverse(s: seq<Byte>, p: nat, k: seq<Byte>, v: seq<Byte>, tags: Tags)
    requires IsSlice(s) && ValidKey(k) && ValidValue(v) && At(s, p, EntryBytes(k, v))
    ensures DecodeEntries(s, p, tags) == DecodeEntries(s, p + |EntryBytes(k, v)|, tags[k := v])
  {
    hide ReadField, FieldBytes, IsAscii;
    assert EntryBytes(k, v) == [STRING_KEY] + (FieldBytes(k) + FieldBytes(v));
    AtSplit(s, p, [STRING_KEY], FieldBytes(k) + FieldBytes(v));
    AtSplit(s, p + 1, FieldBytes(k), FieldBytes(v));
    FieldInverse(s, p + 1, k);
    FieldInverse(s, p + 1 + |FieldBytes(k)|, v);
    assert s[p] == s[p..p + 1][0];
  }

  /** What has been decoded once the keys of `order` are. */
  function Collected(m: Tags, order: seq<seq<Byte>>, tags: Tags): Tags
    requires forall i :: 0 <= i < |order| ==> order[i] in m
  {
    if order == [] then tags
    else Collected(m, order[..|order| - 1], tags)[order[|order| - 1] := m[order[|order| - 1]]]
  }

  lemma {:induction false} EntriesInverse(s: seq<Byte>, p: nat, m: Tags, order: seq<seq<Byte>>, tags: Tags)
    requires IsSlice(s) && ValidTags(m) && forall i :: 0 <= i < |order| ==> order[i] in m
    requires At(s, p, EntriesBytes(m, order))
    ensures DecodeEntries(s, p, tags) == DecodeEntries(s, p + |EntriesBytes(m, order)|, Collected(m, order, tags))
  {
    hide DecodeEntries, EntryBytes, ValidKey, ValidValue;
    if order != [] {
      var n := |order| - 1;
      var k := order[n];
      AtSplit(s, p, EntriesBytes(m, order[..n]), EntryBytes(k, m[k]));
      EntriesInverse(s, p, m, order[..n], tags);
      EntryInverse(s, p + |EntriesBytes(m, order[..n])|, k, m[k], Collected(m, order[..n], tags));
    }
  }

  lemma {:induction false} CollectedHas(m: Tags, order: seq<seq<Byte>>)
    requires forall i :: 0 <= i < |order| ==> order[i] in m
    ensures var c := Collected(m, order, map[]);
      (forall k :: k in c <==> k in order) && (forall k :: k in c ==> k in m && c[k] == m[k])
  {
    if order != [] {
      var n := |order| - 1;
      CollectedHas(m, order[..n]);
      assert order == order[..n] + [order[n]];
    }
  }

  /** Decoding what was encoded gives the map back, whatever order its entries were written in. */
  lemma RoundTrip(m: Tags, order: seq<seq<Byte>>)
    requires ValidTags(m) && (forall i :: 0 <= i < |order| ==> order[i] in m) && (forall k :: k in m ==> k in order)
    requires IsSlice([VERSION] + EntriesBytes(m, order))
    ensures DecodeSpec([VERSION] + EntriesBytes(m, order)) == Decoded(m)
  {
    hide DecodeEntries, EntriesBytes, Collected, ValidTags;
    var s := [VERSION] + EntriesBytes(m, order);
    assert s[1..1 + |EntriesBytes(m, order)|] == EntriesBytes(m, order);
    EntriesInverse(s, 1, m, order, map[]);
    CollectedHas(m, order);
    assert Collected(m, order, map[]) == m;
    Nothing(s, m);
  }

  lemma Nothing(s: seq<Byte>, tags: Tags)
    ensures DecodeEntries(s, |s|, tags) == Decoded(tags)
  {
  }

  /** One tag is read if its key has 1 to 255 bytes and its value at most 255, all of them printable. */
  lemma OneTag(k: seq<Byte>, v: seq<Byte>)
    requires IsSlice([0, 0] + FieldBytes(k) + FieldBytes(v))
    ensures DecodeSpec([0, 0] + FieldBytes(k) + FieldBytes(v))
      == if && 1 <= |k| <= 255 && |v| <= 255
            && (forall i :: 0 <= i < |k| ==> 32 <= k[i] <= 126) && (forall i :: 0 <= i < |v| ==> 32 <= v[i] <= 126)
         then Decoded(map[k := v]) else Malformed
  {
    hide ReadField, FieldBytes;
    var s := [0, 0] + FieldBytes(k) + FieldBytes(v);
    var p := 2 + |FieldBytes(k)|;
    assert s[2..p] == FieldBytes(k) && s[p..|s|] == FieldBytes(v);
    FieldInverse(s, 2, k);
    FieldInverse(s, p, v);
    Nothing(s, map[][k := v]);
  }

  // ---------------------------------------------------------------- which bytes are decoded

  /** A field from `p` to `q`, in plain numbers. */
  ghost predicate IsField(s: seq<Byte>, p: nat, q: nat, b: seq<Byte>) {
    && p < |s| && Uvarint(s[p..], 0).Ok?
    && q == p + Uvarint(s[p..], 0).size + Uvarint(s[p..], 0).value <= |s|
    && b == s[p + Uvarint(s[p..], 0).size..q]
  }

  /** The field at `p` claims an end that no `int` holds. */
  ghost predicate EndsTooFar(s: seq<Byte>, p: nat) {
    && p < |s| && Uvarint(s[p..], 0).Ok?
    && p + Uvarint(s[p..], 0).size + Uvarint(s[p..], 0).value >= INT_END
  }

  /** A key and its value, from `p` to `r`. */
  ghost predicate IsPair(s: seq<Byte>, p: nat, r: nat) {
    exists q: nat, k, v :: IsField(s, p, q, k) && IsField(s, q, r, v) && ValidKey(k) && ValidValue(v)
  }

  ghost predicate IsEntry(s: seq<Byte>, p: nat, r: nat) {
    p < |s| && s[p] == STRING_KEY && IsPair(s, p + 1, r)
  }

  /** The key at `p`, or the value behind any key, claims an end that no `int` holds. */
  ghost predicate PairTooFar(s: seq<Byte>, p: nat) {
    EndsTooFar(s, p) || exists q: nat, k :: IsField(s, p, q, k) && EndsTooFar(s, q)
  }

  ghost predicate EntryTooFar(s: seq<Byte>, p: nat) {
    p < |s| && s[p] == STRING_KEY && PairTooFar(s, p + 1)
  }

  /** `n` entries, each ending where the next begins, lead from `p` to `q`. */
  ghost predicate Entries(s: seq<Byte>, p: nat, n: nat, q: nat)
    decreases n
  {
    if n == 0 then p == q else exists r: nat :: IsEntry(s, p, r) && Entries(s, r, n - 1, q)
  }

  lemma WrapsWhere(start: nat, length: nat)
    requires start < INT_END && length < 2 * INT_END
    ensures Wrap(start + Wrap(length)) < start <==> start + length >= INT_END
    ensures start + length < INT_END ==> Wrap(start + Wrap(length)) == start + length
  {
    var n := Wrap(length);
    assert n == if length < INT_END then length else length - 2 * INT_END;
    var t := start + n;
    assert Wrap(t) == if t < INT_END then t else t - 2 * INT_END;
  }

  lemma {:induction false} UvarintFits(s: seq<Byte>, i: nat)
    requires Uvarint(s, i).Ok?
    ensures i <= 9 && Uvarint(s, i).value < Room(i)
    decreases |s|
  {
    if s[0] >= 128 {
      UvarintFits(s[1..], i + 1);
    }
  }

  /** The field read by the 64-bit computation, in plain numbers. */
  lemma FieldReads(s: seq<Byte>, p: nat)
    requires IsSlice(s) && p <= |s|
    ensures ReadField(s, p).OutOfRange? <==> EndsTooFar(s, p)
    ensures forall q: nat, b :: ReadField(s, p) == Field(b, q) <==> IsField(s, p, q, b)
  {
    hide Uvarint, Wrap;
    if p < |s| && Uvarint(s[p..], 0).Ok? {
      UvarintFits(s[p..], 0);
      RoomIsWord();
      WrapsWhere(p + Uvarint(s[p..], 0).size, Uvarint(s[p..], 0).value);
    }
  }

  /** One entry, decided in plain numbers. */
  lemma EntryReads(s: seq<Byte>, p: nat, tags: Tags) returns (r: nat, tags': Tags)
    requires IsSlice(s) && p < |s|
    ensures p < r
    ensures forall x: nat :: IsEntry(s, p, x) ==> x == r
    ensures IsEntry(s, p, r) ==>
      r <= |s| && DecodeEntries(s, p, tags) == DecodeEntries(s, r, tags') && !EntryTooFar(s, p)
    ensures !IsEntry(s, p, r) ==>
      !DecodeEntries(s, p, tags).Decoded? && (DecodeEntries(s, p, tags).Crash? <==> EntryTooFar(s, p))
  {
    hide ReadField, EndsTooFar, IsField, ValidKey, ValidValue;
    r, tags' := p + 1, tags;
    FieldReads(s, p + 1);
    if s[p] == STRING_KEY && ReadField(s, p + 1).Field? {
      var k, q := ReadField(s, p + 1).bytes, ReadField(s, p + 1).next;
      FieldReads(s, q);
      if ReadField(s, q).Field? {
        var v := ReadField(s, q).bytes;
        r, tags' := ReadField(s, q).next, tags[k := v];
      }
    }
  }

  lemma EntriesStep(s: seq<Byte>, p: nat, r: nat, n: nat, q: nat)
    requires forall x: nat :: IsEntry(s, p, x) ==> x == r
    ensures Entries(s, p, n, q) <==> if n == 0 then q == p else IsEntry(s, p, r) && Entries(s, r, n - 1, q)
  {
    hide IsEntry;
  }

  /** Whole entries lead from `p` to the end of the bytes. */
  ghost predicate Finishes(s: seq<Byte>, p: nat) {
    exists n: nat :: Entries(s, p, n, |s|)
  }

  /** Whole entries lead from `p` to a field that claims an end that no `int` holds. */
  ghost predicate RunsTooFar(s: seq<Byte>, p: nat) {
    exists n: nat, q: nat :: Entries(s, p, n, q) && EntryTooFar(s, q)
  }

  lemma FinishesStep(s: seq<Byte>, p: nat, r: nat)
    requires forall x: nat :: IsEntry(s, p, x) ==> x == r
    ensures Finishes(s, p) <==> p == |s| || (IsEntry(s, p, r) && Finishes(s, r))
  {
    hide Entries, IsEntry;
    EntriesStep(s, p, r, 0, |s|);
    if IsEntry(s, p, r) && Finishes(s, r) {
      var n: nat :| Entries(s, r, n, |s|);
      EntriesStep(s, p, r, n + 1, |s|);
    }
    if Finishes(s, p) {
      var n: nat :| Entries(s, p, n, |s|);
      EntriesStep(s, p, r, n, |s|);
    }
  }

  lemma RunsTooFarStep(s: seq<Byte>, p: nat, r: nat)
    requires forall x: nat :: IsEntry(s, p, x) ==> x == r
    ensures RunsTooFar(s, p) <==> EntryTooFar(s, p) || (IsEntry(s, p, r) && RunsTooFar(s, r))
  {
    hide Entries, IsEntry, EntryTooFar;
    EntriesStep(s, p, r, 0, p);
    if IsEntry(s, p, r) && RunsTooFar(s, r) {
      var n: nat, q: nat :| Entries(s, r, n, q) && EntryTooFar(s, q);
      EntriesStep(s, p, r, n + 1, q);
    }
    if RunsTooFar(s, p) {
      var n: nat, q: nat :| Entries(s, p, n, q) && EntryTooFar(s, q);
      EntriesStep(s, p, r, n, q);
    }
  }

  /** From any index on. */
  lemma {:induction false} EntriesIff(s: seq<Byte>, p: nat, tags: Tags)
    requires IsSlice(s) && p <= |s|
    ensures DecodeEntries(s, p, tags).Decoded? <==> Finishes(s, p)
    ensures DecodeEntries(s, p, tags).Crash? <==> RunsTooFar(s, p)
    decreases |s| - p
  {
    hide DecodeEntries, EntryTooFar, IsEntry, Finishes, RunsTooFar;
    var r, tags' := p, tags;
    if p == |s| {
      Nothing(s, tags);
      NothingBehind(s);
    } else {
      r, tags' := EntryReads(s, p, tags);
      if IsEntry(s, p, r) {
        EntriesIff(s, r, tags');
      }
    }
    FinishesStep(s, p, r);
    RunsTooFarStep(s, p, r);
  }

  lemma NothingBehind(s: seq<Byte>)
    ensures !EntryTooFar(s, |s|) && forall r: nat :: !IsEntry(s, |s|, r)
  {
  }

  /** Decoding gives a map exactly on the version and a run of whole entries. */
  lemma DecodesIff(s: seq<Byte>)
    requires IsSlice(s)
    ensures DecodeSpec(s).Decoded? <==> s == [] || (s[0] == VERSION && Finishes(s, 1))
  {
    if s != [] {
      EntriesIff(s, 1, map[]);
    }
  }

  /** It ends in a run-time error exactly where, after whole entries, a field claims an end that no `int` holds. */
  lemma DecodeCrashesIff(s: seq<Byte>)
    requires IsSlice(s)
    ensures DecodeSpec(s).Crash? <==> s != [] && s[0] == VERSION && RunsTooFar(s, 1)
  {
    if s != [] {
      EntriesIff(s, 1, map[]);
    }
  }

  /** The version, the type of a key and any such length are enough. */
  lemma LongLengthCrashes(length: nat)
    requires 2 + |PutUvarint(length)| + length >= INT_END && length < 2 * INT_END
    ensures DecodeSpec([VERSION, STRING_KEY] + PutUvarint(length)) == Crash
  {
    hide Uvarint, PutUvarint;
    var v := PutUvarint(length);
    var s := [VERSION, STRING_KEY] + v;
    RoomIsWord();
    VarintInverse(length, 0, []);
    assert s[2..] == v + [];
    FieldReads(s, 2);
  }

  /** The number whose form is `n` full bytes and a last one. */
  function Full(n: nat, last: Byte): nat {
    if n == 0 then last else 127 + 128 * Full(n - 1, last)
  }

  lemma {:induction false} Ones(n: nat, last: Byte)
    requires 1 <= last < 128
    ensures Full(n, last) > 0 && PutUvarint(Full(n, last)) == seq(n, _ => 255) + [last]
  {
    if n > 0 {
      Ones(n - 1, last);
      assert Full(n, last) / 128 == Full(n - 1, last) && Full(n, last) % 128 == 127;
      assert seq(n, _ => 255) == [255] + seq(n - 1, _ => 255);
    }
  }

  /** Lengths of 2^64 - 1, negative as an `int`, and of 2^63 - 1, which only the sum takes beyond it. */
  lemma DecodeCrashes()
    ensures DecodeSpec([0, 0, 255, 255, 255, 255, 255, 255, 255, 255, 255, 1]) == Crash
    ensures DecodeSpec([0, 0, 255, 255, 255, 255, 255, 255, 255, 255, 127]) == Crash
  {
    hide DecodeSpec, PutUvarint, Full;
    Ones(8, 127);
    Ones(9, 1);
    FullWords();
    LongLengthCrashes(Full(8, 127));
    LongLengthCrashes(Full(9, 1));
    assert [0, 0, 255, 255, 255, 255, 255, 255, 255, 255, 255, 1] == [VERSION, STRING_KEY] + PutUvarint(Full(9, 1));
    assert [0, 0, 255, 255, 255, 255, 255, 255, 255, 255, 127] == [VERSION, STRING_KEY] + PutUvarint(Full(8, 127));
  }

  lemma FullWords()
    ensures Full(8, 127) == INT_END - 1 && Full(9, 1) == 2 * INT_END - 1
  {
    assert Full(2, 127) == 0x1F_FFFF && Full(4, 127) == 0x7_FFFF_FFFF && Full(6, 127) == 0x1_FFFF_FFFF_FFFF;
    assert Full(2, 1) == 0x7FFF && Full(4, 1) == 0x1FFF_FFFF && Full(6, 1) == 0x7FF_FFFF_FFFF;
    assert Full(8, 1) == 0x1FF_FFFF_FFFF_FFFF;
  }

  // ---------------------------------------------------------------- the encoder

  class Encoder {
    var buf: array<Byte>
    var writeIdx: nat

    ghost predicate Valid()
      reads this
    {
      writeIdx <= buf.Length
    }

    ghost function Written(): (s: seq<Byte>)
      requires Valid()
      reads this, buf
    {
      buf[..writeIdx]
    }

    constructor (size: nat)
      ensures Valid() && fresh(buf) && Written() == []
    {
      buf := new Byte[size](_ => 0);
      writeIdx := 0;
    }

    /** Makes room and keeps what was written. */
    method GrowIfRequired(expected: nat)
      requires Valid()
      modifies `buf
      ensures Valid() && buf.Length - writeIdx >= expected && Written() == old(Written())
      ensures buf == old(buf) || fresh(buf)
    {
      if buf.Length - writeIdx < expected {
        var tmp := new Byte[2 * (buf.Length + 1) + expected](_ => 0);
        forall i | 0 <= i < buf.Length {
          tmp[i] := buf[i];
        }
        assert tmp[..writeIdx] == buf[..writeIdx];
        buf := tmp;
      }
    }

    method WriteByte(v: Byte)
      requires Valid()
      modifies this, buf
      ensures Valid() && Written() == old(Written()) + [v] && (buf == old(buf) || fresh(buf))
    {
      GrowIfRequired(1);
      buf[writeIdx] := v;
      writeIdx := writeIdx + 1;
    }

    /** Writes into the room there is. */
    method Put(b: seq<Byte>)
      requires Valid() && writeIdx + |b| <= buf.Length
      modifies `writeIdx, buf
      ensures Valid() && buf == old(buf) && Written() == old(Written()) + b && writeIdx == old(writeIdx) + |b|
    {
      var i := 0;
      while i < |b|
        invariant 0 <= i <= |b| && writeIdx == old(writeIdx) && buf == old(buf)
        invariant buf[..writeIdx + i] == old(buf[..writeIdx]) + b[..i]
      {
        buf[writeIdx + i] := b[i];
        i := i + 1;
      }
      writeIdx := writeIdx + |b|;
    }

    /** The room asked for is enough for the length and the bytes. */
    method WriteBytesWithVarintLen(b: seq<Byte>)
      requires Valid() && |b| < 0x8000_0000_0000_0000
      modifies this, buf
      ensures Valid() && Written() == old(Written()) + FieldBytes(b) && (buf == old(buf) || fresh(buf))
    {
      hide PutUvarint;
      GrowIfRequired(MAX_VARINT + |b|);
      RoomIsWord();
      VarintInverse(|b|, 0, []);
      Put(PutUvarint(|b|));
      Put(b);
      assert old(Written()) + PutUvarint(|b|) + b == old(Written()) + FieldBytes(b);
    }

    method WriteEntry(k: seq<Byte>, v: seq<Byte>)
      requires Valid() && |k| < 0x8000_0000_0000_0000 && |v| < 0x8000_0000_0000_0000
      modifies this, buf
      ensures Valid() && Written() == old(Written()) + EntryBytes(k, v) && (buf == old(buf) || fresh(buf))
    {
      hide FieldBytes;
      WriteByte(STRING_KEY);
      WriteBytesWithVarintLen(k);
      WriteBytesWithVarintLen(v);
      assert old(Written()) + [STRING_KEY] + FieldBytes(k) + FieldBytes(v) == old(Written()) + EntryBytes(k, v);
    }
  }

  lemma NoEntries(m: Tags)
    ensures [VERSION] + EntriesBytes(m, []) == [VERSION]
  {
  }

  lemma EntriesSnoc(m: Tags, order: seq<seq<Byte>>, k: seq<Byte>)
    requires (forall i :: 0 <= i < |order| ==> order[i] in m) && k in m
    ensures [VERSION] + EntriesBytes(m, order + [k]) == [VERSION] + EntriesBytes(m, order) + EntryBytes(k, m[k])
  {
    hide EntryBytes;
    assert (order + [k])[..|order|] == order;
  }

  /** Writes the entries in whatever order the map yields them. */
  method Encode(m: Tags) returns (bytes: seq<Byte>)
    requires ValidTags(m)
    ensures IsSlice(bytes) ==> DecodeSpec(bytes) == Decoded(m)
  {
    hide EntryBytes, EntriesBytes, DecodeSpec, IsAscii;
    NoEntries(m);
    var eg := new Encoder(|m|);
    eg.WriteByte(VERSION);
    var left := m.Keys;
    ghost var order: seq<seq<Byte>> := [];
    while left != {}
      invariant left <= m.Keys && fresh(eg) && fresh(eg.buf) && eg.Valid()
      invariant (forall i :: 0 <= i < |order| ==> order[i] in m) && forall k :: k in m ==> k in order || k in left
      invariant eg.Written() == [VERSION] + EntriesBytes(m, order)
      decreases |left|
    {
      var k :| k in left;
      eg.WriteEntry(k, m[k]);
      EntriesSnoc(m, order, k);
      order := order + [k];
      left := left - {k};
    }
    bytes := eg.buf[..eg.writeIdx];
    if IsSlice(bytes) {
      RoundTrip(m, order);
    }
  }

  // ---------------------------------------------------------------- the decoder

  /** Seven bits at a time; the sum so far and the weight of the next byte. */
  method ReadUvarint(buf: seq<Byte>) returns (v: Varint)
    ensures v == Uvarint(buf, 0)
  {
    var i, x, weight := 0, 0, 1;
    while i < |buf|
      invariant i <= |buf| && weight >= 1 && x >= 0
      invariant Uvarint(buf, 0) == match Uvarint(buf[i..], i)
                                   case Ok(y, n) => Ok(x + weight * y, i + n)
                                   case Overflow => Overflow
                                   case Truncated => Truncated
    {
      var b := buf[i];
      if b < 128 {
        if i > 9 || (i == 9 && b > 1) {
          return Overflow;
        }
        return Ok(x + weight * b, i + 1);
      }
      ReadStep(buf, i, x, weight);
      x, weight := x + weight * (b - 128), weight * 128;
      i := i + 1;
    }
    v := Truncated;
  }

  lemma ReadStep(buf: seq<Byte>, i: nat, x: nat, weight: nat)
    requires i < |buf| && buf[i] >= 128
    ensures var r, q := Uvarint(buf[i..], i), Uvarint(buf[i + 1..], i + 1);
      match q
      case Ok(y, n) =>
        r.Ok? && r.size == n + 1 && x + weight * r.value == x + weight * (buf[i] - 128) + weight * 128 * y
      case Overflow => r.Overflow?
      case Truncated => r.Truncated?
  {
    assert buf[i..][1..] == buf[i + 1..];
    var q := Uvarint(buf[i + 1..], i + 1);
    if q.Ok? {
      var c, y := buf[i] - 128, q.value;
      assert weight * (c + 128 * y) == weight * c + weight * 128 * y;
    }
  }

  /** The field at the read index, and the index behind it. */
  method ReadBytesWithVarintLen(buf: seq<Byte>, readIdx: nat) returns (f: Field)
    requires readIdx <= |buf|
    ensures f == ReadField(buf, readIdx)
    ensures IsSlice(buf) ==> (f.OutOfRange? <==> EndsTooFar(buf, readIdx))
    ensures IsSlice(buf) ==> forall q: nat, b :: f == Field(b, q) <==> IsField(buf, readIdx, q, b)
  {
    hide Uvarint, Wrap;
    if IsSlice(buf) {
      FieldReads(buf, readIdx);
    }
    if readIdx >= |buf| {
      return BadField;
    }
    var v := ReadUvarint(buf[readIdx..]);
    if !v.Ok? {
      return BadField;
    }
    var start := v.size + readIdx;
    var end := Wrap(start + Wrap(v.value));
    if end > |buf| {
      return BadField;
    }
    if end < start {
      return OutOfRange;
    }
    f := Field(buf[start..end], end);
  }

  method Decode(bytes: seq<Byte>) returns (r: Outcome)
    ensures r == DecodeSpec(bytes)
    ensures IsSlice(bytes) && bytes != [] && bytes[0] == VERSION ==>
      (r.Decoded? <==> Finishes(bytes, 1)) && (r.Crash? <==> RunsTooFar(bytes, 1))
  {
    hide ReadField, ValidKey, ValidValue, Finishes, RunsTooFar;
    if IsSlice(bytes) {
      DecodesIff(bytes);
      DecodeCrashesIff(bytes);
    }
    if |bytes| == 0 {
      return Decoded(map[]);
    }
    if bytes[0] > VERSION {
      return Malformed;
    }
    var tags: Tags := map[];
    var readIdx := 1;
    while readIdx < |bytes|
      invariant 1 <= readIdx <= |bytes| && DecodeSpec(bytes) == DecodeEntries(bytes, readIdx, tags)
      decreases |bytes| - readIdx
    {
      if bytes[readIdx] != STRING_KEY {
        return Malformed;
      }
      var k := ReadBytesWithVarintLen(bytes, readIdx + 1);
      if !k.Field? {
        return if k.BadField? then Malformed else Crash;
      }
      var v := ReadBytesWithVarintLen(bytes, k.next);
      if !v.Field? {
        return if v.BadField? then Malformed else Crash;
      }
      if !ValidKey(k.bytes) {
        return Malformed;
      }
      if !ValidValue(v.bytes) {
        return Malformed;
      }
      tags := tags[k.bytes := v.bytes];
      readIdx := v.next;
    }
    r := Decoded(tags);
  }
}
