/**
 The reader object: raw bytes come from a handler in pieces of any size, and go into the buffer
 that the scanner reads from as UTF-8.
 */
module ReaderObject {
  import opened Options
  import opened YamlChars
  import opened ReaderModel

  const RAW_SIZE: nat := 512
  const BUFFER_SIZE: nat := 3 * RAW_SIZE
  /** Requests have to stay well below the buffer's size; the scanner never asks for more than eight characters. */
  const MAX_REQUEST: nat := 64

  // ---------------------------------------------------------------- one character

  /** The bits of the leading octet and of the trailing ones up to `k`. */
  function Partial(c: seq<Byte>, k: nat): int
    requires 1 <= k <= |c|
  {
    if k == 1 then Low(c[0], if |c| == 1 then 128 else if |c| == 2 then 32 else if |c| == 3 then 16 else 8)
    else Partial(c, k - 1) * 64 + Low(c[k - 1], 64)
  }

  lemma PartialIsDecode(c: seq<Byte>)
    requires 1 <= |c| <= 4
    ensures Partial(c, |c|) == Decode(c)
  {
    if |c| >= 2 {
      assert Partial(c, 2) == Partial(c, 1) * 64 + Low(c[1], 64);
    }
    if |c| >= 3 {
      assert Partial(c, 3) == Partial(c, 2) * 64 + Low(c[2], 64);
    }
  }

  /** Decodes the octets at the front one after the other. */
  method ReadUtf8(s: seq<Byte>) returns (n: Next)
    requires s != []
    ensures n == NextUtf8(s)
  {
    var w := Width(s[0]);
    if w == 0 {
      return Bad(InvalidLead);
    }
    if w > |s| {
      return Short;
    }
    ghost var c := s[..w];
    var value: int := Low(s[0], if w == 1 then 128 else if w == 2 then 32 else if w == 3 then 16 else 8);
    var k := 1;
    while k < w
      invariant 1 <= k <= w && value == Partial(c, k)
      invariant forall j :: 1 <= j < k ==> IsTail(c[j])
    {
      if !IsTail(s[k]) {
        assert c[k] == s[k];
        return Bad(InvalidTail);
      }
      value := value * 64 + Low(s[k], 64);
      k := k + 1;
    }
    PartialIsDecode(c);
    if !LengthFine(value, w) {
      return Bad(WrongLength);
    }
    if 0xD800 <= value <= 0xDFFF || value > 0x10FFFF {
      return Bad(NotUnicode);
    }
    n := Checked(value, w);
  }

  method ReadNext(enc: Encoding, s: seq<Byte>) returns (n: Next)
    requires s != []
    ensures n == NextOf(enc, s)
  {
    if enc.Utf8? {
      n := ReadUtf8(s);
    } else {
      n := NextUtf16(s, enc.Utf16LE?);
    }
  }

  // ---------------------------------------------------------------- the whole input

  /** The encoding that a byte order mark announces, and the mark's length. */
  function EncodingOf(s: seq<Byte>): Encoding {
    if |s| >= 2 && s[0] == 0xFF && s[1] == 0xFE then Utf16LE
    else if |s| >= 2 && s[0] == 0xFE && s[1] == 0xFF then Utf16BE
    else Utf8
  }

  function MarkLength(s: seq<Byte>): (n: nat)
    ensures n <= |s|
  {
    if EncodingOf(s) != Utf8 then 2
    else if |s| >= 3 && s[0] == 0xEF && s[1] == 0xBB && s[2] == 0xBF then 3
    else 0
  }

  /** What the input stands for. */
  function Text(s: seq<Byte>): (d: Decoded)
    ensures Scalars(d.chars)
  {
    DecodeAll(EncodingOf(s), s[MarkLength(s)..])
  }

  /** FF FE announces UTF-16 with the low byte first, FE FF the other order, EF BB BF or no mark UTF-8. */
  lemma MarksAnnounce(cps: seq<int>)
    requires Scalars(cps) && AllowedAll(cps)
    ensures Text([0xFF, 0xFE] + Encode16All(cps, true)) == Decoded(cps, None)
    ensures Text([0xFE, 0xFF] + Encode16All(cps, false)) == Decoded(cps, None)
    ensures Text([0xEF, 0xBB, 0xBF] + EncodeAll(cps)) == Decoded(cps, None)
    ensures cps == [] || cps[0] != 0xFEFF ==> Text(EncodeAll(cps)) == Decoded(cps, None)
  {
    hide DecodeAll, Encode16All, EncodeAll, Allowed;
    Utf16Read(cps, true);
    Utf16Read(cps, false);
    Utf8ReadAs(cps);
    assert ([0xFF, 0xFE] + Encode16All(cps, true))[2..] == Encode16All(cps, true);
    assert ([0xFE, 0xFF] + Encode16All(cps, false))[2..] == Encode16All(cps, false);
    assert ([0xEF, 0xBB, 0xBF] + EncodeAll(cps))[3..] == EncodeAll(cps);
    if cps == [] || cps[0] != 0xFEFF {
      var s := EncodeAll(cps);
      NoMark(cps);
      assert s[0..] == s;
    }
  }

  lemma FirstIsNoMark(cp: int)
    requires IsScalar(cp) && cp != 0xFEFF
    ensures var c := Encode(cp);
            c != [] && c[0] < 0xFE && (c[0] == 0xEF ==> |c| == 3 && !(c[1] == 0xBB && c[2] == 0xBF))
  {
  }

  lemma {:induction false} NoMark(cps: seq<int>)
    requires Scalars(cps) && (cps == [] || cps[0] != 0xFEFF)
    ensures EncodingOf(EncodeAll(cps)) == Utf8 && MarkLength(EncodeAll(cps)) == 0
  {
    if cps != [] {
      var c, rest := Encode(cps[0]), EncodeAll(cps[1..]);
      hide EncodeAll, IsChar, Decode, Encode;
      FirstIsNoMark(cps[0]);
      assert cps == [cps[0]] + cps[1..];
      EncodeAllConcat([cps[0]], cps[1..]);
      EncodeOne(cps[0]);
      var s := c + rest;
      assert s[0] == c[0] && (|c| == 3 ==> s[1] == c[1] && s[2] == c[2]);
    }
  }

  function Prepend(cps: seq<int>, d: Decoded): Decoded {
    Decoded(cps + d.chars, d.problem)
  }

  function Nuls(n: nat): (s: seq<Byte>)
    ensures |s| == n && forall i :: 0 <= i < n ==> s[i] == 0
  {
    seq(n, _ => 0)
  }

  lemma {:induction false} AtLeastOneByte(cps: seq<int>)
    requires Scalars(cps)
    ensures |cps| <= |EncodeAll(cps)| <= 4 * |cps|
  {
    if cps != [] {
      AtLeastOneByte(cps[..|cps| - 1]);
    }
  }

  lemma {:induction false} CharsAllowed(enc: Encoding, s: seq<Byte>)
    ensures AllowedAll(DecodeAll(enc, s).chars)
    decreases |s|
  {
    hide Allowed;
    if s != [] {
      var n := NextOf(enc, s);
      if n.Char? {
        CharsAllowed(enc, s[n.width..]);
      }
    }
  }

  /** Taking the next character off what is left. */
  lemma OneMore(enc: Encoding, all: Decoded, out: seq<int>, pending: seq<Byte>, v: int, w: nat)
    requires pending != [] && NextOf(enc, pending) == Char(v, w)
    requires all == Prepend(out, DecodeAll(enc, pending))
    ensures w <= |pending| && all == Prepend(out + [v], DecodeAll(enc, pending[w..]))
  {
    var d := DecodeAll(enc, pending[w..]);
    assert out + ([v] + d.chars) == (out + [v]) + d.chars;
  }

  /** An error at the front of what is left is the error of the whole input. */
  lemma NoMore(enc: Encoding, all: Decoded, out: seq<int>, pending: seq<Byte>)
    requires pending != [] && !NextOf(enc, pending).Char?
    requires all == Prepend(out, DecodeAll(enc, pending))
    ensures all.chars == out && all.problem.Some?
  {
  }

  class Reader {
    var rawBuffer: seq<Byte>
    var rawBufferPos: nat
    var eof: bool
    var encoding: Option<Encoding>
    /** How many bytes of the input have been decoded. */
    var offset: nat
    var buffer: seq<Byte>
    var bufferPos: nat
    /** How many characters the scanner may still take. */
    var unread: nat
    /** What the handler has not delivered yet. */
    var source: seq<Byte>
    ghost const whole: seq<Byte>
    /** The characters decoded so far and how many of them the scanner took; the NULs behind them. */
    ghost var out: seq<int>
    ghost var used: nat
    ghost var nuls: nat

    constructor (input: seq<Byte>)
      ensures Valid() && whole == input && out == [] && used == 0
    {
      rawBuffer, rawBufferPos, eof, encoding, offset := [], 0, false, None, 0;
      buffer, bufferPos, unread, source := [], 0, 0, input;
      whole, out, used, nuls := input, [], 0, 0;
    }

    ghost function Pending(): seq<Byte>
      requires rawBufferPos <= |rawBuffer|
      reads `rawBuffer, `rawBufferPos, `source
    {
      rawBuffer[rawBufferPos..] + source
    }

    /** The raw side: nothing of the input is lost. */
    ghost predicate RawKept()
      reads `rawBuffer, `rawBufferPos, `source, `eof, `offset
    {
      && rawBufferPos <= |rawBuffer| <= RAW_SIZE && (eof ==> source == [])
      && offset <= |whole| && whole[offset..] == Pending()
    }

    /** The decoded characters are the first ones of the input's text. */
    ghost predicate TextKept()
      requires rawBufferPos <= |rawBuffer|
      reads `rawBuffer, `rawBufferPos, `source, `encoding, `out
    {
      && encoding == Some(EncodingOf(whole)) && Scalars(out)
      && Text(whole) == Prepend(out, DecodeAll(encoding.value, Pending()))
    }

    /** The buffer holds the characters not taken yet, and NULs only behind the last one. */
    ghost predicate BufferKept()
      reads `buffer, `bufferPos, `unread, `out, `used, `nuls
    {
      && bufferPos <= |buffer| && used <= |out| && Scalars(out)
      && buffer[bufferPos..] == EncodeAll(out[used..]) + Nuls(nuls)
      && |out| - used <= unread <= |out| - used + nuls
      && unread - (|out| - used) <= MAX_REQUEST && nuls <= MAX_REQUEST + (unread - (|out| - used))
    }

    ghost predicate Fresh()
      reads this
    {
      && encoding == None && offset == 0 && out == [] && used == 0
      && buffer == [] && bufferPos == 0 && unread == 0 && nuls == 0
    }

    ghost predicate Valid()
      reads this
    {
      && RawKept() && |buffer| <= BUFFER_SIZE
      && (Fresh() || (TextKept() && BufferKept()))
      && (nuls > 0 ==> eof && Pending() == [])
    }

    /** A read of any size; the end may come with the last bytes or after them. */
    method Read(space: nat) returns (bytes: seq<Byte>, last: bool)
      requires space > 0
      modifies `source
      ensures old(source) == bytes + source && |bytes| <= space
      ensures old(source) != [] ==> bytes != []
      ensures last ==> source == []
      ensures old(source) == [] ==> last
    {
      if source == [] {
        return [], true;
      }
      var most := if space < |source| then space else |source|;
      var n :| 1 <= n <= most;
      bytes := source[..n];
      source := source[n..];
      last :| last ==> source == [];
    }

    /** Moves what is left to the front and reads on. */
    method UpdateRawBuffer()
      requires RawKept()
      modifies `rawBuffer, `rawBufferPos, `source, `eof
      ensures RawKept() && Pending() == old(Pending())
      ensures old(eof) ==> eof && rawBuffer[rawBufferPos..] == old(rawBuffer[rawBufferPos..])
      ensures |rawBuffer| - rawBufferPos >= old(|rawBuffer| - rawBufferPos)
      ensures !old(eof) && !old(rawBufferPos == 0 && |rawBuffer| == RAW_SIZE) ==>
        eof || |rawBuffer| - rawBufferPos > old(|rawBuffer| - rawBufferPos)
    {
      if rawBufferPos == 0 && |rawBuffer| == RAW_SIZE {
        return;
      }
      if eof {
        return;
      }
      rawBuffer := rawBuffer[rawBufferPos..];
      rawBufferPos := 0;
      assert rawBuffer[0..] == rawBuffer;
      var bytes, last := Read(RAW_SIZE - |rawBuffer|);
      assert rawBuffer + (bytes + source) == (rawBuffer + bytes) + source;
      rawBuffer := rawBuffer + bytes;
      assert rawBuffer[0..] == rawBuffer;
      if last {
        eof := true;
      }
    }

    /** Looks at the first bytes for a byte order mark, however few a read delivers. */
    method DetermineEncoding()
      requires Valid() && Fresh()
      modifies `rawBuffer, `rawBufferPos, `source, `eof, `encoding, `offset
      ensures RawKept() && TextKept() && out == []
    {
      while !eof && |rawBuffer| - rawBufferPos < 3
        invariant RawKept() && offset == 0
        decreases |source|, !eof
      {
        UpdateRawBuffer();
      }
      var s := rawBuffer[rawBufferPos..];
      assert whole == s + source;
      Announced(s, source);
      encoding := Some(EncodingOf(s));
      var n := MarkLength(s);
      rawBufferPos := rawBufferPos + n;
      offset := offset + n;
      assert rawBuffer[rawBufferPos..] == s[n..];
      assert whole[n..] == s[n..] + source;
      assert [] + DecodeAll(encoding.value, Pending()).chars == DecodeAll(encoding.value, Pending()).chars;
    }

    /** Puts a character behind the others. */
    method Store(v: int)
      requires BufferKept() && nuls == 0 && IsScalar(v)
      modifies `buffer, `unread, `out
      ensures BufferKept() && out == old(out) + [v] && unread == old(unread) + 1
      ensures |buffer| == |old(buffer)| + |Encode(v)|
    {
      hide Encode, EncodeAll;
      assert (out + [v])[used..] == out[used..] + [v];
      EncodeAllConcat(out[used..], [v]);
      EncodeOne(v);
      assert (buffer + Encode(v))[bufferPos..] == buffer[bufferPos..] + Encode(v);
      buffer := buffer + Encode(v);
      unread := unread + 1;
      out := out + [v];
    }

    /** Takes one character off the raw bytes. */
    method Advance(v: int, w: nat)
      requires RawKept() && TextKept() && BufferKept() && nuls == 0 && rawBufferPos < |rawBuffer|
      requires NextOf(encoding.value, rawBuffer[rawBufferPos..]) == Char(v, w)
      modifies `rawBufferPos, `offset, `buffer, `unread, `out
      ensures RawKept() && TextKept() && BufferKept() && rawBufferPos == old(rawBufferPos) + w
      ensures out == old(out) + [v] && unread == old(unread) + 1 && |buffer| <= |old(buffer)| + 2 * w
    {
      hide DecodeAll, EncodeAll, Encode, NextUtf8, NextUtf16, EncodingOf, MarkLength;
      AtMostDouble(encoding.value, rawBuffer[rawBufferPos..]);
      ghost var raw := rawBuffer[rawBufferPos..];
      NextStable(encoding.value, raw, source);
      OneMore(encoding.value, Text(whole), out, Pending(), v, w);
      assert rawBuffer[rawBufferPos + w..] == raw[w..];
      assert Pending()[w..] == raw[w..] + source;
      assert whole[offset + w..] == whole[offset..][w..];
      rawBufferPos := rawBufferPos + w;
      offset := offset + w;
      Store(v);
    }

    /** Decodes until the raw bytes are used up or end inside a character. */
    method DecodeRaw() returns (ok: bool)
      requires RawKept() && TextKept() && BufferKept() && (nuls > 0 ==> Pending() == [])
      modifies `rawBufferPos, `offset, `buffer, `unread, `out
      ensures ok ==> RawKept() && TextKept() && BufferKept() && old(out) <= out && (nuls > 0 ==> Pending() == [])
      ensures ok && eof ==> Pending() == []
      ensures ok ==> |rawBuffer| - rawBufferPos < 4 && |buffer| <= |old(buffer)| + 2 * RAW_SIZE
      ensures ok ==> unread - |out| == old(unread) - |old(out)|
      ensures !ok ==> Text(whole).problem.Some? && Text(whole).chars == out
    {
      hide DecodeAll, EncodeAll, Encode, NextUtf8, NextUtf16, EncodingOf, MarkLength, Text, Prepend;
      while rawBufferPos != |rawBuffer|
        invariant RawKept() && TextKept() && BufferKept() && (nuls > 0 ==> Pending() == []) && old(out) <= out
        invariant |buffer| <= |old(buffer)| + 2 * (rawBufferPos - old(rawBufferPos))
        invariant unread - |out| == old(unread) - |old(out)|
        decreases |rawBuffer| - rawBufferPos
      {
        var s := rawBuffer[rawBufferPos..];
        var n := ReadNext(encoding.value, s);
        if n.Short? {
          ShortIsShort(encoding.value, s);
          if eof {
            assert Pending() == s;
            NoMore(encoding.value, Text(whole), out, Pending());
            return false;
          }
          break;
        }
        if n.Bad? {
          NextStable(encoding.value, s, source);
          NoMore(encoding.value, Text(whole), out, Pending());
          return false;
        }
        Advance(n.value, n.width);
      }
      ok := true;
    }

    /** A NUL behind the last character; `counted` makes it one the scanner may look at. */
    method StoreNul(counted: bool)
      requires BufferKept()
      requires if counted then unread - (|out| - used) < MAX_REQUEST else |buffer| - bufferPos < MAX_REQUEST
      modifies `buffer, `unread, `nuls
      ensures BufferKept() && nuls == old(nuls) + 1 && |buffer| == |old(buffer)| + 1
      ensures unread == old(unread) + if counted then 1 else 0
    {
      hide EncodeAll;
      assert (buffer + [0])[bufferPos..] == buffer[bufferPos..] + [0];
      assert Nuls(nuls + 1) == Nuls(nuls) + [0];
      buffer := buffer + [0];
      nuls := nuls + 1;
      if counted {
        unread := unread + 1;
      }
    }

    /** The buffer has a byte for every character the scanner may take. */
    lemma EnoughBytes()
      requires BufferKept()
      ensures |buffer| - bufferPos >= unread
      ensures |buffer| - bufferPos <= 4 * (|out| - used) + nuls
    {
      AtLeastOneByte(out[used..]);
    }

    ghost predicate Kept()
      reads this
    {
      RawKept() && TextKept() && BufferKept() && bufferPos == 0 && (nuls > 0 ==> eof && Pending() == [])
    }

    /** One turn of reading and decoding; at the end of the input a NUL goes behind the last character. */
    method FillOnce(read: bool) returns (ok: bool)
      requires Kept() && unread < MAX_REQUEST && !(read && rawBufferPos == 0 && |rawBuffer| == RAW_SIZE)
      modifies `rawBuffer, `rawBufferPos, `source, `eof, `offset, `buffer, `unread, `out, `nuls
      ensures ok ==> Kept() && old(out) <= out && |buffer| <= BUFFER_SIZE && (eof ==> Pending() == [])
      ensures ok && !eof ==> |rawBuffer| - rawBufferPos < 4
      ensures |source| <= |old(source)| && (ok && !eof && read ==> |source| < |old(source)|)
      ensures !ok ==> Text(whole).problem.Some? && Text(whole).chars == out
    {
      hide DecodeAll, EncodeAll, EncodingOf, MarkLength, Text, Prepend;
      EnoughBytes();
      if read {
        UpdateRawBuffer();
      }
      ok := DecodeRaw();
      if ok && eof {
        StoreNul(true);
      }
    }

    /** Reads and decodes until there are `length` characters or the input ends. */
    method Fill(length: nat) returns (ok: bool)
      requires Kept() && length <= MAX_REQUEST && unread < length
      modifies `rawBuffer, `rawBufferPos, `source, `eof, `offset, `buffer, `unread, `out, `nuls
      ensures ok ==>
        Kept() && old(out) <= out && |buffer| <= BUFFER_SIZE && (unread >= length || (eof && Pending() == []))
      ensures !ok ==> Text(whole).problem.Some? && Text(whole).chars == out
    {
      hide DecodeAll, EncodeAll, EncodingOf, MarkLength, Text, Prepend, TextKept, BufferKept;
      var first := true;
      while unread < length
        invariant Kept() && old(out) <= out && (!first ==> |buffer| <= BUFFER_SIZE)
        invariant !first ==> !eof && |rawBuffer| - rawBufferPos < 4
        invariant first ==> unread < length
        decreases first, |source|
      {
        var read := !first || rawBufferPos == |rawBuffer|;
        first := false;
        ok := FillOnce(read);
        if !ok {
          return;
        }
        if eof {
          break;
        }
      }
      ok := true;
    }

    /**
     Makes `length` bytes available: characters of the input's text, and NULs behind its end. It
     fails only where the input is not well-formed text, with everything before that decoded.
     */
    method UpdateBuffer(length: nat) returns (ok: bool)
      requires Valid() && length <= MAX_REQUEST
      modifies `rawBuffer, `rawBufferPos, `source, `eof, `encoding, `offset, `buffer, `bufferPos, `unread, `out, `nuls
      ensures ok ==> Valid() && old(out) <= out && |buffer| - bufferPos >= length
      ensures ok && length > 0 ==> !Fresh() && (unread >= length || (eof && Pending() == []))
      ensures !ok ==> Text(whole).problem.Some? && Text(whole).chars == out
    {
      hide DecodeAll, EncodeAll, EncodingOf, MarkLength, Text, Prepend;
      if unread >= length {
        if !Fresh() {
          EnoughBytes();
        }
        return true;
      }
      if encoding == None {
        DetermineEncoding();
        NothingYet();
      }
      buffer := buffer[bufferPos..];
      bufferPos := 0;
      assert buffer[0..] == buffer;
      ok := Fill(length);
      if !ok {
        return;
      }
      EnoughBytes();
      while |buffer| < length
        invariant Kept() && |buffer| <= BUFFER_SIZE
        invariant old(out) <= out && (unread >= length ==> |buffer| >= length)
        invariant unread >= length || (eof && Pending() == [])
      {
        StoreNul(false);
      }
    }

    lemma NothingYet()
      requires out == [] && used == 0 && buffer == [] && bufferPos == 0 && unread == 0 && nuls == 0
      ensures BufferKept()
    {
      assert EncodeAll(out[used..]) + Nuls(0) == [];
    }

    /** Whether the scanner has come to the end of the text. */
    method AtEnd() returns (end: bool)
      requires Valid() && !Fresh() && bufferPos < |buffer|
      ensures end <==> used == |out|
      ensures end ==> Text(whole) == Decoded(out, None)
    {
      ghost var live := buffer[bufferPos..];
      CharsAllowed(encoding.value, whole[MarkLength(whole)..]);
      if used < |out| {
        assert AllowedAll(Text(whole).chars) && out[used] == Text(whole).chars[used];
        FirstByte(out[used..]);
        assert live[0] == EncodeAll(out[used..])[0];
      } else {
        assert EncodeAll(out[used..]) == [];
        assert |live| == nuls;
        Finished();
      }
      end := buffer[bufferPos] == 0;
    }

    /** The scanner takes one character. */
    method TakeChar() returns (c: seq<Byte>)
      requires Valid() && used < |out|
      modifies `bufferPos, `unread, `used
      ensures Valid() && used == old(used) + 1 && Scalars([out[old(used)]]) && c == Encode(out[old(used)])
    {
      hide DecodeAll, EncodeAll, EncodingOf, MarkLength, Text, Prepend, Encode;
      ghost var v := out[used];
      ghost var live := buffer[bufferPos..];
      assert out[used..] == [v] + out[used + 1..];
      EncodeAllConcat([v], out[used + 1..]);
      EncodeOne(v);
      EncodedWidth(v);
      assert live == Encode(v) + (EncodeAll(out[used + 1..]) + Nuls(nuls));
      var w := Width(buffer[bufferPos]);
      assert buffer[bufferPos] == live[0] == Encode(v)[0];
      assert live[..w] == Encode(v);
      assert buffer[bufferPos + w..] == live[w..];
      c := buffer[bufferPos..bufferPos + w];
      bufferPos := bufferPos + w;
      unread := unread - 1;
      used := used + 1;
    }

    /** With nothing left to take or to decode, the whole text has been read. */
    lemma Finished()
      requires Valid() && !Fresh() && used == |out| && eof && Pending() == []
      ensures Text(whole) == Decoded(out, None)
    {
      NothingDecoded(encoding.value);
      assert out + [] == out;
    }

    /** What has been decoded is a prefix of the text. */
    lemma OutIsPrefix()
      requires Valid()
      ensures Scalars(out) && used <= |out| && out <= Text(whole).chars
    {
    }

    /** The next character of the text, its end, or the error in it. */
    method NextChar() returns (ok: bool, c: seq<Byte>)
      requires Valid()
      modifies `rawBuffer, `rawBufferPos, `source, `eof, `encoding, `offset, `buffer, `bufferPos, `unread, `out,
          `used, `nuls
      ensures !ok ==> Text(whole).problem.Some?
      ensures ok ==> Valid()
      ensures ok && c == [] ==> used == old(used) && Text(whole).problem.None? && |Text(whole).chars| == used
      ensures ok && c != [] ==>
        used == old(used) + 1 <= |Text(whole).chars| && c == Encode(Text(whole).chars[old(used)])
    {
      hide DecodeAll, EncodeAll, EncodingOf, MarkLength, Text, Prepend, Encode;
      c := [];
      ok := UpdateBuffer(1);
      if !ok {
        return;
      }
      var end := AtEnd();
      OutIsPrefix();
      if !end {
        EncodedWidth(out[used]);
        c := TakeChar();
      }
    }
  }

  lemma EncodedWidth(v: int)
    requires IsScalar(v)
    ensures Encode(v) != [] && Width(Encode(v)[0]) == |Encode(v)|
  {
    DecodeInverse(v);
    EncodeInverse(Encode(v));
  }

  lemma FirstByte(cps: seq<int>)
    requires Scalars(cps) && cps != [] && Allowed(cps[0])
    ensures EncodeAll(cps) != [] && EncodeAll(cps)[0] != 0
  {
    assert cps == [cps[0]] + cps[1..];
    EncodeAllConcat([cps[0]], cps[1..]);
    EncodeOne(cps[0]);
  }

  /** Stored, a character takes at most twice the bytes it came in. */
  lemma AtMostDouble(enc: Encoding, s: seq<Byte>)
    requires s != [] && NextOf(enc, s).Char?
    ensures |Encode(NextOf(enc, s).value)| <= 2 * NextOf(enc, s).width
  {
    var n := NextOf(enc, s);
    if enc.Utf8? {
      Utf8Accepted(s);
    } else {
      Utf16Sound(s, enc.Utf16LE?, n.value, n.width);
    }
  }

  lemma ShortIsShort(enc: Encoding, s: seq<Byte>)
    requires s != [] && NextOf(enc, s).Short?
    ensures |s| < 4
  {
  }

  /** Three bytes, or all there are, are enough to tell. */
  lemma Announced(s: seq<Byte>, more: seq<Byte>)
    requires |s| >= 3 || more == []
    ensures EncodingOf(s + more) == EncodingOf(s) && MarkLength(s + more) == MarkLength(s)
  {
    if more == [] {
      assert s + more == s;
    }
  }

  /**
   Reads everything, one character at a time. Whether that succeeds and what is read are functions
   of the input alone, however the handler cuts it up; before an error, a prefix of the text is read.
   */
  method ReadEverything(input: seq<Byte>) returns (bytes: seq<Byte>, fine: bool)
    ensures fine <==> Text(input).problem.None?
    ensures fine ==> bytes == EncodeAll(Text(input).chars)
    ensures bytes <= EncodeAll(Text(input).chars)
  {
    hide DecodeAll, EncodeAll, EncodingOf, MarkLength, Text, Encode, Reader.Valid;
    var r := new Reader(input);
    ghost var all := Text(input).chars;
    bytes := [];
    NothingDecoded(Utf8);
    assert all[..0] == [];
    while true
      invariant fresh(r) && r.Valid() && r.whole == input
      invariant r.used <= |all| && bytes == EncodeAll(all[..r.used])
      decreases |all| - r.used
    {
      PrefixBytes(all, r.used);
      var ok, c := r.NextChar();
      if !ok {
        return bytes, false;
      }
      if c == [] {
        break;
      }
      NextBytes(all, r.used - 1);
      bytes := bytes + c;
    }
    assert all[..r.used] == all;
    fine := true;
  }

  lemma PrefixBytes(all: seq<int>, n: nat)
    requires n <= |all| && Scalars(all)
    ensures EncodeAll(all[..n]) <= EncodeAll(all)
  {
    assert all == all[..n] + all[n..];
    EncodeAllConcat(all[..n], all[n..]);
  }

  lemma NextBytes(out: seq<int>, n: nat)
    requires n < |out| && Scalars(out)
    ensures EncodeAll(out[..n + 1]) == EncodeAll(out[..n]) + Encode(out[n])
  {
    assert out[..n + 1][..n] == out[..n];
  }
}
