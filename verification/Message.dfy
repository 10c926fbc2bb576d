/** The chunked message of ourLibs/Message.h: a list of (pointer, length) pairs over buffers, meant to
    behave as one string of bytes.  No message operation writes to a buffer that a message points to,
    so a buffer is modelled by its bytes. */
module Messages {
  import opened Headers

  const INT_MAX := 0x7FFF_FFFF
  const SIZE_MOD := 0x1_0000_0000_0000_0000  // size_t arithmetic wraps around here

  /** A MsgPair: `first` points to position `off` of a buffer, `second` is `len`. */
  datatype MsgPair = MsgPair(buf: Bytes, off: nat, len: nat)

  type Chunk = c: MsgPair | c.off + c.len <= |c.buf| witness MsgPair([], 0, 0)

  /** What msgStripHdr returns: a char* or NULL. */
  datatype Pointer = Null | Stripped(bytes: Bytes)

  function Span(c: Chunk): Bytes {
    c.buf[c.off..c.off + c.len]
  }

  /** The chunk after `first += n; second -= n`. */
  function Advanced(c: Chunk, n: nat): Chunk
    requires n <= c.len
  {
    MsgPair(c.buf, c.off + n, c.len - n)
  }

  /** The bytes the chunks stand for. */
  function Flat(cs: seq<Chunk>): (b: Bytes)
    ensures |b| == Total(cs)
  {
    if cs == [] then [] else Span(cs[0]) + Flat(cs[1..])
  }

  function Total(cs: seq<Chunk>): nat {
    if cs == [] then 0 else cs[0].len + Total(cs[1..])
  }

  lemma Assoc(a: Bytes, b: Bytes, c: Bytes)
    ensures a + b + c == a + (b + c)
  {
  }

  lemma {:induction false} FlatConcat(xs: seq<Chunk>, ys: seq<Chunk>)
    ensures Flat(xs + ys) == Flat(xs) + Flat(ys)
  {
    if xs == [] {
      assert xs + ys == ys;
    } else {
      FlatConcat(xs[1..], ys);
      assert (xs + ys)[1..] == xs[1..] + ys;
      Assoc(Span(xs[0]), Flat(xs[1..]), Flat(ys));
    }
  }

  /** A chunk put behind others adds its bytes at the end. */
  lemma FlatSnoc(cs: seq<Chunk>, c: Chunk)
    ensures Flat(cs + [c]) == Flat(cs) + Span(c)
  {
    FlatConcat(cs, [c]);
    assert Flat([c]) == Span(c) + Flat([c][1..]) == Span(c);
  }

  lemma TotalSnoc(cs: seq<Chunk>, c: Chunk)
    ensures Total(cs + [c]) == Total(cs) + c.len
  {
    FlatSnoc(cs, c);
    assert |Span(c)| == c.len;
  }

  /** Advancing the front pointer by n takes n bytes off the front. */
  lemma FlatAdvance(cs: seq<Chunk>, n: nat)
    requires cs != [] && n <= cs[0].len
    ensures Flat(cs) == cs[0].buf[cs[0].off..cs[0].off + n] + Flat(cs[0 := Advanced(cs[0], n)])
  {
    var c := cs[0];
    assert Span(c) == c.buf[c.off..c.off + n] + Span(Advanced(c, n));
    assert cs[0 := Advanced(c, n)][1..] == cs[1..];
    Assoc(c.buf[c.off..c.off + n], Span(Advanced(c, n)), Flat(cs[1..]));
  }

  // ---------- What msgSplit does to the length fields ----------

  /** The bytes of the chunks that msgSplit moves whole inside its loop; each of them it takes off
      m_MsgLen once there and once more, as part of `len`, at the end. */
  function MovedWhole(cs: seq<Chunk>, len: nat): nat {
    if cs == [] || cs[0].len == len then 0 else MovedInLoop(cs, len)
  }

  function MovedInLoop(cs: seq<Chunk>, len: nat): nat {
    if cs == [] || cs[0].len >= len then 0 else cs[0].len + MovedInLoop(cs[1..], len - cs[0].len)
  }

  /** The length of the first chunk that is not empty. */
  function Leading(cs: seq<Chunk>): nat {
    if cs == [] then 0 else if cs[0].len > 0 then cs[0].len else Leading(cs[1..])
  }

  function SecondLength(cs: seq<Chunk>, len: nat): nat {
    (Total(cs) - MovedWhole(cs, len) - len) % SIZE_MOD
  }

  lemma {:induction false} MovedInLoopBounds(cs: seq<Chunk>, len: nat)
    requires 0 < len <= Total(cs)
    ensures MovedInLoop(cs, len) < len
    ensures MovedInLoop(cs, len) == 0 <==> len <= Leading(cs)
  {
    if cs[0].len < len {
      MovedInLoopBounds(cs[1..], len - cs[0].len);
    }
  }

  /** The length msgSplit gives the second message is right exactly when the cut is within the first
      chunk that is not empty; otherwise it is short by the chunks moved whole. */
  lemma SecondLengthRight(cs: seq<Chunk>, len: nat)
    requires len <= Total(cs) <= INT_MAX
    ensures MovedWhole(cs, len) <= len
    ensures SecondLength(cs, len) == Total(cs) - len <==> len <= Leading(cs)
  {
    if cs != [] && len > 0 {
      MovedInLoopBounds(cs, len);
      if cs[0].len == len {
        assert Leading(cs) == len;
      }
    }
  }

  lemma Wraps(x: int)
    requires -SIZE_MOD <= x < SIZE_MOD
    ensures x % SIZE_MOD == (if x >= 0 then x else x + SIZE_MOD) && (x >= 0 ==> (x + SIZE_MOD) % SIZE_MOD == x)
  {
  }

  /** Every cut lies in exactly one chunk. */
  lemma {:induction false} CutChunk(cs: seq<Chunk>, len: nat) returns (k: nat)
    requires 0 < len <= Total(cs)
    ensures k < |cs| && Total(cs[..k]) < len <= Total(cs[..k + 1])
  {
    if len <= cs[0].len {
      k := 0;
      assert cs[..1][1..] == [];
    } else {
      var i := CutChunk(cs[1..], len - cs[0].len);
      k := i + 1;
      assert cs[..k][1..] == cs[1..][..i] && cs[..k + 1][1..] == cs[1..][..i + 1];
    }
  }

  lemma {:induction false} MovedAreBefore(cs: seq<Chunk>, len: nat, k: nat)
    requires 0 < len <= Total(cs) && k < |cs| && Total(cs[..k]) < len <= Total(cs[..k + 1])
    ensures MovedInLoop(cs, len) == Total(cs[..k])
  {
    if k == 0 {
      assert cs[..1][1..] == [];
    } else {
      assert cs[..k][1..] == cs[1..][..k - 1] && cs[..k + 1][1..] == cs[1..][..k];
      MovedAreBefore(cs[1..], len - cs[0].len, k - 1);
    }
  }

  /** How much the second length is short: by all the chunks before the one that is cut. */
  lemma SecondLengthShort(cs: seq<Chunk>, len: nat, k: nat)
    requires 0 < len <= Total(cs) && k < |cs| && Total(cs[..k]) < len <= Total(cs[..k + 1])
    ensures SecondLength(cs, len) == (Total(cs) - len - Total(cs[..k])) % SIZE_MOD
  {
    MovedAreBefore(cs, len, k);
  }

  /** Chunks of 24, 4, 5 and 100 bytes cut after 50: the second half has 83 bytes and claims 50. */
  lemma SecondLengthFour(cs: seq<Chunk>)
    requires |cs| == 4 && cs[0].len == 24 && cs[1].len == 4 && cs[2].len == 5 && cs[3].len == 100
    ensures Total(cs) == 133 && SecondLength(cs, 50) == 50
  {
    TotalSnoc(cs[..0], cs[0]);
    TotalSnoc(cs[..1], cs[1]);
    TotalSnoc(cs[..2], cs[2]);
    TotalSnoc(cs[..3], cs[3]);
    assert cs[..0] + [cs[0]] == cs[..1] && cs[..1] + [cs[1]] == cs[..2];
    assert cs[..2] + [cs[2]] == cs[..3] && cs[..3] + [cs[3]] == cs[..4] == cs;
    SecondLengthShort(cs, 50, 3);
  }

  /** Joining the halves again adds up to the old length in the same cases. */
  lemma JoinedLengthRight(cs: seq<Chunk>, len: nat)
    requires len <= Total(cs) <= INT_MAX
    ensures (len + SecondLength(cs, len)) % SIZE_MOD == Total(cs) <==> len <= Leading(cs)
  {
    SecondLengthRight(cs, len);
    var sum := Total(cs) - MovedWhole(cs, len);
    Wraps(sum - len);
    Wraps(sum);
    assert (len + SecondLength(cs, len)) % SIZE_MOD == sum;
  }

  /** A message of two chunks cut inside the second: the second half claims 2^64 - 1 bytes. */
  lemma SecondLengthWrong()
    ensures var cs := [MsgPair([0, 0, 0, 0], 0, 4), MsgPair([0, 0, 0, 0, 0], 0, 5)];
            Total(cs) == 9 && SecondLength(cs, 6) == SIZE_MOD - 1
  {
    var cs := [MsgPair([0, 0, 0, 0], 0, 4), MsgPair([0, 0, 0, 0, 0], 0, 5)];
    assert cs[1..] == [MsgPair([0, 0, 0, 0, 0], 0, 5)];
    assert Total(cs[1..]) == 5 + Total(cs[1..][1..]) == 5;
    assert MovedInLoop(cs, 6) == 4 + MovedInLoop(cs[1..], 2) == 4;
  }

  /** memcpy into a fresh buffer. */
  method Memcpy(dst: array<byte>, at: nat, src: Bytes)
    requires at + |src| <= dst.Length
    modifies dst
    ensures dst[..at + |src|] == old(dst[..at]) + src
    ensures dst[at + |src|..] == old(dst[at + |src|..])
  {
    forall i | 0 <= i < |src| {
      dst[at + i] := src[i];
    }
  }

  class Message {
    var length: nat          // m_MsgLen
    var content: seq<Chunk>  // m_MsgContent

    /** The length field agrees with the chunks, and fits the `int`s it is compared with. */
    ghost predicate Valid()
      reads this
    {
      length == Total(content) <= INT_MAX
    }

    /** The message as one string of bytes. */
    function Text(): Bytes
      reads this
    {
      Flat(content)
    }

    constructor Empty()
      ensures Valid() && Text() == []
    {
      length, content := 0, [];
    }

    constructor (msg: Bytes, len: nat)
      requires len <= |msg| && len <= INT_MAX
      ensures Valid() && Text() == msg[..len] && content == [MsgPair(msg, 0, len)]
    {
      length, content := len, [MsgPair(msg, 0, len)];
      new;
      FlatSnoc([], MsgPair(msg, 0, len));
      assert [] + [MsgPair(msg, 0, len)] == content;
    }

    method MsgAddHdr(hdr: Bytes, len: nat)
      requires Valid() && len <= |hdr| && length + len <= INT_MAX
      modifies this
      ensures Valid() && Text() == hdr[..len] + old(Text())
      ensures content == [MsgPair(hdr, 0, len)] + old(content)
    {
      length := length + len;
      content := [MsgPair(hdr, 0, len)] + content;
      assert content[1..] == old(content);
    }

    /** The loop that advances the front pointer byte by byte. */
    method AdvanceFront(n: nat)
      requires content != [] && n <= content[0].len
      modifies this`content
      ensures content == old(content)[0 := Advanced(old(content)[0], n)]
    {
      ghost var was := content;
      for i := 0 to n
        invariant content == was[0 := Advanced(was[0], i)]
      {
        content := content[0 := MsgPair(content[0].buf, content[0].off + 1, content[0].len - 1)];
      }
    }

    /** Copies the first n bytes of the front chunk to `at` in another buffer and moves past them. */
    method MoveFront(dst: array<byte>, at: nat, n: nat)
      requires content != [] && n <= content[0].len && at + n <= dst.Length
      modifies dst, this`content
      ensures dst[..at + n] + Text() == old(dst[..at] + Text())
      ensures content == old(content)[0 := Advanced(old(content)[0], n)]
      ensures Total(content) == old(Total(content)) - n
    {
      ghost var done, text := dst[..at], Text();
      FlatAdvance(content, n);
      var bytes := content[0].buf[content[0].off..content[0].off + n];
      Memcpy(dst, at, bytes);
      AdvanceFront(n);
      assert text == bytes + Text();
      Assoc(done, bytes, Text());
    }

    /** NULL for a length that is zero, negative (it converts to a huge size_t) or beyond the message. */
    method MsgStripHdr(len: int32) returns (p: Pointer)
      requires Valid()
      modifies this
      ensures Valid()
      ensures p == Null <==> len <= 0 || len > |old(Text())|
      ensures p == Null ==> content == old(content)
      ensures p != Null ==> p.bytes == old(Text())[..len] && Text() == old(Text())[len..]
    {
      if (if len < 0 then length < len + SIZE_MOD else length < len) || len == 0 {
        return Null;
      }
      ghost var text := Text();
      var bytes := StripPresent(len);
      assert text == bytes + Text();
      length := length - len;
      return Stripped(bytes);
    }

    /** The three branches, for a header that is there. */
    method StripPresent(len: nat) returns (bytes: Bytes)
      requires 0 < len <= Total(content)
      modifies this`content
      ensures |bytes| == len && old(Text()) == bytes + Text()
    {
      if len == content[0].len {
        // the header is exactly the first chunk
        bytes := Span(content[0]);
        content := content[1..];
      } else if len < content[0].len {
        ghost var text := Text();
        var stripped := new byte[len];
        MoveFront(stripped, 0, len);
        bytes := stripped[..];
        assert stripped[..len] == bytes;
      } else {
        bytes := StripSeveral(len);
      }
    }

    /** The header spans several chunks. */
    method StripSeveral(len: nat) returns (bytes: Bytes)
      requires 0 < len <= Total(content)
      modifies this`content
      ensures |bytes| == len && old(Text()) == bytes + Text()
    {
      ghost var whole := Text();
      var stripped := new byte[len];
      var cumm := 0;
      while cumm < len
        invariant 0 <= cumm < len <= cumm + Total(content)
        invariant stripped[..cumm] + Text() == whole
        decreases |content|
      {
        cumm := StripStep(stripped, cumm);
        if cumm >= len {
          break;
        }
      }
      bytes := stripped[..];
      assert stripped[..len] == bytes;
    }

    /** One round: copy the front chunk, or as much of it as the header still needs. */
    method StripStep(stripped: array<byte>, at: nat) returns (cumm: nat)
      requires content != [] && at < stripped.Length <= at + Total(content)
      modifies stripped, this`content
      ensures cumm == at + old(content)[0].len
      ensures var end := if cumm < stripped.Length then cumm else stripped.Length;
              stripped[..end] + Text() == old(stripped[..at] + Text())
      ensures cumm < stripped.Length ==> content == old(content)[1..]
    {
      var len, currLen := stripped.Length, content[0].len;
      cumm := at + currLen;
      if cumm >= len {
        MoveFront(stripped, cumm - currLen, len - (cumm - currLen));
      } else {
        MoveFront(stripped, cumm - currLen, currLen);
        PopEmpty();
      }
    }

    /** Drops a front chunk all of whose bytes have been moved. */
    method PopEmpty()
      requires content != [] && content[0].len == 0
      modifies this`content
      ensures content == old(content)[1..] && Text() == old(Text()) && Total(content) == old(Total(content))
    {
      assert Span(content[0]) == [] && [] + Flat(content[1..]) == Flat(content[1..]);
      content := content[1..];
    }

    /** Cuts the message after `len` bytes; what was in `second` is lost.  Calling it on a message
        without chunks and with `len` 0 looks at the front of an empty list, which C++ leaves undefined.

        The texts are always right.  The length of the second message is right exactly when the cut is
        within the first non-empty chunk. */
    method MsgSplit(second: Message, len: nat) returns (ok: bool)
      requires Valid() && (content != [] || len > 0)
      modifies this, second
      ensures ok <==> len <= |old(Text())|
      ensures !ok ==> unchanged(this) && unchanged(second)
      ensures ok ==> Valid() && Text() == old(Text())[..len]
      ensures ok && second != this ==>
                && second.Text() == old(Text())[len..]
                && second.length == SecondLength(old(content), len)
                && (second.length == |second.Text()| <==> len <= Leading(old(content)))
    {
      if len > length {
        return false;
      }
      SecondLengthRight(content, len);
      ghost var text := Text();
      var temp := CutOff(len);
      assert text == Flat(temp) + Text();
      second.content := content;
      second.length := (length - len) % SIZE_MOD;
      length := len;
      content := temp;
      return true;
    }

    /** The two ways to collect the chunks before the cut. */
    method CutOff(len: nat) returns (temp: seq<Chunk>)
      requires Valid() && len <= length && content != []
      modifies this
      ensures Total(temp) == len && old(Text()) == Flat(temp) + Text()
      ensures length == old(length) - MovedWhole(old(content), len)
    {
      if len == content[0].len {
        temp := [content[0]];
        FlatSnoc([], content[0]);
        assert [] + temp == temp;
        content := content[1..];
      } else {
        temp := CutInLoop(len);
      }
    }

    /** The loop of msgSplit, which also takes every chunk it moves whole off the length. */
    method CutInLoop(len: nat) returns (temp: seq<Chunk>)
      requires Valid() && len <= length
      modifies this
      ensures Total(temp) == len && old(Text()) == Flat(temp) + Text()
      ensures length == old(length) - MovedInLoop(old(content), len)
    {
      ghost var whole, all := Text(), content;
      var cumm := 0;
      temp := [];
      while cumm < len
        invariant 0 <= cumm <= len <= cumm + Total(content) && (cumm < len || len == 0)
        invariant Total(temp) == cumm && Flat(temp) + Text() == whole
        invariant length == old(length) - cumm
        invariant len > 0 ==> cumm + MovedInLoop(content, len - cumm) == MovedInLoop(all, len)
        decreases |content|
      {
        var currLen := content[0].len;
        cumm := cumm + currLen;
        if cumm >= len {
          temp := MoveCopy(temp, len - (cumm - currLen));
          break;
        } else {
          temp := MoveChunk(temp);
          length := length - currLen;
        }
      }
    }

    /** Moves a fresh copy of the first n bytes of the front chunk behind `temp`. */
    method MoveCopy(temp: seq<Chunk>, n: nat) returns (longer: seq<Chunk>)
      requires content != [] && n <= content[0].len
      modifies this`content
      ensures Total(longer) == Total(temp) + n
      ensures Flat(longer) + Text() == old(Flat(temp) + Text())
    {
      ghost var text := Text();
      var c := CopyOff(n);
      FlatSnoc(temp, c);
      TotalSnoc(temp, c);
      longer := temp + [c];
      Assoc(Flat(temp), Span(c), Text());
    }

    /** A chunk of its own with the first n bytes of the front chunk. */
    method CopyOff(n: nat) returns (c: Chunk)
      requires content != [] && n <= content[0].len
      modifies this`content
      ensures c.len == n && Span(c) + Text() == old(Text())
    {
      var newChunk := new byte[n];
      MoveFront(newChunk, 0, n);
      c := MsgPair(newChunk[..], 0, n);
      assert newChunk[..n] == newChunk[..] == Span(c);
    }

    /** Moves the whole front chunk behind `temp`. */
    method MoveChunk(temp: seq<Chunk>) returns (longer: seq<Chunk>)
      requires content != []
      modifies this`content
      ensures content == old(content)[1..] && Total(longer) == Total(temp) + old(content)[0].len
      ensures Flat(longer) + Text() == old(Flat(temp) + Text())
    {
      FlatSnoc(temp, content[0]);
      Assoc(Flat(temp), Span(content[0]), Flat(content[1..]));
      longer := temp + [content[0]];
      content := content[1..];
    }

    /** Takes over the chunks of `second`, which is left empty.  A message joined to itself is left
        empty too. */
    method MsgJoin(second: Message)
      modifies this, second
      ensures second.Valid() && second.Text() == []
      ensures second != this ==>
                && Text() == old(Text()) + old(second.Text())
                && length == (old(length) + old(second.length)) % SIZE_MOD
    {
      ghost var first := content;
      var temp := second.content;
      ghost var all := temp;
      while temp != []
        invariant |temp| <= |all| && temp == all[|all| - |temp|..]
        invariant content == first + all[..|all| - |temp|]
        invariant length == old(length) && second.length == old(second.length)
        invariant second != this ==> second.content == all
        decreases |temp|
      {
        content := content + [temp[0]];
        temp := temp[1..];
      }
      assert content == first + all;
      FlatConcat(first, all);
      length := (length + second.length) % SIZE_MOD;
      second.content := [];
      second.length := 0;
    }

    /** Splitting and joining again gives back the text, and gives back the length exactly when the cut
        is within the first non-empty chunk. */
    method SplitAndJoin(second: Message, len: nat)
      requires Valid() && content != [] && len <= length && second != this
      modifies this, second
      ensures Text() == old(Text()) && second.Valid() && second.Text() == []
      ensures length == old(length) <==> len <= Leading(old(content))
    {
      JoinedLengthRight(content, len);
      ghost var text := Text();
      var ok := MsgSplit(second, len);
      assert Text() + second.Text() == text by {
        assert text == text[..len] + text[len..];
      }
      MsgJoin(second);
    }

    /** Copies the text to the front of a buffer that is large enough. */
    method MsgFlat(buffer: array<byte>)
      requires Total(content) <= buffer.Length
      modifies buffer
      ensures buffer[..] == Text() + old(buffer[Total(content)..])
    {
      ghost var was := buffer[..];
      var cumm := 0;
      for i := 0 to |content|
        invariant 0 <= cumm <= buffer.Length && cumm + Total(content[i..]) == Total(content)
        invariant buffer[..cumm] + Flat(content[i..]) == Text()
        invariant buffer[cumm..] == was[cumm..]
      {
        CopyChunk(buffer, cumm, content[i..]);
        assert content[i..][1..] == content[i + 1..];
        cumm := cumm + content[i].len;
      }
      assert Flat(content[|content|..]) == [];
      assert buffer[..] == buffer[..cumm] + buffer[cumm..];
    }

    /** One memcpy of msgFlat. */
    static method CopyChunk(buffer: array<byte>, at: nat, cs: seq<Chunk>)
      requires cs != [] && at + Total(cs) <= buffer.Length
      modifies buffer
      ensures buffer[..at + cs[0].len] + Flat(cs[1..]) == old(buffer[..at]) + Flat(cs)
      ensures buffer[at + cs[0].len..] == old(buffer[at + cs[0].len..])
    {
      ghost var done := buffer[..at];
      Memcpy(buffer, at, Span(cs[0]));
      Assoc(done, Span(cs[0]), Flat(cs[1..]));
    }
  }
}
