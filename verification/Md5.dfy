/**
 * The incremental MD5 context of md5.c: a block buffer, a bit count split over
 * two 32-bit words and four chaining words, on a host of either byte order.
 * The ghost field `message` is everything fed in so far; the contracts say that
 * the context always stands for it and that the digest is the one of RFC 1321.
 */
module Md5 {
  import opened Words
  import opened Rfc1321
  import opened Md5Transform
  import opened Md5Memory

  /** The registers are the chain over the first k bytes, which are whole blocks. */
  ghost predicate ChainAt(s: State, all: seq<Byte>, k: nat) {
    k % 64 == 0 && k <= |all| && s == Chain(all[..k])
  }

  /** One more block on the chain. */
  lemma ChainOneMore(s: State, all: seq<Byte>, k: nat)
    requires ChainAt(s, all, k) && k + 64 <= |all|
    ensures ChainAt(Compress(s, BlockWords(all[k..k + 64])), all, k + 64)
  {
    hide Compress, BlockWords;
    var data := all[..k + 64];
    assert data[..|data| - 64] == all[..k] && data[|data| - 64..] == all[k..k + 64];
  }

  /** Chains agree on messages with the same first k bytes. */
  lemma ChainOfPrefix(s: State, all: seq<Byte>, k: nat, other: seq<Byte>)
    requires ChainAt(s, all, k) && k <= |other| && other[..k] == all[..k]
    ensures ChainAt(s, other, k)
  {
    hide Chain;
  }

  /** The registers are the chain over the whole blocks and the block buffer starts with the rest. */
  ghost predicate Buffered(s: State, input: seq<Byte>, message: seq<Byte>) {
    && |input| == 64
    && ChainAt(s, message, Whole(|message|))
    && input[..|message| % 64] == message[Whole(|message|)..]
  }

  lemma WholeUnique(n: nat, k: nat)
    requires k % 64 == 0 && k <= n < k + 64
    ensures Whole(n) == k && n % 64 == n - k
  {
  }

  /** New data that does not fill the block buffer is appended to it. */
  lemma BufferMore(s: State, input: seq<Byte>, message: seq<Byte>, data: seq<Byte>, t: nat)
    requires Buffered(s, input, message) && t == |message| % 64 && t + |data| < 64
    ensures Buffered(s, input[..t] + data + input[t + |data|..], message + data)
  {
    hide ChainAt;
    var all, k := message + data, Whole(|message|);
    assert all[..k] == message[..k] && all[k..] == message[k..] + data;
    WholeUnique(|all|, k);
    ChainOfPrefix(s, message, k, all);
    assert (input[..t] + data + input[t + |data|..])[..t + |data|] == input[..t] + data;
  }

  /** New data that fills the block buffer makes it the next block of the longer message. */
  lemma BufferFull(s: State, input: seq<Byte>, message: seq<Byte>, data: seq<Byte>, t: nat)
    requires Buffered(s, input, message) && t == |message| % 64
    ensures ChainAt(s, message + data, |message| - t)
    ensures t == 0 ==> data == (message + data)[|message|..]
    ensures 64 <= t + |data| ==>
              && input[..t] + data[..64 - t] == (message + data)[|message| - t..|message| - t + 64]
              && data[64 - t..] == (message + data)[|message| - t + 64..]
  {
    hide ChainAt;
    var all, k := message + data, Whole(|message|);
    assert all[..k] == message[..k] && all[k..] == message[k..] + data;
    ChainOfPrefix(s, message, k, all);
  }

  /** Everything but the length field of the padded message is in the registers or in the block buffer. */
  ghost predicate LengthMissing(s: State, input: seq<Byte>, message: seq<Byte>) {
    && 64 <= |Pad(message)|
    && |input| == 64
    && ChainAt(s, Pad(message), |Pad(message)| - 64)
    && input[..56] == Pad(message)[|Pad(message)| - 64..|Pad(message)| - 8]
  }

  lemma CountsSpellLength(lo: Uint32, hi: Uint32, n: nat)
    requires Counts(lo, hi, n)
    ensures LengthField(n) == BytesOf(lo) + BytesOf(hi)
  {
    hide BytesOf;
  }

  lemma LastBlock(all: seq<Byte>, prefix: seq<Byte>, field: seq<Byte>)
    requires 64 <= |all| && |prefix| == 56 && |field| == 8
    requires prefix == all[|all| - 64..|all| - 8] && all[|all| - 8..] == field
    ensures all[|all| - 64..] == prefix + field
  {
  }

  /** What the padded message holds after the whole blocks of the message. */
  lemma PadTail(message: seq<Byte>)
    ensures var all, k, tail := Pad(message), Whole(|message|), message[Whole(|message|)..];
            && all[..k] == message[..k] && all[|all| - 8..] == LengthField(|message|)
            && (|tail| <= 55 ==> |all| == k + 64 && all[k..k + 56] == tail + [0x80] + Zeros(55 - |tail|))
            && (55 < |tail| ==> |all| == k + 128
                                && all[k..k + 64] == tail + [0x80] + Zeros(63 - |tail|)
                                && all[k + 64..k + 120] == Zeros(56))
  {
    hide LengthField;
    var n, k := |message|, Whole(|message|);
    var all, tail := Pad(message), message[k..];
    assert ZerosNeeded(n) == if |tail| <= 55 then 55 - |tail| else 119 - |tail| by {
      PaddingIsShortest(n, if |tail| <= 55 then 55 - |tail| else 119 - |tail|);
    }
    assert all[k..] == tail + [0x80] + Zeros(ZerosNeeded(n)) + LengthField(n);
  }

  lemma LengthCompletes(s: State, input: seq<Byte>, message: seq<Byte>, lo: Uint32, hi: Uint32)
    requires LengthMissing(s, input, message) && Counts(lo, hi, |message|)
    ensures Compress(s, BlockWords(input[..56] + BytesOf(lo) + BytesOf(hi))) == Chain(Pad(message))
  {
    hide Compress, BlockWords, Chain, BytesOf, Pad, LengthField, Counts;
    var all := Pad(message);
    var k := |all| - 64;
    PadTail(message);
    CountsSpellLength(lo, hi, |message|);
    LastBlock(all, input[..56], LengthField(|message|));
    assert input[..56] + BytesOf(lo) + BytesOf(hi)
           == input[..56] + (BytesOf(lo) + BytesOf(hi)) == all[k..] == all[k..k + 64];
    ChainOneMore(s, all, k);
    assert all[..k + 64] == all;
  }

  lemma MissingInOneBlock(s: State, input: seq<Byte>, message: seq<Byte>, tail: seq<Byte>)
    requires tail == message[Whole(|message|)..] && |tail| <= 55 && |input| == 64
    requires ChainAt(s, message, Whole(|message|)) && input[..56] == tail + [0x80] + Zeros(55 - |tail|)
    ensures LengthMissing(s, input, message)
  {
    hide ChainAt, Whole, Pad, LengthField;
    PadTail(message);
    ChainOfPrefix(s, message, Whole(|message|), Pad(message));
  }

  lemma MissingInTwoBlocks(s: State, full: seq<Byte>, input: seq<Byte>, message: seq<Byte>, tail: seq<Byte>)
    requires tail == message[Whole(|message|)..] && 55 < |tail| && |input| == 64
    requires ChainAt(s, message, Whole(|message|)) && |tail| <= 63 && full == tail + [0x80] + Zeros(63 - |tail|)
    requires input[..56] == Zeros(56)
    ensures LengthMissing(Compress(s, BlockWords(full)), input, message)
  {
    hide ChainAt, Whole, Pad, LengthField, Compress, BlockWords;
    PadTail(message);
    ChainOfPrefix(s, message, Whole(|message|), Pad(message));
    ChainOneMore(s, Pad(message), Whole(|message|));
  }

  /** The constants of MD5Init are the registers the standard lists byte by byte. */
  lemma InitialRegisters()
    ensures State(0x67452301, 0xefcdab89, 0x98badcfe, 0x10325476) == INITIAL
  {
  }

  class Md5Context {
    const order: ByteOrder
    const buf: array<Word>
    const input: array<Byte>
    var bits0: Uint32
    var bits1: Uint32
    ghost var message: seq<Byte>

    ghost predicate Shape()
      reads this
    {
      buf.Length == 4 && input.Length == 64
    }

    /** buf is the chain over the whole blocks, input starts with the rest, the bits count everything. */
    ghost predicate Valid()
      reads this, buf, input
    {
      && Shape()
      && Counts(bits0, bits1, |message|)
      && Buffered(StateOf(buf[..]), input[..], message)
    }

    constructor (order: ByteOrder)
      ensures Shape() && fresh(buf) && fresh(input) && this.order == order
    {
      this.order := order;
      buf := new Word[4];
      input := new Byte[64];
      bits0, bits1 := 0, 0;
    }

    method Init()
      requires Shape()
      modifies this, buf
      ensures Valid() && message == []
    {
      buf[0] := 0x67452301;
      buf[1] := 0xefcdab89;
      buf[2] := 0x98badcfe;
      buf[3] := 0x10325476;
      bits0 := 0;
      bits1 := 0;
      message := [];
      InitialRegisters();
    }

    /** memcpy into the block buffer. */
    method CopyIn(at: nat, source: seq<Byte>)
      requires Shape() && at + |source| <= 64
      modifies input
      ensures input[..] == old(input[..at]) + source + old(input[at + |source|..])
    {
      forall i | 0 <= i < |source| {
        input[at + i] := source[i];
      }
    }

    /** Reverses the bytes of the buffered block and folds it into buf. */
    method ConsumeInput()
      requires Shape()
      modifies buf, input
      ensures StateOf(buf[..]) == Compress(old(StateOf(buf[..])), BlockWords(old(input[..])))
    {
      hide Compress, BlockWords, MadeNative;
      ghost var block := input[..];
      ByteReverse(order, input, 16);
      NativeWords(order, block, input[..]);
      Transform(buf, LoadAll(order, input[..]));
    }

    method UpdateBitCount(len: nat) returns (buffered: nat)
      requires len < TWO_TO_64 && Counts(bits0, bits1, |message|)
      modifies this`bits0, this`bits1
      ensures Counts(bits0, bits1, |message| + len)
      ensures buffered == |message| % 64
    {
      var t := bits0;
      bits0 := (t + len % MODULUS * 8 % MODULUS) % MODULUS;
      if bits0 < t {
        bits1 := (bits1 + 1) % MODULUS;
      }
      bits1 := (bits1 + len / 0x2000_0000) % MODULUS;
      SplitCount(t, old(bits1), |message|, len, bits0, bits1);
      BufferedFromCount(t, old(bits1), |message|);
      buffered := t / 8 % 64;
    }

    /** Completes the buffered block with `source` and folds it in. */
    method TakeBlock(at: nat, source: seq<Byte>, ghost all: seq<Byte>, ghost k: nat)
      requires Shape() && at + |source| == 64
      requires ChainAt(StateOf(buf[..]), all, k) && k + 64 <= |all|
      requires input[..at] + source == all[k..k + 64]
      modifies buf, input
      ensures ChainAt(StateOf(buf[..]), all, k + 64)
    {
      hide Compress, BlockWords, ChainAt;
      ChainOneMore(StateOf(buf[..]), all, k);
      CopyIn(at, source);
      assert input[..] == all[k..k + 64];
      ConsumeInput();
    }

    /** Folds in all whole blocks that are left and keeps the remaining bytes. */
    method TakeBlocks(data: seq<Byte>, ghost all: seq<Byte>, ghost start: nat)
      requires Shape() && ChainAt(StateOf(buf[..]), all, start)
      requires start <= |all| && data == all[start..]
      modifies buf, input
      ensures Buffered(StateOf(buf[..]), input[..], all)
    {
      hide Whole, StateOf, Chain;
      var rest := data;
      ghost var k: nat := start;
      while |rest| >= 64
        invariant k <= |all| && rest == all[k..]
        invariant ChainAt(StateOf(buf[..]), all, k)
      {
        assert rest[..64] == all[k..k + 64];
        TakeBlock(0, rest[..64], all, k);
        k := k + 64;
        rest := rest[64..];
      }
      WholeUnique(|all|, k);
      CopyIn(0, rest);
    }

    method Update(data: seq<Byte>)
      requires Valid() && |data| < TWO_TO_64
      modifies this, buf, input
      ensures Valid() && message == old(message) + data
    {
      hide ChainAt, Counts, StateOf, Buffered;
      ghost var old_message := message;
      var t := UpdateBitCount(|data|);
      message := message + data;
      BufferFull(StateOf(buf[..]), input[..], old_message, data, t);
      if t != 0 {
        var room := 64 - t;
        if |data| < room {
          BufferMore(StateOf(buf[..]), input[..], old_message, data, t);
          CopyIn(t, data);
          return;
        }
        TakeBlock(t, data[..room], message, |old_message| - t);
        TakeBlocks(data[room..], message, |old_message| - t + 64);
      } else {
        TakeBlocks(data, message, |old_message|);
      }
    }

    /** memset to zero inside the block buffer. */
    method Clear(at: nat, n: nat)
      requires Shape() && at + n <= 64
      modifies input
      ensures input[..] == old(input[..at]) + Zeros(n) + old(input[at + n..])
    {
      forall i | at <= i < at + n {
        input[i] := 0;
      }
    }

    /** Leaves all padding but the length field behind: whole blocks folded in, the rest in the block buffer. */
    method AppendPadding()
      requires Valid()
      modifies buf, input
      ensures LengthMissing(StateOf(buf[..]), input[..], message)
    {
      hide ChainAt, Counts, Whole, StateOf, Pad, Compress, BlockWords, LengthMissing;
      ghost var before, tail := StateOf(buf[..]), message[Whole(|message|)..];
      BufferedFromCount(bits0, bits1, |message|);
      var count := bits0 / 8 % 64;
      assert input[..count] == tail;
      input[count] := 0x80;
      var p := count + 1;
      count := 64 - 1 - count;
      assert input[..p] == tail + [0x80];
      if count < 8 {
        Clear(p, count);
        ghost var full := input[..];
        assert full == tail + [0x80] + Zeros(63 - |tail|);
        ConsumeInput();
        Clear(0, 56);
        MissingInTwoBlocks(before, full, input[..], message, tail);
      } else {
        Clear(p, count - 8);
        MissingInOneBlock(before, input[..], message, tail);
      }
    }

    /** Completes the last block with the bit count, stored natively, and folds it in. */
    method AppendLength()
      requires Shape() && Counts(bits0, bits1, |message|)
      requires LengthMissing(StateOf(buf[..]), input[..], message)
      modifies buf, input
      ensures StateOf(buf[..]) == Chain(Pad(message))
    {
      hide Counts, LengthMissing, StateOf, Chain, Pad, MadeNative, Compress, BlockWords, BytesOf, WordOf, Store,
        LoadAll;
      ghost var before := input[..];
      ByteReverse(order, input, 14);
      ghost var reversed := input[..];
      CopyIn(56, Store(order, WordOf(bits0)));
      CopyIn(60, Store(order, WordOf(bits1)));
      assert input[..] == reversed[..56] + Store(order, WordOf(bits0)) + Store(order, WordOf(bits1));
      LastBlockWords(order, before, reversed, input[..], bits0, bits1);
      LengthCompletes(StateOf(buf[..]), before, message, bits0, bits1);
      Transform(buf, LoadAll(order, input[..]));
    }

    /** The sixteen bytes of buf as they lie in memory, after byteReverse has put them in output order. */
    method ReversedRegisters() returns (bytes: array<Byte>)
      requires Shape()
      ensures fresh(bytes) && bytes.Length == 16 && bytes[..] == Output(StateOf(buf[..]))
    {
      hide Store, Output, MadeNative;
      var stored := Store(order, buf[0]) + Store(order, buf[1]) + Store(order, buf[2]) + Store(order, buf[3]);
      bytes := new Byte[16](i requires 0 <= i < 16 => stored[i]);
      assert bytes[..] == stored;
      ByteReverse(order, bytes, 4);
      OutputBytes(order, StateOf(buf[..]), stored, bytes[..]);
    }

    /** Pads, folds in the last block or two and writes the digest, the same on either host. */
    method Final(digest: array<Byte>)
      requires Valid() && digest.Length >= 16 && digest != input
      modifies buf, input, digest
      ensures digest[..] == Digest(message) + old(digest[16..])
    {
      hide Counts, Chain, Pad, LengthMissing, StateOf, Output, Buffered;
      AppendPadding();
      AppendLength();
      var bytes := ReversedRegisters();
      forall i | 0 <= i < 16 {
        digest[i] := bytes[i];
      }
      assert digest[..16] == bytes[..];
    }
  }

  function Joined(chunks: seq<seq<Byte>>): seq<Byte> {
    if chunks == [] then [] else Joined(chunks[..|chunks| - 1]) + chunks[|chunks| - 1]
  }

  /** Whatever the chunks, the byte order and the leftovers in memory, the digest is that of their concatenation. */
  method DigestOfChunks(order: ByteOrder, chunks: seq<seq<Byte>>) returns (digest: seq<Byte>)
    requires forall k :: 0 <= k < |chunks| ==> |chunks[k]| < TWO_TO_64
    ensures digest == Digest(Joined(chunks))
  {
    hide Digest, Buffered, Counts, StateOf;
    var context := new Md5Context(order);
    context.Init();
    var k := 0;
    while k < |chunks|
      invariant 0 <= k <= |chunks|
      invariant context.Valid() && fresh(context) && fresh(context.buf) && fresh(context.input)
      invariant context.message == Joined(chunks[..k])
    {
      assert chunks[..k + 1][..k] == chunks[..k];
      context.Update(chunks[k]);
      k := k + 1;
    }
    assert chunks[..k] == chunks;
    var out := new Byte[16];
    context.Final(out);
    digest := out[..];
  }
}
