/**
 * What md5.c does to raw memory: byteReverse on a host of either byte order, the
 * words MD5Transform then loads, and the bit count split over two words.
 */
module Md5Memory {
  import opened Words
  import opened Rfc1321

  // ------------------------------------------------------------ byte reversal

  /** The word byteReverse assembles out of two 16-bit halves. */
  function Assemble(b: seq<Byte>): Word
    requires |b| == 4
  {
    ((((b[3] as bv16) << 8) | (b[2] as bv16)) as Word << 16) | (((b[1] as bv16) << 8) | (b[0] as bv16)) as Word
  }

  lemma AssembleIsFromLE(b: seq<Byte>)
    requires |b| == 4
    ensures Assemble(b) == FromLE(b)
  {
  }

  function WordAt(bytes: seq<Byte>, k: nat): (b: seq<Byte>)
    requires 4 * k + 4 <= |bytes|
    ensures |b| == 4
  {
    bytes[4 * k..4 * k + 4]
  }

  /** In the first `longs` words of memory every word went from little-endian to native order. */
  ghost predicate MadeNative(order: ByteOrder, before: seq<Byte>, after: seq<Byte>, longs: nat)
    requires 4 * longs <= |before| == |after|
  {
    && (forall k: nat :: k < longs ==> WordAt(after, k) == Store(order, FromLE(WordAt(before, k))))
    && after[4 * longs..] == before[4 * longs..]
  }

  lemma OneMoreNative(order: ByteOrder, before: seq<Byte>, current: seq<Byte>, after: seq<Byte>, k: nat)
    requires 4 * k + 4 <= |before| && |before| == |current|
    requires MadeNative(order, before, current, k)
    requires after == current[..4 * k] + Store(order, FromLE(WordAt(current, k))) + current[4 * k + 4..]
    ensures MadeNative(order, before, after, k + 1)
  {
    hide FromLE, Store;
    assert WordAt(current, k) == current[4 * k..][..4] == WordAt(before, k);
    assert WordAt(after, k) == Store(order, FromLE(WordAt(current, k)));
    forall j: nat | j < k
      ensures WordAt(after, j) == Store(order, FromLE(WordAt(before, j)))
    {
      assert WordAt(after, j) == WordAt(current, j);
    }
    assert after[4 * k + 4..] == current[4 * k..][4..] == before[4 * k + 4..];
  }

  method ByteReverse(order: ByteOrder, buf: array<Byte>, longs: nat)
    requires 0 < longs && 4 * longs <= buf.Length
    modifies buf
    ensures MadeNative(order, old(buf[..]), buf[..], longs)
  {
    hide Assemble, FromLE, Store;
    ghost var before := buf[..];
    var done := 0;
    while done < longs
      invariant done <= longs
      invariant MadeNative(order, before, buf[..], done)
    {
      ghost var current := buf[..];
      var at := 4 * done;
      var t := Assemble(buf[at..at + 4]);
      AssembleIsFromLE(buf[at..at + 4]);
      var stored := Store(order, t);
      buf[at], buf[at + 1], buf[at + 2], buf[at + 3] := stored[0], stored[1], stored[2], stored[3];
      assert buf[..] == current[..at] + stored + current[at + 4..];
      OneMoreNative(order, before, current, buf[..], done);
      done := done + 1;
    }
  }

  lemma NativeWord(order: ByteOrder, before: seq<Byte>, after: seq<Byte>, k: nat)
    requires |before| == |after| == 64 && k < 16
    requires WordAt(after, k) == Store(order, FromLE(WordAt(before, k)))
    ensures LoadAll(order, after)[k] == BlockWords(before)[k]
  {
    hide FromLE, Store;
    LoadStore(order, FromLE(WordAt(before, k)));
    assert LoadAll(order, after)[k] == Load(order, WordAt(after, k));
    assert BlockWords(before)[k] == Load(LittleEndian, WordAt(before, k));
  }

  /** After the reversal, native loads read the little-endian words the memory held before. */
  lemma NativeWords(order: ByteOrder, before: seq<Byte>, after: seq<Byte>)
    requires |before| == |after| == 64 && MadeNative(order, before, after, 16)
    ensures LoadAll(order, after) == BlockWords(before)
  {
    hide FromLE, Store, Load;
    forall k: nat | k < 16
      ensures LoadAll(order, after)[k] == BlockWords(before)[k]
    {
      NativeWord(order, before, after, k);
    }
  }

  /** Reversing fourteen words and storing the two counters natively is a block that ends in the counters. */
  lemma LastBlockWords(order: ByteOrder, before: seq<Byte>, reversed: seq<Byte>, after: seq<Byte>, lo: Uint32,
                       hi: Uint32)
    requires |before| == |reversed| == |after| == 64 && MadeNative(order, before, reversed, 14)
    requires after == reversed[..56] + Store(order, WordOf(lo)) + Store(order, WordOf(hi))
    ensures LoadAll(order, after) == BlockWords(before[..56] + BytesOf(lo) + BytesOf(hi))
  {
    hide FromLE, Store, Load, BytesOf, WordOf;
    var block := before[..56] + BytesOf(lo) + BytesOf(hi);
    forall k: nat | k < 16
      ensures LoadAll(order, after)[k] == BlockWords(block)[k]
    {
      if k < 14 {
        assert WordAt(after, k) == after[..56][4 * k..4 * k + 4] == WordAt(reversed, k);
        assert WordAt(block, k) == block[..56][4 * k..4 * k + 4] == WordAt(before, k);
      } else if k == 14 {
        assert after[56..60] == Store(order, WordOf(lo)) && block[56..60] == BytesOf(lo);
        WordOfBytes(lo);
      } else {
        assert k == 15 && after[60..64] == Store(order, WordOf(hi)) && block[60..64] == BytesOf(hi);
        WordOfBytes(hi);
      }
      NativeWord(order, block, after, k);
    }
  }

  lemma FourWords(bytes: seq<Byte>, b0: seq<Byte>, b1: seq<Byte>, b2: seq<Byte>, b3: seq<Byte>)
    requires |bytes| == 16 && |b0| == |b1| == |b2| == |b3| == 4
    ensures bytes == b0 + b1 + b2 + b3 <==>
            WordAt(bytes, 0) == b0 && WordAt(bytes, 1) == b1 && WordAt(bytes, 2) == b2 && WordAt(bytes, 3) == b3
  {
    assert bytes == bytes[0..4] + bytes[4..8] + bytes[8..12] + bytes[12..16];
    var all := b0 + b1 + b2 + b3;
    assert all[0..4] == b0 && all[4..8] == b1 && all[8..12] == b2 && all[12..16] == b3;
  }

  lemma ReversedRegister(order: ByteOrder, w: Word, before: seq<Byte>, after: seq<Byte>, k: nat)
    requires |before| == |after| == 16 && k < 4 && MadeNative(order, before, after, 4)
    requires WordAt(before, k) == Store(order, w)
    ensures WordAt(after, k) == ToLE(w)
  {
    hide FromLE, Store, ToLE;
    ReversedStore(order, w);
  }

  /** Storing the registers natively and reversing the words gives the output order of the standard. */
  lemma OutputBytes(order: ByteOrder, s: State, stored: seq<Byte>, reversed: seq<Byte>)
    requires stored == Store(order, s.a) + Store(order, s.b) + Store(order, s.c) + Store(order, s.d)
    requires |reversed| == 16 && MadeNative(order, stored, reversed, 4)
    ensures reversed == Output(s)
  {
    hide FromLE, Store, ToLE, WordAt, MadeNative;
    FourWords(stored, Store(order, s.a), Store(order, s.b), Store(order, s.c), Store(order, s.d));
    ReversedRegister(order, s.a, stored, reversed, 0);
    ReversedRegister(order, s.b, stored, reversed, 1);
    ReversedRegister(order, s.c, stored, reversed, 2);
    ReversedRegister(order, s.d, stored, reversed, 3);
    FourWords(reversed, ToLE(s.a), ToLE(s.b), ToLE(s.c), ToLE(s.d));
  }

  // ------------------------------------------------------------ the bit count

  function Whole(n: nat): (w: nat)
    ensures w <= n && w % 64 == 0 && n - w == n % 64
  {
    n - n % 64
  }

  ghost predicate Counts(lo: Uint32, hi: Uint32, n: nat) {
    lo + MODULUS * hi == 8 * n % TWO_TO_64
  }

  lemma SplitLength(len: nat)
    ensures 8 * len == MODULUS * (len / 0x2000_0000) + len % MODULUS * 8 % MODULUS
  {
    var q, r := len / 0x2000_0000, len % 0x2000_0000;
    assert len % MODULUS * 8 == MODULUS * (q - 8 * (len / MODULUS)) + 8 * r;
  }

  lemma Carry(x: Uint32, y: Uint32)
    ensures (x + y) % MODULUS == if (x + y) % MODULUS < x then x + y - MODULUS else x + y
  {
    assert (x + y) % MODULUS == if x + y < MODULUS then x + y else x + y - MODULUS;
  }

  /** The wrap-around test finds the carry, so the two words grow by 8 * len exactly, less whole turns of 2^64. */
  lemma SplitSum(lo: Uint32, hi: Uint32, len: nat, lo': Uint32, hi': Uint32) returns (turns: int)
    requires lo' == (lo + len % MODULUS * 8 % MODULUS) % MODULUS
    requires hi' == ((if lo' < lo then (hi + 1) % MODULUS else hi) + len / 0x2000_0000) % MODULUS
    ensures lo' + MODULUS * hi' == lo + MODULUS * hi + 8 * len - TWO_TO_64 * turns
  {
    var low := len % MODULUS * 8 % MODULUS;
    var high := len / 0x2000_0000;
    SplitLength(len);
    Carry(lo, low);
    var raised := if lo' < lo then (hi + 1) % MODULUS else hi;
    var wrapped := if lo' < lo && hi + 1 == MODULUS then 1 else 0;
    turns := (raised + high) / MODULUS + wrapped;
    assert raised + high == MODULUS * ((raised + high) / MODULUS) + hi';
  }

  lemma ModTwoTo64(x: int, r: int, turns: int)
    requires 0 <= r < TWO_TO_64 && r == x - TWO_TO_64 * turns
    ensures r == x % TWO_TO_64
  {
  }

  /** The split update with its wrap-around test is exact modulo 2^64. */
  lemma SplitCount(lo: Uint32, hi: Uint32, n: nat, len: nat, lo': Uint32, hi': Uint32)
    requires Counts(lo, hi, n)
    requires lo' == (lo + len % MODULUS * 8 % MODULUS) % MODULUS
    requires hi' == ((if lo' < lo then (hi + 1) % MODULUS else hi) + len / 0x2000_0000) % MODULUS
    ensures Counts(lo', hi', n + len)
  {
    var turns := SplitSum(lo, hi, len, lo', hi');
    ModTwoTo64(8 * (n + len), lo' + MODULUS * hi', turns + 8 * n / TWO_TO_64);
  }

  /** The number of buffered bytes can be read back from the low word. */
  lemma BufferedFromCount(lo: Uint32, hi: Uint32, n: nat)
    requires Counts(lo, hi, n)
    ensures lo / 8 % 64 == n % 64
  {
    var turns := 8 * n / TWO_TO_64;
    var k := 0x80_0000_0000_0000 * turns + 0x80_0000 * hi;
    assert lo == 8 * (n - 64 * k);
    assert lo / 8 == n - 64 * k;
    assert n - 64 * k == 64 * (n / 64 - k) + n % 64;
  }
}
