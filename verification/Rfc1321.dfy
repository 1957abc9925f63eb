/**
 * The MD5 message digest as RFC 1321 section 3 defines it: padding, the table
 * driven compression of one 16-word block, the fold over all blocks and the
 * output order.  Nothing here depends on how the digest is computed.
 */
module Rfc1321 {
  import opened Words

  // -------------------------------------------- sections 3.1 and 3.2: padding

  const TWO_TO_64 := 0x1_0000_0000_0000_0000

  /** How many zero bytes follow the byte 0x80 of a message of n bytes. */
  function ZerosNeeded(n: nat): (z: nat)
    ensures z < 64
    ensures (n + 1 + z + 8) % 64 == 0
  {
    assert 55 - n == (55 - n) / 64 * 64 + (55 - n) % 64;
    assert n + 9 + (55 - n) % 64 == 64 * (1 - (55 - n) / 64);
    (55 - n) % 64
  }

  /** The low-order 64 bits of the length in bits, low-order word and byte first. */
  function LengthField(n: nat): (b: seq<Byte>)
    ensures |b| == 8
  {
    var bits := 8 * n % TWO_TO_64;
    BytesOf(bits % MODULUS) + BytesOf(bits / MODULUS)
  }

  function Zeros(n: nat): (b: seq<Byte>)
    ensures |b| == n
    ensures forall i :: 0 <= i < n ==> b[i] == 0
  {
    seq(n, _ => 0 as Byte)
  }

  function Pad(message: seq<Byte>): (b: seq<Byte>)
    ensures |b| == |message| + 1 + ZerosNeeded(|message|) + 8
    ensures |b| % 64 == 0
  {
    message + [0x80] + Zeros(ZerosNeeded(|message|)) + LengthField(|message|)
  }

  // --------------------------------------------- section 3.3: initial registers

  datatype State = State(a: Word, b: Word, c: Word, d: Word)

  const INITIAL: State := State(
    FromLE([0x01, 0x23, 0x45, 0x67]),
    FromLE([0x89, 0xab, 0xcd, 0xef]),
    FromLE([0xfe, 0xdc, 0xba, 0x98]),
    FromLE([0x76, 0x54, 0x32, 0x10]))

  // ------------------------------------------------- section 3.4: one block

  /** The table T, four entries a row: entry i is the integer part of 2^32 times abs(sin(i + 1)). */
  function TableRow(row: nat): (r: seq<Word>)
    ensures |r| == 4
  {
    match row
    case 0 => [0xd76aa478, 0xe8c7b756, 0x242070db, 0xc1bdceee]
    case 1 => [0xf57c0faf, 0x4787c62a, 0xa8304613, 0xfd469501]
    case 2 => [0x698098d8, 0x8b44f7af, 0xffff5bb1, 0x895cd7be]
    case 3 => [0x6b901122, 0xfd987193, 0xa679438e, 0x49b40821]
    case 4 => [0xf61e2562, 0xc040b340, 0x265e5a51, 0xe9b6c7aa]
    case 5 => [0xd62f105d, 0x02441453, 0xd8a1e681, 0xe7d3fbc8]
    case 6 => [0x21e1cde6, 0xc33707d6, 0xf4d50d87, 0x455a14ed]
    case 7 => [0xa9e3e905, 0xfcefa3f8, 0x676f02d9, 0x8d2a4c8a]
    case 8 => [0xfffa3942, 0x8771f681, 0x6d9d6122, 0xfde5380c]
    case 9 => [0xa4beea44, 0x4bdecfa9, 0xf6bb4b60, 0xbebfbc70]
    case 10 => [0x289b7ec6, 0xeaa127fa, 0xd4ef3085, 0x04881d05]
    case 11 => [0xd9d4d039, 0xe6db99e5, 0x1fa27cf8, 0xc4ac5665]
    case 12 => [0xf4292244, 0x432aff97, 0xab9423a7, 0xfc93a039]
    case 13 => [0x655b59c3, 0x8f0ccc92, 0xffeff47d, 0x85845dd1]
    case 14 => [0x6fa87e4f, 0xfe2ce6e0, 0xa3014314, 0x4e0811a1]
    case _ => [0xf7537e82, 0xbd3af235, 0x2ad7d2bb, 0xeb86d391]
  }

  function T(i: nat): Word {
    TableRow(i / 4)[i % 4]
  }

  /** Which message word step i adds. */
  function WordIndex(i: nat): (k: nat)
    ensures k < 16
  {
    if i < 16 then i
    else if i < 32 then (5 * i + 1) % 16
    else if i < 48 then (3 * i + 5) % 16
    else 7 * i % 16
  }

  /** By how much step i rotates. */
  function ShiftOf(i: nat): (s: Count)
    ensures IsMd5Count(s)
  {
    if i < 16 then [7, 12, 17, 22][i % 4]
    else if i < 32 then [5, 9, 14, 20][i % 4]
    else if i < 48 then [4, 11, 16, 23][i % 4]
    else [6, 10, 15, 21][i % 4]
  }

  function F(x: Word, y: Word, z: Word): Word {
    (x & y) | (!x & z)
  }

  function G(x: Word, y: Word, z: Word): Word {
    (x & z) | (y & !z)
  }

  function H(x: Word, y: Word, z: Word): Word {
    x ^ y ^ z
  }

  function I(x: Word, y: Word, z: Word): Word {
    y ^ (x | !z)
  }

  /** The auxiliary function of the round that step i belongs to. */
  function Mix(i: nat, x: Word, y: Word, z: Word): Word {
    if i < 16 then F(x, y, z) else if i < 32 then G(x, y, z) else if i < 48 then H(x, y, z) else I(x, y, z)
  }

  /** w = x + ((w + Mix(x, y, z) + X[k] + T[i]) <<< s) */
  function Op(i: nat, w: Word, x: Word, y: Word, z: Word, block: seq<Word>): Word
    requires |block| == 16
  {
    Add(x, RotL(Add(Add(Add(w, Mix(i, x, y, z)), block[WordIndex(i)]), T(i)), ShiftOf(i)))
  }

  /** Step i updates registers a, d, c, b in turn. */
  function Step(i: nat, s: State, block: seq<Word>): State
    requires |block| == 16
  {
    if i % 4 == 0 then s.(a := Op(i, s.a, s.b, s.c, s.d, block))
    else if i % 4 == 1 then s.(d := Op(i, s.d, s.a, s.b, s.c, block))
    else if i % 4 == 2 then s.(c := Op(i, s.c, s.d, s.a, s.b, block))
    else s.(b := Op(i, s.b, s.c, s.d, s.a, block))
  }

  /** The first n of the 64 steps. */
  function Steps(s: State, block: seq<Word>, n: nat): State
    requires |block| == 16
  {
    if n == 0 then s else Step(n - 1, Steps(s, block, n - 1), block)
  }

  function AddStates(s: State, t: State): State {
    State(Add(s.a, t.a), Add(s.b, t.b), Add(s.c, t.c), Add(s.d, t.d))
  }

  function Compress(s: State, block: seq<Word>): State
    requires |block| == 16
  {
    AddStates(s, Steps(s, block, 64))
  }

  /** The sixteen words of a 64-byte block, low-order byte first. */
  function BlockWords(block: seq<Byte>): (words: seq<Word>)
    requires |block| == 64
    ensures |words| == 16
  {
    LoadAll(LittleEndian, block)
  }

  /** The registers after all the 64-byte blocks of data. */
  function Chain(data: seq<Byte>): State
    requires |data| % 64 == 0
  {
    if data == [] then INITIAL
    else Compress(Chain(data[..|data| - 64]), BlockWords(data[|data| - 64..]))
  }

  // ------------------------------------------------------ section 3.5: output

  function Output(s: State): (b: seq<Byte>)
    ensures |b| == 16
  {
    ToLE(s.a) + ToLE(s.b) + ToLE(s.c) + ToLE(s.d)
  }

  function Digest(message: seq<Byte>): (b: seq<Byte>)
    ensures |b| == 16
  {
    Output(Chain(Pad(message)))
  }

  // ------------------------------------------------------------- about padding

  /** Padding by fewer zero bytes never reaches a whole number of blocks. */
  lemma PaddingIsShortest(n: nat, k: nat)
    requires (n + 1 + k + 8) % 64 == 0
    ensures ZerosNeeded(n) <= k
    ensures k < 64 ==> k == ZerosNeeded(n)
  {
    assert (55 - n - k) % 64 == 0;
    var q := (55 - n - k) / 64;
    assert 55 - n == 64 * q + k;
  }

  /** One block more than the whole ones suffices exactly when at most 55 bytes are left over. */
  lemma PaddedBlocks(message: seq<Byte>)
    ensures |Pad(message)| / 64 == |message| / 64 + (if |message| % 64 <= 55 then 1 else 2)
  {
    var n := |message|;
    assert n == 64 * (n / 64) + n % 64;
    assert (55 - n) % 64 == (55 - n % 64) % 64;
  }

  function Power256(k: nat): (p: nat)
    requires k < 8
    ensures p > 0
  {
    [1, 0x100, 0x1_0000, 0x100_0000, 0x1_0000_0000, 0x100_0000_0000, 0x1_0000_0000_0000, 0x100_0000_0000_0000][k]
  }

  lemma BytesOfDigits(n: Uint32)
    ensures var b := BytesOf(n);
            && ByteNum(b[0]) == n % 0x100 && ByteNum(b[1]) == n / 0x100 % 0x100
            && ByteNum(b[2]) == n / 0x1_0000 % 0x100 && ByteNum(b[3]) == n / 0x100_0000 % 0x100
  {
    hide ByteOf, ByteNum;
  }

  lemma DigitBelow(q: nat, r: nat, k: nat)
    requires q == 0x100 * k
    ensures (q + r) % 0x100 == r % 0x100
  {
  }

  lemma SecondDigit(hi: nat, lo: Uint32)
    ensures (hi * MODULUS + lo) / 0x100 % 0x100 == lo / 0x100 % 0x100
  {
    assert (hi * MODULUS + lo) / 0x100 == hi * 0x100_0000 + lo / 0x100;
    DigitBelow(hi * 0x100_0000, lo / 0x100, hi * 0x1_0000);
  }

  lemma ThirdDigit(hi: nat, lo: Uint32)
    ensures (hi * MODULUS + lo) / 0x1_0000 % 0x100 == lo / 0x1_0000 % 0x100
  {
    assert (hi * MODULUS + lo) / 0x1_0000 == hi * 0x1_0000 + lo / 0x1_0000;
    DigitBelow(hi * 0x1_0000, lo / 0x1_0000, hi * 0x100);
  }

  lemma FourthDigit(hi: nat, lo: Uint32)
    ensures (hi * MODULUS + lo) / 0x100_0000 % 0x100 == lo / 0x100_0000 % 0x100
  {
    assert (hi * MODULUS + lo) / 0x100_0000 == hi * 0x100 + lo / 0x100_0000;
    DigitBelow(hi * 0x100, lo / 0x100_0000, hi);
  }

  lemma HighDigits(bits: nat)
    ensures bits / 0x100_0000_0000 == bits / MODULUS / 0x100
    ensures bits / 0x1_0000_0000_0000 == bits / MODULUS / 0x1_0000
    ensures bits / 0x100_0000_0000_0000 == bits / MODULUS / 0x100_0000
  {
  }

  lemma HighAndLow(bits: nat)
    requires bits < TWO_TO_64
    ensures bits % MODULUS % 0x100 == bits % 0x100 && bits % MODULUS / 0x100 % 0x100 == bits / 0x100 % 0x100
    ensures bits % MODULUS / 0x1_0000 % 0x100 == bits / 0x1_0000 % 0x100
    ensures bits % MODULUS / 0x100_0000 % 0x100 == bits / 0x100_0000 % 0x100
    ensures bits / MODULUS % 0x100 == bits / 0x1_0000_0000 % 0x100
    ensures bits / MODULUS / 0x100 % 0x100 == bits / 0x100_0000_0000 % 0x100
    ensures bits / MODULUS / 0x1_0000 % 0x100 == bits / 0x1_0000_0000_0000 % 0x100
    ensures bits / MODULUS / 0x100_0000 % 0x100 == bits / 0x100_0000_0000_0000 % 0x100
  {
    var hi, lo := bits / MODULUS, bits % MODULUS;
    assert bits == hi * MODULUS + lo;
    DigitBelow(hi * MODULUS, lo, hi * 0x100_0000);
    SecondDigit(hi, lo);
    ThirdDigit(hi, lo);
    FourthDigit(hi, lo);
    HighDigits(bits);
  }

  lemma LengthFieldBytes(n: nat)
    ensures forall k: nat :: k < 8 ==> ByteNum(LengthField(n)[k]) == 8 * n % TWO_TO_64 / Power256(k) % 0x100
  {
    hide BytesOf, ByteNum;
    var bits := 8 * n % TWO_TO_64;
    BytesOfDigits(bits % MODULUS);
    BytesOfDigits(bits / MODULUS);
    HighAndLow(bits);
  }

  /** The padding byte by byte: 0x80, zeros, and the bit length modulo 2^64, least significant byte first. */
  lemma PaddedBytes(message: seq<Byte>)
    ensures var n, b := |message|, Pad(message);
            && n + 9 <= |b| && |b| % 64 == 0 && b[..n] == message && b[n] == 0x80
            && (forall i :: n < i < |b| - 8 ==> b[i] == 0)
            && forall k: nat :: k < 8 ==> ByteNum(b[|b| - 8 + k]) == 8 * n % TWO_TO_64 / Power256(k) % 0x100
  {
    hide LengthField, ByteNum;
    var n, b := |message|, Pad(message);
    PaddedBlocks(message);
    assert b == message + [0x80] + Zeros(ZerosNeeded(n)) + LengthField(n);
    LengthFieldBytes(n);
    forall k: nat | k < 8 ensures b[|b| - 8 + k] == LengthField(n)[k] {
    }
  }

  lemma BytesOfInjective(m: Uint32, n: Uint32)
    requires BytesOf(m) == BytesOf(n)
    ensures m == n
  {
    hide FromLE;
    WordOfBytes(m);
    WordOfBytes(n);
  }

  lemma LengthFieldInjective(m: nat, n: nat)
    requires 8 * m < TWO_TO_64 && 8 * n < TWO_TO_64
    requires LengthField(m) == LengthField(n)
    ensures m == n
  {
    hide BytesOf;
    var p, q := 8 * m, 8 * n;
    assert p % TWO_TO_64 == p && q % TWO_TO_64 == q;
    assert LengthField(m)[..4] == BytesOf(p % MODULUS) && LengthField(m)[4..] == BytesOf(p / MODULUS);
    assert LengthField(n)[..4] == BytesOf(q % MODULUS) && LengthField(n)[4..] == BytesOf(q / MODULUS);
    BytesOfInjective(p % MODULUS, q % MODULUS);
    BytesOfInjective(p / MODULUS, q / MODULUS);
    assert p == p / MODULUS * MODULUS + p % MODULUS && q == q / MODULUS * MODULUS + q % MODULUS;
  }

  /** No two messages whose bit length fits in 64 bits are padded alike. */
  lemma PadInjective(m: seq<Byte>, n: seq<Byte>)
    requires 8 * |m| < TWO_TO_64 && 8 * |n| < TWO_TO_64
    requires Pad(m) == Pad(n)
    ensures m == n
  {
    assert Pad(m)[|Pad(m)| - 8..] == LengthField(|m|);
    assert Pad(n)[|Pad(n)| - 8..] == LengthField(|n|);
    LengthFieldInjective(|m|, |n|);
    assert Pad(m)[..|m|] == m && Pad(n)[..|n|] == n;
  }
}
