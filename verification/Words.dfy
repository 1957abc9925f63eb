/**
 * Bytes, 32-bit words, the arithmetic C defines on uint32_t, and the two ways
 * a host lays a word out in memory.
 */
module Words {
  type Byte = bv8
  type Word = bv32

  const MODULUS := 0x1_0000_0000

  /** The value of a uint32_t that is used as a number. */
  type Uint32 = x: int | 0 <= x < MODULUS

  datatype ByteOrder = LittleEndian | BigEndian

  // ---------------------------------------------------------------- numbers

  function Num(w: Word): Uint32 {
    w as int
  }

  function ByteNum(b: Byte): (n: int)
    ensures 0 <= n < 0x100
  {
    b as int
  }

  lemma CastNibble(n: int)
    requires 0 <= n < 0x10
    ensures (n as bv4) as int == n
  {
  }

  lemma NumOfNibbles(hi: bv4, lo: bv4)
    ensures ByteNum((hi as Byte << 4) | lo as Byte) == 0x10 * (hi as int) + lo as int
  {
  }

  lemma ByteExists(n: int)
    requires 0 <= n < 0x100
    ensures exists b: Byte :: ByteNum(b) == n
  {
    hide ByteNum;
    CastNibble(n / 0x10);
    CastNibble(n % 0x10);
    var hi, lo := (n / 0x10) as bv4, (n % 0x10) as bv4;
    NumOfNibbles(hi, lo);
    assert ByteNum((hi as Byte << 4) | lo as Byte) == n;
  }

  function CastToByte(n: int): Byte
    requires 0 <= n < 0x100
  {
    n as Byte
  }

  lemma CastByteNum(b: Byte)
    ensures CastToByte(ByteNum(b)) == b
  {
  }

  lemma ByteNumInjective(x: Byte, y: Byte)
    ensures ByteNum(x) == ByteNum(y) ==> x == y
  {
    hide *;
    CastByteNum(x);
    CastByteNum(y);
  }

  /** The byte whose value is n. */
  function ByteOf(n: int): (b: Byte)
    requires 0 <= n < 0x100
    ensures ByteNum(b) == n
  {
    ByteExists(n);
    assert forall x: Byte, y: Byte {:trigger ByteNum(x), ByteNum(y)} :: ByteNum(x) == ByteNum(y) ==> x == y by {
      forall x: Byte, y: Byte ensures ByteNum(x) == ByteNum(y) ==> x == y {
        ByteNumInjective(x, y);
      }
    }
    var b: Byte :| ByteNum(b) == n;
    b
  }

  function CastToWord(n: Uint32): Word {
    n as Word
  }

  lemma CastNum(w: Word)
    ensures CastToWord(Num(w)) == w
  {
  }

  lemma NumInjective(x: Word, y: Word)
    requires Num(x) == Num(y)
    ensures x == y
  {
    hide *;
    CastNum(x);
    CastNum(y);
  }

  // ------------------------------------------------------- bytes of a word

  function ToLE(w: Word): (b: seq<Byte>)
    ensures |b| == 4
  {
    [(w & 0xff) as Byte, ((w >> 8) & 0xff) as Byte, ((w >> 16) & 0xff) as Byte, (w >> 24) as Byte]
  }

  function ToBE(w: Word): (b: seq<Byte>)
    ensures |b| == 4
  {
    [(w >> 24) as Byte, ((w >> 16) & 0xff) as Byte, ((w >> 8) & 0xff) as Byte, (w & 0xff) as Byte]
  }

  function FromLE(b: seq<Byte>): Word
    requires |b| == 4
  {
    (b[3] as Word << 24) | (b[2] as Word << 16) | (b[1] as Word << 8) | (b[0] as Word)
  }

  function FromBE(b: seq<Byte>): Word
    requires |b| == 4
  {
    (b[0] as Word << 24) | (b[1] as Word << 16) | (b[2] as Word << 8) | (b[3] as Word)
  }

  lemma FromToLE(w: Word)
    ensures FromLE(ToLE(w)) == w
  {
  }

  lemma FromToBE(w: Word)
    ensures FromBE(ToBE(w)) == w
  {
  }

  lemma ToFromLE(b: seq<Byte>)
    requires |b| == 4
    ensures ToLE(FromLE(b)) == b
  {
  }

  lemma ToFromBE(b: seq<Byte>)
    requires |b| == 4
    ensures ToBE(FromBE(b)) == b
  {
  }

  function Flip(b: seq<Byte>): (r: seq<Byte>)
    requires |b| == 4
    ensures |r| == 4
  {
    [b[3], b[2], b[1], b[0]]
  }

  lemma FlipSwapsOrder(b: seq<Byte>)
    requires |b| == 4
    ensures FromLE(b) == FromBE(Flip(b))
  {
  }

  lemma FlipToBE(w: Word)
    ensures Flip(ToBE(w)) == ToLE(w)
  {
  }

  lemma NumFromLE(b: seq<Byte>)
    requires |b| == 4
    ensures Num(FromLE(b)) ==
            ByteNum(b[0]) + 0x100 * ByteNum(b[1]) + 0x1_0000 * ByteNum(b[2]) + 0x100_0000 * ByteNum(b[3])
  {
  }

  // ------------------------------------------------ words from numbers

  /** The base-256 digits of a 32-bit number, least significant first. */
  function BytesOf(n: Uint32): (b: seq<Byte>)
    ensures |b| == 4
  {
    [ByteOf(n % 0x100), ByteOf(n / 0x100 % 0x100), ByteOf(n / 0x1_0000 % 0x100), ByteOf(n / 0x100_0000)]
  }

  lemma Digits(n: Uint32)
    ensures n == n % 0x100 + 0x100 * (n / 0x100 % 0x100)
                 + 0x1_0000 * (n / 0x1_0000 % 0x100) + 0x100_0000 * (n / 0x100_0000)
  {
    assert n / 0x1_0000 == (n / 0x100) / 0x100;
    assert n / 0x100_0000 == (n / 0x1_0000) / 0x100;
  }

  /** The word whose value is n. */
  function WordOf(n: Uint32): (w: Word)
    ensures Num(w) == n
  {
    Digits(n);
    NumFromLE(BytesOf(n));
    FromLE(BytesOf(n))
  }

  lemma WordOfBytes(n: Uint32)
    ensures WordOf(n) == FromLE(BytesOf(n))
  {
  }

  // ---------------------------------------------- arithmetic on uint32_t

  /** Addition modulo 2^32. */
  function Add(x: Word, y: Word): Word {
    WordOf((Num(x) + Num(y)) % MODULUS)
  }

  /** Subtraction modulo 2^32. */
  function Sub(x: Word, y: Word): Word {
    WordOf((Num(x) - Num(y)) % MODULUS)
  }

  lemma NumAddSub(x: Word, y: Word)
    ensures Num(Add(x, y)) == (Num(x) + Num(y)) % MODULUS
    ensures Num(Sub(x, y)) == (Num(x) - Num(y)) % MODULUS
  {
    hide WordOf, Num;
  }

  lemma ModAssociates(a: Uint32, b: Uint32, c: Uint32)
    ensures (a + (b + c) % MODULUS) % MODULUS == ((a + b) % MODULUS + c) % MODULUS
  {
    assert (b + c) % MODULUS == if b + c < MODULUS then b + c else b + c - MODULUS;
    assert (a + b) % MODULUS == if a + b < MODULUS then a + b else a + b - MODULUS;
  }

  lemma ModCancel(a: Uint32, b: Uint32)
    ensures ((a + b) % MODULUS - b) % MODULUS == a
    ensures ((a - b) % MODULUS + b) % MODULUS == a
  {
    assert (a + b) % MODULUS == if a + b < MODULUS then a + b else a + b - MODULUS;
    assert (a - b) % MODULUS == if a >= b then a - b else a - b + MODULUS;
  }

  lemma AddCommutes(x: Word, y: Word)
    ensures Add(x, y) == Add(y, x)
  {
    hide WordOf, Num;
  }

  lemma AddAssociates(x: Word, y: Word, z: Word)
    ensures Add(x, Add(y, z)) == Add(Add(x, y), z)
  {
    hide WordOf, Num, Add, Sub;
    NumAddSub(x, y);
    NumAddSub(y, z);
    NumAddSub(Add(x, y), z);
    NumAddSub(x, Add(y, z));
    ModAssociates(Num(x), Num(y), Num(z));
    NumInjective(Add(x, Add(y, z)), Add(Add(x, y), z));
  }

  lemma SubUndoesAdd(x: Word, y: Word)
    ensures Sub(Add(x, y), y) == x
  {
    hide WordOf, Num, Add, Sub;
    NumAddSub(x, y);
    NumAddSub(Add(x, y), y);
    ModCancel(Num(x), Num(y));
    NumInjective(Sub(Add(x, y), y), x);
  }

  lemma AddUndoesSub(x: Word, y: Word)
    ensures Add(Sub(x, y), y) == x
  {
    hide WordOf, Num, Add, Sub;
    NumAddSub(x, y);
    NumAddSub(Sub(x, y), y);
    ModCancel(Num(x), Num(y));
    NumInjective(Add(Sub(x, y), y), x);
  }

  // ------------------------------------------------------------- rotation

  /** A shift count. */
  type Count = bv6

  /** Circular left shift. */
  function RotL(w: Word, s: Count): Word
    requires 1 <= s <= 31
  {
    (w << s) | (w >> (32 - s))
  }

  /** Circular right shift. */
  function RotR(w: Word, s: Count): Word
    requires 1 <= s <= 31
  {
    (w >> s) | (w << (32 - s))
  }

  /** The sixteen shift counts that MD5 uses. */
  predicate IsMd5Count(s: Count) {
    s in {4, 5, 6, 7, 9, 10, 11, 12, 14, 15, 16, 17, 20, 21, 22, 23}
  }

  lemma Turn4(w: Word) ensures RotR(RotL(w, 4), 4) == w && RotL(RotR(w, 4), 4) == w {}
  lemma Turn5(w: Word) ensures RotR(RotL(w, 5), 5) == w && RotL(RotR(w, 5), 5) == w {}
  lemma Turn6(w: Word) ensures RotR(RotL(w, 6), 6) == w && RotL(RotR(w, 6), 6) == w {}
  lemma Turn7(w: Word) ensures RotR(RotL(w, 7), 7) == w && RotL(RotR(w, 7), 7) == w {}
  lemma Turn9(w: Word) ensures RotR(RotL(w, 9), 9) == w && RotL(RotR(w, 9), 9) == w {}
  lemma Turn10(w: Word) ensures RotR(RotL(w, 10), 10) == w && RotL(RotR(w, 10), 10) == w {}
  lemma Turn11(w: Word) ensures RotR(RotL(w, 11), 11) == w && RotL(RotR(w, 11), 11) == w {}
  lemma Turn12(w: Word) ensures RotR(RotL(w, 12), 12) == w && RotL(RotR(w, 12), 12) == w {}
  lemma Turn14(w: Word) ensures RotR(RotL(w, 14), 14) == w && RotL(RotR(w, 14), 14) == w {}
  lemma Turn15(w: Word) ensures RotR(RotL(w, 15), 15) == w && RotL(RotR(w, 15), 15) == w {}
  lemma Turn16(w: Word) ensures RotR(RotL(w, 16), 16) == w && RotL(RotR(w, 16), 16) == w {}
  lemma Turn17(w: Word) ensures RotR(RotL(w, 17), 17) == w && RotL(RotR(w, 17), 17) == w {}
  lemma Turn20(w: Word) ensures RotR(RotL(w, 20), 20) == w && RotL(RotR(w, 20), 20) == w {}
  lemma Turn21(w: Word) ensures RotR(RotL(w, 21), 21) == w && RotL(RotR(w, 21), 21) == w {}
  lemma Turn22(w: Word) ensures RotR(RotL(w, 22), 22) == w && RotL(RotR(w, 22), 22) == w {}
  lemma Turn23(w: Word) ensures RotR(RotL(w, 23), 23) == w && RotL(RotR(w, 23), 23) == w {}

  lemma RotateRoundTrip(w: Word, s: Count)
    requires IsMd5Count(s)
    ensures RotR(RotL(w, s), s) == w
    ensures RotL(RotR(w, s), s) == w
  {
    hide RotL, RotR;
    Turn4(w); Turn5(w); Turn6(w); Turn7(w); Turn9(w); Turn10(w); Turn11(w); Turn12(w);
    Turn14(w); Turn15(w); Turn16(w); Turn17(w); Turn20(w); Turn21(w); Turn22(w); Turn23(w);
  }

  // ------------------------------------------------- native loads and stores

  /** What a host of the given byte order puts in memory when it stores a word. */
  function Store(order: ByteOrder, w: Word): (b: seq<Byte>)
    ensures |b| == 4
  {
    match order
    case LittleEndian => ToLE(w)
    case BigEndian => ToBE(w)
  }

  /** What a host of the given byte order reads back from four bytes of memory. */
  function Load(order: ByteOrder, b: seq<Byte>): Word
    requires |b| == 4
  {
    match order
    case LittleEndian => FromLE(b)
    case BigEndian => FromBE(b)
  }

  lemma LoadStore(order: ByteOrder, w: Word)
    ensures Load(order, Store(order, w)) == w
  {
    hide FromLE, FromBE, ToLE, ToBE;
    FromToLE(w);
    FromToBE(w);
  }

  lemma StoreLoad(order: ByteOrder, b: seq<Byte>)
    requires |b| == 4
    ensures Store(order, Load(order, b)) == b
  {
    hide FromLE, FromBE, ToLE, ToBE;
    ToFromLE(b);
    ToFromBE(b);
  }

  /** Storing the little-endian reading of a natively stored word leaves the word little-endian. */
  lemma ReversedStore(order: ByteOrder, w: Word)
    ensures Store(order, FromLE(Store(order, w))) == ToLE(w)
  {
    hide FromLE, FromBE, ToLE, ToBE;
    FromToLE(w);
    FlipSwapsOrder(ToBE(w));
    FlipToBE(w);
    ToFromBE(ToLE(w));
  }

  /** The words of a stretch of memory, read with the given byte order. */
  function LoadAll(order: ByteOrder, bytes: seq<Byte>): (words: seq<Word>)
    requires |bytes| % 4 == 0
    ensures |words| == |bytes| / 4
  {
    seq(|bytes| / 4, k requires 0 <= k < |bytes| / 4 => Load(order, bytes[4 * k..4 * k + 4]))
  }
}
