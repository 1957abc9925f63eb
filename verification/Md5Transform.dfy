/** The unrolled transform of md5.c, and its equality with the table-driven compression. */
module Md5Transform {
  import opened Words
  import opened Rfc1321

  // The four core functions as the source optimises them.

  function F1(x: Word, y: Word, z: Word): Word {
    z ^ (x & (y ^ z))
  }

  function F2(x: Word, y: Word, z: Word): Word {
    F1(z, x, y)
  }

  function F3(x: Word, y: Word, z: Word): Word {
    x ^ y ^ z
  }

  function F4(x: Word, y: Word, z: Word): Word {
    y ^ (x | !z)
  }

  /** The value the macro MD5STEP leaves in w, given f(x, y, z). */
  function Md5Step(f: Word, w: Word, x: Word, data: Word, s: Count): Word
    requires 1 <= s <= 31
  {
    Add(RotL(Add(w, Add(f, data)), s), x)
  }

  lemma SelectBits(x: Word, y: Word, z: Word)
    ensures z ^ (x & (y ^ z)) == (x & y) | (!x & z)
  {
  }

  lemma SelectBitsSwapped(x: Word, y: Word, z: Word)
    ensures z ^ (x & (y ^ z)) == (y & x) | (z & !x)
  {
  }

  /** The two functions the source rewrites keep their meaning. */
  lemma OptimisedF(x: Word, y: Word, z: Word)
    ensures F1(x, y, z) == F(x, y, z)
  {
    SelectBits(x, y, z);
  }

  lemma OptimisedG(x: Word, y: Word, z: Word)
    ensures F2(x, y, z) == G(x, y, z)
  {
    SelectBitsSwapped(z, x, y);
  }

  /** The core functions are the auxiliary functions F, G, H and I of the standard. */
  lemma CoreFunction(i: nat, x: Word, y: Word, z: Word)
    ensures Mix(i, x, y, z) ==
            if i < 16 then F1(x, y, z) else if i < 32 then F2(x, y, z) else if i < 48 then F3(x, y, z) else F4(x, y, z)
  {
    hide F1, F2, F, G;
    OptimisedF(x, y, z);
    OptimisedG(x, y, z);
  }

  lemma Regroup(w: Word, f: Word, d: Word, t: Word)
    ensures Add(w, Add(f, Add(d, t))) == Add(Add(Add(w, f), d), t)
  {
    hide Add;
    AddAssociates(f, d, t);
    AddAssociates(w, f, Add(d, t));
    AddAssociates(Add(w, f), d, t);
  }

  /** One MD5STEP line with the arguments of step i is operation i of the standard. */
  lemma StepIsOp(i: nat, w: Word, x: Word, y: Word, z: Word, f: Word, data: seq<Word>, k: nat, t: Word, s: Count)
    requires |data| == 16 && k == WordIndex(i) && t == T(i) && s == ShiftOf(i) && f == Mix(i, x, y, z)
    ensures Md5Step(f, w, x, Add(data[k], t), s) == Op(i, w, x, y, z, data)
  {
    hide RotL, Mix, T, Add;
    Regroup(w, f, data[k], t);
    AddCommutes(x, RotL(Add(Add(Add(w, f), data[k]), t), s));
  }

  /** A line that updates register a. */
  lemma LineA(i: nat, s0: State, a: Word, b: Word, c: Word, d: Word, f: Word, data: seq<Word>, k: nat, t: Word,
              s: Count)
    requires |data| == 16 && i % 4 == 0 && State(a, b, c, d) == Steps(s0, data, i)
    requires k == WordIndex(i) && t == T(i) && s == ShiftOf(i) && f == Mix(i, b, c, d)
    ensures Steps(s0, data, i + 1) == State(a, b, c, d).(a := Md5Step(f, a, b, Add(data[k], t), s))
  {
    hide RotL, Mix, T, Add, Md5Step, Op;
    StepIsOp(i, a, b, c, d, f, data, k, t, s);
  }

  /** A line that updates register d. */
  lemma LineD(i: nat, s0: State, a: Word, b: Word, c: Word, d: Word, f: Word, data: seq<Word>, k: nat, t: Word,
              s: Count)
    requires |data| == 16 && i % 4 == 1 && State(a, b, c, d) == Steps(s0, data, i)
    requires k == WordIndex(i) && t == T(i) && s == ShiftOf(i) && f == Mix(i, a, b, c)
    ensures Steps(s0, data, i + 1) == State(a, b, c, d).(d := Md5Step(f, d, a, Add(data[k], t), s))
  {
    hide RotL, Mix, T, Add, Md5Step, Op;
    StepIsOp(i, d, a, b, c, f, data, k, t, s);
  }

  /** A line that updates register c. */
  lemma LineC(i: nat, s0: State, a: Word, b: Word, c: Word, d: Word, f: Word, data: seq<Word>, k: nat, t: Word,
              s: Count)
    requires |data| == 16 && i % 4 == 2 && State(a, b, c, d) == Steps(s0, data, i)
    requires k == WordIndex(i) && t == T(i) && s == ShiftOf(i) && f == Mix(i, d, a, b)
    ensures Steps(s0, data, i + 1) == State(a, b, c, d).(c := Md5Step(f, c, d, Add(data[k], t), s))
  {
    hide RotL, Mix, T, Add, Md5Step, Op;
    StepIsOp(i, c, d, a, b, f, data, k, t, s);
  }

  /** A line that updates register b. */
  lemma LineB(i: nat, s0: State, a: Word, b: Word, c: Word, d: Word, f: Word, data: seq<Word>, k: nat, t: Word,
              s: Count)
    requires |data| == 16 && i % 4 == 3 && State(a, b, c, d) == Steps(s0, data, i)
    requires k == WordIndex(i) && t == T(i) && s == ShiftOf(i) && f == Mix(i, c, d, a)
    ensures Steps(s0, data, i + 1) == State(a, b, c, d).(b := Md5Step(f, b, c, Add(data[k], t), s))
  {
    hide RotL, Mix, T, Add, Md5Step, Op;
    StepIsOp(i, b, c, d, a, f, data, k, t, s);
  }

  lemma FirstRows()
    ensures WordIndex(0) == 0 && T(0) == 0xd76aa478 && ShiftOf(0) == 7
    ensures WordIndex(1) == 1 && T(1) == 0xe8c7b756 && ShiftOf(1) == 12
    ensures WordIndex(2) == 2 && T(2) == 0x242070db && ShiftOf(2) == 17
    ensures WordIndex(3) == 3 && T(3) == 0xc1bdceee && ShiftOf(3) == 22
    ensures WordIndex(4) == 4 && T(4) == 0xf57c0faf && ShiftOf(4) == 7
    ensures WordIndex(5) == 5 && T(5) == 0x4787c62a && ShiftOf(5) == 12
    ensures WordIndex(6) == 6 && T(6) == 0xa8304613 && ShiftOf(6) == 17
    ensures WordIndex(7) == 7 && T(7) == 0xfd469501 && ShiftOf(7) == 22
    ensures WordIndex(8) == 8 && T(8) == 0x698098d8 && ShiftOf(8) == 7
    ensures WordIndex(9) == 9 && T(9) == 0x8b44f7af && ShiftOf(9) == 12
    ensures WordIndex(10) == 10 && T(10) == 0xffff5bb1 && ShiftOf(10) == 17
    ensures WordIndex(11) == 11 && T(11) == 0x895cd7be && ShiftOf(11) == 22
    ensures WordIndex(12) == 12 && T(12) == 0x6b901122 && ShiftOf(12) == 7
    ensures WordIndex(13) == 13 && T(13) == 0xfd987193 && ShiftOf(13) == 12
    ensures WordIndex(14) == 14 && T(14) == 0xa679438e && ShiftOf(14) == 17
    ensures WordIndex(15) == 15 && T(15) == 0x49b40821 && ShiftOf(15) == 22
  {
  }

  lemma SecondRows()
    ensures WordIndex(16) == 1 && T(16) == 0xf61e2562 && ShiftOf(16) == 5
    ensures WordIndex(17) == 6 && T(17) == 0xc040b340 && ShiftOf(17) == 9
    ensures WordIndex(18) == 11 && T(18) == 0x265e5a51 && ShiftOf(18) == 14
    ensures WordIndex(19) == 0 && T(19) == 0xe9b6c7aa && ShiftOf(19) == 20
    ensures WordIndex(20) == 5 && T(20) == 0xd62f105d && ShiftOf(20) == 5
    ensures WordIndex(21) == 10 && T(21) == 0x02441453 && ShiftOf(21) == 9
    ensures WordIndex(22) == 15 && T(22) == 0xd8a1e681 && ShiftOf(22) == 14
    ensures WordIndex(23) == 4 && T(23) == 0xe7d3fbc8 && ShiftOf(23) == 20
    ensures WordIndex(24) == 9 && T(24) == 0x21e1cde6 && ShiftOf(24) == 5
    ensures WordIndex(25) == 14 && T(25) == 0xc33707d6 && ShiftOf(25) == 9
    ensures WordIndex(26) == 3 && T(26) == 0xf4d50d87 && ShiftOf(26) == 14
    ensures WordIndex(27) == 8 && T(27) == 0x455a14ed && ShiftOf(27) == 20
    ensures WordIndex(28) == 13 && T(28) == 0xa9e3e905 && ShiftOf(28) == 5
    ensures WordIndex(29) == 2 && T(29) == 0xfcefa3f8 && ShiftOf(29) == 9
    ensures WordIndex(30) == 7 && T(30) == 0x676f02d9 && ShiftOf(30) == 14
    ensures WordIndex(31) == 12 && T(31) == 0x8d2a4c8a && ShiftOf(31) == 20
  {
  }

  lemma ThirdRows()
    ensures WordIndex(32) == 5 && T(32) == 0xfffa3942 && ShiftOf(32) == 4
    ensures WordIndex(33) == 8 && T(33) == 0x8771f681 && ShiftOf(33) == 11
    ensures WordIndex(34) == 11 && T(34) == 0x6d9d6122 && ShiftOf(34) == 16
    ensures WordIndex(35) == 14 && T(35) == 0xfde5380c && ShiftOf(35) == 23
    ensures WordIndex(36) == 1 && T(36) == 0xa4beea44 && ShiftOf(36) == 4
    ensures WordIndex(37) == 4 && T(37) == 0x4bdecfa9 && ShiftOf(37) == 11
    ensures WordIndex(38) == 7 && T(38) == 0xf6bb4b60 && ShiftOf(38) == 16
    ensures WordIndex(39) == 10 && T(39) == 0xbebfbc70 && ShiftOf(39) == 23
    ensures WordIndex(40) == 13 && T(40) == 0x289b7ec6 && ShiftOf(40) == 4
    ensures WordIndex(41) == 0 && T(41) == 0xeaa127fa && ShiftOf(41) == 11
    ensures WordIndex(42) == 3 && T(42) == 0xd4ef3085 && ShiftOf(42) == 16
    ensures WordIndex(43) == 6 && T(43) == 0x04881d05 && ShiftOf(43) == 23
    ensures WordIndex(44) == 9 && T(44) == 0xd9d4d039 && ShiftOf(44) == 4
    ensures WordIndex(45) == 12 && T(45) == 0xe6db99e5 && ShiftOf(45) == 11
    ensures WordIndex(46) == 15 && T(46) == 0x1fa27cf8 && ShiftOf(46) == 16
    ensures WordIndex(47) == 2 && T(47) == 0xc4ac5665 && ShiftOf(47) == 23
  {
  }

  lemma FourthRows()
    ensures WordIndex(48) == 0 && T(48) == 0xf4292244 && ShiftOf(48) == 6
    ensures WordIndex(49) == 7 && T(49) == 0x432aff97 && ShiftOf(49) == 10
    ensures WordIndex(50) == 14 && T(50) == 0xab9423a7 && ShiftOf(50) == 15
    ensures WordIndex(51) == 5 && T(51) == 0xfc93a039 && ShiftOf(51) == 21
    ensures WordIndex(52) == 12 && T(52) == 0x655b59c3 && ShiftOf(52) == 6
    ensures WordIndex(53) == 3 && T(53) == 0x8f0ccc92 && ShiftOf(53) == 10
    ensures WordIndex(54) == 10 && T(54) == 0xffeff47d && ShiftOf(54) == 15
    ensures WordIndex(55) == 1 && T(55) == 0x85845dd1 && ShiftOf(55) == 21
    ensures WordIndex(56) == 8 && T(56) == 0x6fa87e4f && ShiftOf(56) == 6
    ensures WordIndex(57) == 15 && T(57) == 0xfe2ce6e0 && ShiftOf(57) == 10
    ensures WordIndex(58) == 6 && T(58) == 0xa3014314 && ShiftOf(58) == 15
    ensures WordIndex(59) == 13 && T(59) == 0x4e0811a1 && ShiftOf(59) == 21
    ensures WordIndex(60) == 4 && T(60) == 0xf7537e82 && ShiftOf(60) == 6
    ensures WordIndex(61) == 11 && T(61) == 0xbd3af235 && ShiftOf(61) == 10
    ensures WordIndex(62) == 2 && T(62) == 0x2ad7d2bb && ShiftOf(62) == 15
    ensures WordIndex(63) == 9 && T(63) == 0xeb86d391 && ShiftOf(63) == 21
  {
  }

  /** Lines 172 to 187 of the source. */
  method FirstRound(data: seq<Word>, ghost s0: State, a0: Word, b0: Word, c0: Word, d0: Word)
    returns (a: Word, b: Word, c: Word, d: Word)
    requires |data| == 16
    requires State(a0, b0, c0, d0) == Steps(s0, data, 0)
    ensures State(a, b, c, d) == Steps(s0, data, 16)
  {
    hide *;
    FirstRows();
    a, b, c, d := a0, b0, c0, d0;
    CoreFunction(0, b, c, d); LineA(0, s0, a, b, c, d, F1(b, c, d), data, 0, 0xd76aa478, 7);
    a := Md5Step(F1(b, c, d), a, b, Add(data[0], 0xd76aa478), 7);
    CoreFunction(1, a, b, c); LineD(1, s0, a, b, c, d, F1(a, b, c), data, 1, 0xe8c7b756, 12);
    d := Md5Step(F1(a, b, c), d, a, Add(data[1], 0xe8c7b756), 12);
    CoreFunction(2, d, a, b); LineC(2, s0, a, b, c, d, F1(d, a, b), data, 2, 0x242070db, 17);
    c := Md5Step(F1(d, a, b), c, d, Add(data[2], 0x242070db), 17);
    CoreFunction(3, c, d, a); LineB(3, s0, a, b, c, d, F1(c, d, a), data, 3, 0xc1bdceee, 22);
    b := Md5Step(F1(c, d, a), b, c, Add(data[3], 0xc1bdceee), 22);
    CoreFunction(4, b, c, d); LineA(4, s0, a, b, c, d, F1(b, c, d), data, 4, 0xf57c0faf, 7);
    a := Md5Step(F1(b, c, d), a, b, Add(data[4], 0xf57c0faf), 7);
    CoreFunction(5, a, b, c); LineD(5, s0, a, b, c, d, F1(a, b, c), data, 5, 0x4787c62a, 12);
    d := Md5Step(F1(a, b, c), d, a, Add(data[5], 0x4787c62a), 12);
    CoreFunction(6, d, a, b); LineC(6, s0, a, b, c, d, F1(d, a, b), data, 6, 0xa8304613, 17);
    c := Md5Step(F1(d, a, b), c, d, Add(data[6], 0xa8304613), 17);
    CoreFunction(7, c, d, a); LineB(7, s0, a, b, c, d, F1(c, d, a), data, 7, 0xfd469501, 22);
    b := Md5Step(F1(c, d, a), b, c, Add(data[7], 0xfd469501), 22);
    CoreFunction(8, b, c, d); LineA(8, s0, a, b, c, d, F1(b, c, d), data, 8, 0x698098d8, 7);
    a := Md5Step(F1(b, c, d), a, b, Add(data[8], 0x698098d8), 7);
    CoreFunction(9, a, b, c); LineD(9, s0, a, b, c, d, F1(a, b, c), data, 9, 0x8b44f7af, 12);
    d := Md5Step(F1(a, b, c), d, a, Add(data[9], 0x8b44f7af), 12);
    CoreFunction(10, d, a, b); LineC(10, s0, a, b, c, d, F1(d, a, b), data, 10, 0xffff5bb1, 17);
    c := Md5Step(F1(d, a, b), c, d, Add(data[10], 0xffff5bb1), 17);
    CoreFunction(11, c, d, a); LineB(11, s0, a, b, c, d, F1(c, d, a), data, 11, 0x895cd7be, 22);
    b := Md5Step(F1(c, d, a), b, c, Add(data[11], 0x895cd7be), 22);
    CoreFunction(12, b, c, d); LineA(12, s0, a, b, c, d, F1(b, c, d), data, 12, 0x6b901122, 7);
    a := Md5Step(F1(b, c, d), a, b, Add(data[12], 0x6b901122), 7);
    CoreFunction(13, a, b, c); LineD(13, s0, a, b, c, d, F1(a, b, c), data, 13, 0xfd987193, 12);
    d := Md5Step(F1(a, b, c), d, a, Add(data[13], 0xfd987193), 12);
    CoreFunction(14, d, a, b); LineC(14, s0, a, b, c, d, F1(d, a, b), data, 14, 0xa679438e, 17);
    c := Md5Step(F1(d, a, b), c, d, Add(data[14], 0xa679438e), 17);
    CoreFunction(15, c, d, a); LineB(15, s0, a, b, c, d, F1(c, d, a), data, 15, 0x49b40821, 22);
    b := Md5Step(F1(c, d, a), b, c, Add(data[15], 0x49b40821), 22);
  }

  /** Lines 189 to 204 of the source. */
  method SecondRound(data: seq<Word>, ghost s0: State, a0: Word, b0: Word, c0: Word, d0: Word)
    returns (a: Word, b: Word, c: Word, d: Word)
    requires |data| == 16
    requires State(a0, b0, c0, d0) == Steps(s0, data, 16)
    ensures State(a, b, c, d) == Steps(s0, data, 32)
  {
    hide *;
    SecondRows();
    a, b, c, d := a0, b0, c0, d0;
    CoreFunction(16, b, c, d); LineA(16, s0, a, b, c, d, F2(b, c, d), data, 1, 0xf61e2562, 5);
    a := Md5Step(F2(b, c, d), a, b, Add(data[1], 0xf61e2562), 5);
    CoreFunction(17, a, b, c); LineD(17, s0, a, b, c, d, F2(a, b, c), data, 6, 0xc040b340, 9);
    d := Md5Step(F2(a, b, c), d, a, Add(data[6], 0xc040b340), 9);
    CoreFunction(18, d, a, b); LineC(18, s0, a, b, c, d, F2(d, a, b), data, 11, 0x265e5a51, 14);
    c := Md5Step(F2(d, a, b), c, d, Add(data[11], 0x265e5a51), 14);
    CoreFunction(19, c, d, a); LineB(19, s0, a, b, c, d, F2(c, d, a), data, 0, 0xe9b6c7aa, 20);
    b := Md5Step(F2(c, d, a), b, c, Add(data[0], 0xe9b6c7aa), 20);
    CoreFunction(20, b, c, d); LineA(20, s0, a, b, c, d, F2(b, c, d), data, 5, 0xd62f105d, 5);
    a := Md5Step(F2(b, c, d), a, b, Add(data[5], 0xd62f105d), 5);
    CoreFunction(21, a, b, c); LineD(21, s0, a, b, c, d, F2(a, b, c), data, 10, 0x02441453, 9);
    d := Md5Step(F2(a, b, c), d, a, Add(data[10], 0x02441453), 9);
    CoreFunction(22, d, a, b); LineC(22, s0, a, b, c, d, F2(d, a, b), data, 15, 0xd8a1e681, 14);
    c := Md5Step(F2(d, a, b), c, d, Add(data[15], 0xd8a1e681), 14);
    CoreFunction(23, c, d, a); LineB(23, s0, a, b, c, d, F2(c, d, a), data, 4, 0xe7d3fbc8, 20);
    b := Md5Step(F2(c, d, a), b, c, Add(data[4], 0xe7d3fbc8), 20);
    CoreFunction(24, b, c, d); LineA(24, s0, a, b, c, d, F2(b, c, d), data, 9, 0x21e1cde6, 5);
    a := Md5Step(F2(b, c, d), a, b, Add(data[9], 0x21e1cde6), 5);
    CoreFunction(25, a, b, c); LineD(25, s0, a, b, c, d, F2(a, b, c), data, 14, 0xc33707d6, 9);
    d := Md5Step(F2(a, b, c), d, a, Add(data[14], 0xc33707d6), 9);
    CoreFunction(26, d, a, b); LineC(26, s0, a, b, c, d, F2(d, a, b), data, 3, 0xf4d50d87, 14);
    c := Md5Step(F2(d, a, b), c, d, Add(data[3], 0xf4d50d87), 14);
    CoreFunction(27, c, d, a); LineB(27, s0, a, b, c, d, F2(c, d, a), data, 8, 0x455a14ed, 20);
    b := Md5Step(F2(c, d, a), b, c, Add(data[8], 0x455a14ed), 20);
    CoreFunction(28, b, c, d); LineA(28, s0, a, b, c, d, F2(b, c, d), data, 13, 0xa9e3e905, 5);
    a := Md5Step(F2(b, c, d), a, b, Add(data[13], 0xa9e3e905), 5);
    CoreFunction(29, a, b, c); LineD(29, s0, a, b, c, d, F2(a, b, c), data, 2, 0xfcefa3f8, 9);
    d := Md5Step(F2(a, b, c), d, a, Add(data[2], 0xfcefa3f8), 9);
    CoreFunction(30, d, a, b); LineC(30, s0, a, b, c, d, F2(d, a, b), data, 7, 0x676f02d9, 14);
    c := Md5Step(F2(d, a, b), c, d, Add(data[7], 0x676f02d9), 14);
    CoreFunction(31, c, d, a); LineB(31, s0, a, b, c, d, F2(c, d, a), data, 12, 0x8d2a4c8a, 20);
    b := Md5Step(F2(c, d, a), b, c, Add(data[12], 0x8d2a4c8a), 20);
  }

  /** Lines 206 to 221 of the source. */
  method ThirdRound(data: seq<Word>, ghost s0: State, a0: Word, b0: Word, c0: Word, d0: Word)
    returns (a: Word, b: Word, c: Word, d: Word)
    requires |data| == 16
    requires State(a0, b0, c0, d0) == Steps(s0, data, 32)
    ensures State(a, b, c, d) == Steps(s0, data, 48)
  {
    hide *;
    ThirdRows();
    a, b, c, d := a0, b0, c0, d0;
    CoreFunction(32, b, c, d); LineA(32, s0, a, b, c, d, F3(b, c, d), data, 5, 0xfffa3942, 4);
    a := Md5Step(F3(b, c, d), a, b, Add(data[5], 0xfffa3942), 4);
    CoreFunction(33, a, b, c); LineD(33, s0, a, b, c, d, F3(a, b, c), data, 8, 0x8771f681, 11);
    d := Md5Step(F3(a, b, c), d, a, Add(data[8], 0x8771f681), 11);
    CoreFunction(34, d, a, b); LineC(34, s0, a, b, c, d, F3(d, a, b), data, 11, 0x6d9d6122, 16);
    c := Md5Step(F3(d, a, b), c, d, Add(data[11], 0x6d9d6122), 16);
    CoreFunction(35, c, d, a); LineB(35, s0, a, b, c, d, F3(c, d, a), data, 14, 0xfde5380c, 23);
    b := Md5Step(F3(c, d, a), b, c, Add(data[14], 0xfde5380c), 23);
    CoreFunction(36, b, c, d); LineA(36, s0, a, b, c, d, F3(b, c, d), data, 1, 0xa4beea44, 4);
    a := Md5Step(F3(b, c, d), a, b, Add(data[1], 0xa4beea44), 4);
    CoreFunction(37, a, b, c); LineD(37, s0, a, b, c, d, F3(a, b, c), data, 4, 0x4bdecfa9, 11);
    d := Md5Step(F3(a, b, c), d, a, Add(data[4], 0x4bdecfa9), 11);
    CoreFunction(38, d, a, b); LineC(38, s0, a, b, c, d, F3(d, a, b), data, 7, 0xf6bb4b60, 16);
    c := Md5Step(F3(d, a, b), c, d, Add(data[7], 0xf6bb4b60), 16);
    CoreFunction(39, c, d, a); LineB(39, s0, a, b, c, d, F3(c, d, a), data, 10, 0xbebfbc70, 23);
    b := Md5Step(F3(c, d, a), b, c, Add(data[10], 0xbebfbc70), 23);
    CoreFunction(40, b, c, d); LineA(40, s0, a, b, c, d, F3(b, c, d), data, 13, 0x289b7ec6, 4);
    a := Md5Step(F3(b, c, d), a, b, Add(data[13], 0x289b7ec6), 4);
    CoreFunction(41, a, b, c); LineD(41, s0, a, b, c, d, F3(a, b, c), data, 0, 0xeaa127fa, 11);
    d := Md5Step(F3(a, b, c), d, a, Add(data[0], 0xeaa127fa), 11);
    CoreFunction(42, d, a, b); LineC(42, s0, a, b, c, d, F3(d, a, b), data, 3, 0xd4ef3085, 16);
    c := Md5Step(F3(d, a, b), c, d, Add(data[3], 0xd4ef3085), 16);
    CoreFunction(43, c, d, a); LineB(43, s0, a, b, c, d, F3(c, d, a), data, 6, 0x04881d05, 23);
    b := Md5Step(F3(c, d, a), b, c, Add(data[6], 0x04881d05), 23);
    CoreFunction(44, b, c, d); LineA(44, s0, a, b, c, d, F3(b, c, d), data, 9, 0xd9d4d039, 4);
    a := Md5Step(F3(b, c, d), a, b, Add(data[9], 0xd9d4d039), 4);
    CoreFunction(45, a, b, c); LineD(45, s0, a, b, c, d, F3(a, b, c), data, 12, 0xe6db99e5, 11);
    d := Md5Step(F3(a, b, c), d, a, Add(data[12], 0xe6db99e5), 11);
    CoreFunction(46, d, a, b); LineC(46, s0, a, b, c, d, F3(d, a, b), data, 15, 0x1fa27cf8, 16);
    c := Md5Step(F3(d, a, b), c, d, Add(data[15], 0x1fa27cf8), 16);
    CoreFunction(47, c, d, a); LineB(47, s0, a, b, c, d, F3(c, d, a), data, 2, 0xc4ac5665, 23);
    b := Md5Step(F3(c, d, a), b, c, Add(data[2], 0xc4ac5665), 23);
  }

  /** Lines 223 to 238 of the source. */
  method FourthRound(data: seq<Word>, ghost s0: State, a0: Word, b0: Word, c0: Word, d0: Word)
    returns (a: Word, b: Word, c: Word, d: Word)
    requires |data| == 16
    requires State(a0, b0, c0, d0) == Steps(s0, data, 48)
    ensures State(a, b, c, d) == Steps(s0, data, 64)
  {
    hide *;
    FourthRows();
    a, b, c, d := a0, b0, c0, d0;
    CoreFunction(48, b, c, d); LineA(48, s0, a, b, c, d, F4(b, c, d), data, 0, 0xf4292244, 6);
    a := Md5Step(F4(b, c, d), a, b, Add(data[0], 0xf4292244), 6);
    CoreFunction(49, a, b, c); LineD(49, s0, a, b, c, d, F4(a, b, c), data, 7, 0x432aff97, 10);
    d := Md5Step(F4(a, b, c), d, a, Add(data[7], 0x432aff97), 10);
    CoreFunction(50, d, a, b); LineC(50, s0, a, b, c, d, F4(d, a, b), data, 14, 0xab9423a7, 15);
    c := Md5Step(F4(d, a, b), c, d, Add(data[14], 0xab9423a7), 15);
    CoreFunction(51, c, d, a); LineB(51, s0, a, b, c, d, F4(c, d, a), data, 5, 0xfc93a039, 21);
    b := Md5Step(F4(c, d, a), b, c, Add(data[5], 0xfc93a039), 21);
    CoreFunction(52, b, c, d); LineA(52, s0, a, b, c, d, F4(b, c, d), data, 12, 0x655b59c3, 6);
    a := Md5Step(F4(b, c, d), a, b, Add(data[12], 0x655b59c3), 6);
    CoreFunction(53, a, b, c); LineD(53, s0, a, b, c, d, F4(a, b, c), data, 3, 0x8f0ccc92, 10);
    d := Md5Step(F4(a, b, c), d, a, Add(data[3], 0x8f0ccc92), 10);
    CoreFunction(54, d, a, b); LineC(54, s0, a, b, c, d, F4(d, a, b), data, 10, 0xffeff47d, 15);
    c := Md5Step(F4(d, a, b), c, d, Add(data[10], 0xffeff47d), 15);
    CoreFunction(55, c, d, a); LineB(55, s0, a, b, c, d, F4(c, d, a), data, 1, 0x85845dd1, 21);
    b := Md5Step(F4(c, d, a), b, c, Add(data[1], 0x85845dd1), 21);
    CoreFunction(56, b, c, d); LineA(56, s0, a, b, c, d, F4(b, c, d), data, 8, 0x6fa87e4f, 6);
    a := Md5Step(F4(b, c, d), a, b, Add(data[8], 0x6fa87e4f), 6);
    CoreFunction(57, a, b, c); LineD(57, s0, a, b, c, d, F4(a, b, c), data, 15, 0xfe2ce6e0, 10);
    d := Md5Step(F4(a, b, c), d, a, Add(data[15], 0xfe2ce6e0), 10);
    CoreFunction(58, d, a, b); LineC(58, s0, a, b, c, d, F4(d, a, b), data, 6, 0xa3014314, 15);
    c := Md5Step(F4(d, a, b), c, d, Add(data[6], 0xa3014314), 15);
    CoreFunction(59, c, d, a); LineB(59, s0, a, b, c, d, F4(c, d, a), data, 13, 0x4e0811a1, 21);
    b := Md5Step(F4(c, d, a), b, c, Add(data[13], 0x4e0811a1), 21);
    CoreFunction(60, b, c, d); LineA(60, s0, a, b, c, d, F4(b, c, d), data, 4, 0xf7537e82, 6);
    a := Md5Step(F4(b, c, d), a, b, Add(data[4], 0xf7537e82), 6);
    CoreFunction(61, a, b, c); LineD(61, s0, a, b, c, d, F4(a, b, c), data, 11, 0xbd3af235, 10);
    d := Md5Step(F4(a, b, c), d, a, Add(data[11], 0xbd3af235), 10);
    CoreFunction(62, d, a, b); LineC(62, s0, a, b, c, d, F4(d, a, b), data, 2, 0x2ad7d2bb, 15);
    c := Md5Step(F4(d, a, b), c, d, Add(data[2], 0x2ad7d2bb), 15);
    CoreFunction(63, c, d, a); LineB(63, s0, a, b, c, d, F4(c, d, a), data, 9, 0xeb86d391, 21);
    b := Md5Step(F4(c, d, a), b, c, Add(data[9], 0xeb86d391), 21);
  }

  function StateOf(buf: seq<Word>): State
    requires |buf| == 4
  {
    State(buf[0], buf[1], buf[2], buf[3])
  }

  /** Folds sixteen message words into the four chaining words. */
  method Transform(buf: array<Word>, data: seq<Word>)
    requires buf.Length == 4 && |data| == 16
    modifies buf
    ensures StateOf(buf[..]) == Compress(old(StateOf(buf[..])), data)
  {
    hide Add, Op, Mix, RotL;
    ghost var s0 := StateOf(buf[..]);
    var a, b, c, d := buf[0], buf[1], buf[2], buf[3];
    a, b, c, d := FirstRound(data, s0, a, b, c, d);
    a, b, c, d := SecondRound(data, s0, a, b, c, d);
    a, b, c, d := ThirdRound(data, s0, a, b, c, d);
    a, b, c, d := FourthRound(data, s0, a, b, c, d);
    buf[0] := Add(buf[0], a);
    buf[1] := Add(buf[1], b);
    buf[2] := Add(buf[2], c);
    buf[3] := Add(buf[3], d);
  }
}
