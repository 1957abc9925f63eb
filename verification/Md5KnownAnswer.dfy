/**
 * A known answer: the digest of "abc", one of the values that section A.5 of RFC 1321
 * lists, computed step by step.  Each line gives the value of the auxiliary function, the
 * sum, the sum rotated, and the register that the step leaves.
 */
module Md5KnownAnswer {
  import opened Words
  import opened Rfc1321
  import opened Md5Transform

  /** The message words of the padded text. */
  const ABC: seq<Word> := [0x80636261, 0, 0, 0, 0, 0, 0, 0, 0, 0, 0, 0, 0, 0, 0x18, 0]

  const START: State := State(0x67452301, 0xefcdab89, 0x98badcfe, 0x10325476)

  lemma KnownSum(x: Word, y: Word, r: Word)
    requires (Num(x) + Num(y)) % MODULUS == Num(r)
    ensures Add(x, y) == r
  {
    hide Num;
    NumAddSub(x, y);
    NumInjective(Add(x, y), r);
  }

  lemma SumOfFour(a: Uint32, b: Uint32, c: Uint32, d: Uint32, two: Uint32, three: Uint32)
    requires two == (a + b) % MODULUS && three == (two + c) % MODULUS
    ensures (three + d) % MODULUS == (a + b + c + d) % MODULUS
  {
  }

  lemma KnownSumOfFour(w: Word, f: Word, x: Word, t: Word, sum: Word)
    requires (Num(w) + Num(f) + Num(x) + Num(t)) % MODULUS == Num(sum)
    ensures Add(Add(Add(w, f), x), t) == sum
  {
    hide Num, Add;
    var two := Add(w, f);
    var three := Add(two, x);
    NumAddSub(w, f);
    NumAddSub(two, x);
    SumOfFour(Num(w), Num(f), Num(x), Num(t), Num(two), Num(three));
    KnownSum(three, t, sum);
  }

  /** The values of one operation fit together: d and t are what it adds, sh is by how much it rotates. */
  predicate Fit(w: Word, x: Word, f: Word, d: Word, t: Word, sh: Count, sum: Word, v: Word) {
    1 <= sh <= 31
    && (Num(w) + Num(f) + Num(d) + Num(t)) % MODULUS == Num(sum) && (Num(x) + Num(RotL(sum, sh))) % MODULUS == Num(v)
  }

  /** What step i adds and by how much it rotates. */
  predicate Row(i: nat, d: Word, t: Word, sh: Count) {
    ABC[WordIndex(i)] == d && T(i) == t && ShiftOf(i) == sh
  }

  lemma KnownOp(i: nat, w: Word, x: Word, y: Word, z: Word, f: Word, d: Word, t: Word, sh: Count, sum: Word, v: Word)
    requires Mix(i, x, y, z) == f && Row(i, d, t, sh) && Fit(w, x, f, d, t, sh, sum, v)
    ensures Op(i, w, x, y, z, ABC) == v
  {
    hide Num, Add, Mix, T, WordIndex, ShiftOf, RotL;
    KnownSumOfFour(w, f, d, t, sum);
    KnownSum(x, RotL(sum, sh), v);
  }

  lemma KnownA(i: nat, a: Word, b: Word, c: Word, d: Word, f: Word, x: Word, t: Word, sh: Count, sum: Word, v: Word)
    requires State(a, b, c, d) == Steps(START, ABC, i) && i % 4 == 0
    requires Mix(i, b, c, d) == f && Row(i, x, t, sh) && Fit(a, b, f, x, t, sh, sum, v)
    ensures Steps(START, ABC, i + 1) == State(v, b, c, d)
  {
    hide Op, Mix, Row, Fit;
    KnownOp(i, a, b, c, d, f, x, t, sh, sum, v);
  }

  lemma KnownD(i: nat, a: Word, b: Word, c: Word, d: Word, f: Word, x: Word, t: Word, sh: Count, sum: Word, v: Word)
    requires State(a, b, c, d) == Steps(START, ABC, i) && i % 4 == 1
    requires Mix(i, a, b, c) == f && Row(i, x, t, sh) && Fit(d, a, f, x, t, sh, sum, v)
    ensures Steps(START, ABC, i + 1) == State(a, b, c, v)
  {
    hide Op, Mix, Row, Fit;
    KnownOp(i, d, a, b, c, f, x, t, sh, sum, v);
  }

  lemma KnownC(i: nat, a: Word, b: Word, c: Word, d: Word, f: Word, x: Word, t: Word, sh: Count, sum: Word, v: Word)
    requires State(a, b, c, d) == Steps(START, ABC, i) && i % 4 == 2
    requires Mix(i, d, a, b) == f && Row(i, x, t, sh) && Fit(c, d, f, x, t, sh, sum, v)
    ensures Steps(START, ABC, i + 1) == State(a, b, v, d)
  {
    hide Op, Mix, Row, Fit;
    KnownOp(i, c, d, a, b, f, x, t, sh, sum, v);
  }

  lemma KnownB(i: nat, a: Word, b: Word, c: Word, d: Word, f: Word, x: Word, t: Word, sh: Count, sum: Word, v: Word)
    requires State(a, b, c, d) == Steps(START, ABC, i) && i % 4 == 3
    requires Mix(i, c, d, a) == f && Row(i, x, t, sh) && Fit(b, c, f, x, t, sh, sum, v)
    ensures Steps(START, ABC, i + 1) == State(a, v, c, d)
  {
    hide Op, Mix, Row, Fit;
    KnownOp(i, b, c, d, a, f, x, t, sh, sum, v);
  }

  lemma StartKnown()
    ensures Steps(START, ABC, 0) == START
  {
  }

  lemma KnownTo4()
    ensures Steps(START, ABC, 4) == State(0xd6d117b4, 0x7ad956f2, 0x2f6fbd72, 0x344a8432)
  {
    hide Steps, T, WordIndex, ShiftOf;
    StartKnown();
    FirstRows();
    KnownA(0, 0x67452301, 0xefcdab89, 0x98badcfe, 0x10325476,
           0x98badcfe, 0x80636261, 0xd76aa478, 7, 0x57ce06d8, 0xd6d117b4);
    KnownD(1, 0xd6d117b4, 0xefcdab89, 0x98badcfe, 0x10325476,
           0xceebcbca, 0, 0xe8c7b756, 12, 0xc7e5d796, 0x344a8432);
    KnownC(2, 0xd6d117b4, 0xefcdab89, 0x98badcfe, 0x344a8432,
           0xdfc52fb9, 0, 0x242070db, 17, 0x9ca07d92, 0x2f6fbd72);
    KnownB(3, 0xd6d117b4, 0xefcdab89, 0x2f6fbd72, 0x344a8432,
           0xf4da86b6, 0, 0xc1bdceee, 22, 0xa666012d, 0x7ad956f2);
  }

  lemma KnownTo8()
    ensures Steps(START, ABC, 8) == State(0xc73741ef, 0x928d99f6, 0x207dc67b, 0x8bac3051)
  {
    hide Steps, T, WordIndex, ShiftOf;
    KnownTo4();
    FirstRows();
    KnownA(4, 0xd6d117b4, 0x7ad956f2, 0x2f6fbd72, 0x344a8432,
           0x2e4b9472, 0, 0xf57c0faf, 7, 0xfa98bbd5, 0xc73741ef);
    KnownD(5, 0xc73741ef, 0x7ad956f2, 0x2f6fbd72, 0x344a8432,
           0x6a59fcf2, 0, 0x4787c62a, 12, 0xe62c474e, 0x8bac3051);
    KnownC(6, 0xc73741ef, 0x7ad956f2, 0x2f6fbd72, 0x8bac3051,
           0xf37546e3, 0, 0xa8304613, 17, 0xcb154a68, 0x207dc67b);
    KnownB(7, 0xc73741ef, 0x7ad956f2, 0x207dc67b, 0x8bac3051,
           0xc72e01d5, 0, 0xfd469501, 22, 0x3f4dedc8, 0x928d99f6);
  }

  lemma KnownTo12()
    ensures Steps(START, ABC, 12) == State(0x854b3712, 0x5ed49596, 0x3020401c, 0x74e2f284)
  {
    hide Steps, T, WordIndex, ShiftOf;
    KnownTo8();
    FirstRows();
    KnownA(8, 0xc73741ef, 0x928d99f6, 0x207dc67b, 0x8bac3051,
           0x092da073, 0, 0x698098d8, 7, 0x39e57b3a, 0x854b3712);
    KnownD(9, 0x854b3712, 0x928d99f6, 0x207dc67b, 0x8bac3051,
           0xa03dd17b, 0, 0x8b44f7af, 12, 0xb72ef97b, 0x74e2f284);
    KnownC(10, 0x854b3712, 0x928d99f6, 0x207dc67b, 0x74e2f284,
           0x864f3b72, 0, 0xffff5bb1, 17, 0xa6cc5d9e, 0x3020401c);
    KnownB(11, 0x854b3712, 0x928d99f6, 0x3020401c, 0x74e2f284,
           0xb56b7706, 0, 0x895cd7be, 22, 0xd155e8ba, 0x5ed49596);
  }

  lemma KnownTo16()
    ensures Steps(START, ABC, 16) == State(0xdda9b9a6, 0x72aff2e0, 0xe396856b, 0xa1051895)
  {
    hide Steps, T, WordIndex, ShiftOf;
    KnownTo12();
    FirstRows();
    KnownA(12, 0x854b3712, 0x5ed49596, 0x3020401c, 0x74e2f284,
           0x30226214, 0, 0x6b901122, 7, 0x20fdaa48, 0xdda9b9a6);
    KnownD(13, 0xdda9b9a6, 0x5ed49596, 0x3020401c, 0x74e2f284,
           0x7c80d19e, 0, 0xfd987193, 12, 0xeefc35b5, 0xa1051895);
    KnownC(14, 0xdda9b9a6, 0x5ed49596, 0x3020401c, 0xa1051895,
           0xdfd19d86, 0x00000018, 0xa679438e, 17, 0xb66b2148, 0xe396856b);
    KnownB(15, 0xdda9b9a6, 0x5ed49596, 0xe396856b, 0xa1051895,
           0xbd2d3885, 0, 0x49b40821, 22, 0x65b5d63c, 0x72aff2e0);
  }

  lemma KnownTo20()
    ensures Steps(START, ABC, 20) == State(0x3e9e9126, 0xb5b204e4, 0xe25e1652, 0x4a1d804e)
  {
    hide Steps, T, WordIndex, ShiftOf;
    KnownTo16();
    SecondRows();
    KnownA(16, 0xdda9b9a6, 0x72aff2e0, 0xe396856b, 0xa1051895,
           0x629795ea, 0, 0xf61e2562, 5, 0x365f74f2, 0x3e9e9126);
    KnownD(17, 0x3e9e9126, 0x72aff2e0, 0xe396856b, 0xa1051895,
           0x32bff3a2, 0, 0xc040b340, 9, 0x9405bf77, 0x4a1d804e);
    KnownC(18, 0x3e9e9126, 0x72aff2e0, 0xe396856b, 0x4a1d804e,
           0x4e1d8146, 0, 0x265e5a51, 14, 0x58126102, 0xe25e1652);
    KnownB(19, 0x3e9e9126, 0x72aff2e0, 0xe25e1652, 0x4a1d804e,
           0x621f104a, 0x80636261, 0xe9b6c7aa, 20, 0x3ee92d35, 0xb5b204e4);
  }

  lemma KnownTo24()
    ensures Steps(START, ABC, 24) == State(0x59a8ffda, 0x47092c07, 0xabfc7920, 0x6d002f1e)
  {
    hide Steps, T, WordIndex, ShiftOf;
    KnownTo20();
    SecondRows();
    KnownA(20, 0x3e9e9126, 0xb5b204e4, 0xe25e1652, 0x4a1d804e,
           0xa0521654, 0, 0xd62f105d, 5, 0xb51fb7d7, 0x59a8ffda);
    KnownD(21, 0x59a8ffda, 0xb5b204e4, 0xe25e1652, 0x4a1d804e,
           0x55a816f6, 0, 0x02441453, 9, 0xa209ab97, 0x6d002f1e);
    KnownC(22, 0x59a8ffda, 0xb5b204e4, 0xe25e1652, 0x6d002f1e,
           0x6d08ff1e, 0, 0xd8a1e681, 14, 0x2808fbf1, 0xabfc7920);
    KnownB(23, 0x59a8ffda, 0xb5b204e4, 0xabfc7920, 0x6d002f1e,
           0x2da87904, 0, 0xe7d3fbc8, 20, 0xcb2e79b0, 0x47092c07);
  }

  lemma KnownTo28()
    ensures Steps(START, ABC, 28) == State(0xb7f268cf, 0x786acb8f, 0xfe1623b1, 0x09388eff)
  {
    hide Steps, T, WordIndex, ShiftOf;
    KnownTo24();
    SecondRows();
    KnownA(24, 0x59a8ffda, 0x47092c07, 0xabfc7920, 0x6d002f1e,
           0xc7fc7c26, 0, 0x21e1cde6, 5, 0x438749e6, 0xb7f268cf);
    KnownD(25, 0xb7f268cf, 0x47092c07, 0xabfc7920, 0x6d002f1e,
           0xe7f16c07, 0x00000018, 0xc33707d6, 9, 0x1828a313, 0x09388eff);
    KnownC(26, 0xb7f268cf, 0x47092c07, 0xabfc7920, 0x09388eff,
           0xb1fa4ccf, 0, 0xf4d50d87, 14, 0x52cbd376, 0xfe1623b1);
    KnownB(27, 0xb7f268cf, 0x47092c07, 0xfe1623b1, 0x09388eff,
           0xbe1aa6b1, 0, 0x455a14ed, 20, 0x4a7de7a5, 0x786acb8f);
  }

  lemma KnownTo32()
    ensures Steps(START, ABC, 32) == State(0x790a77fb, 0x726342d3, 0xa62884aa, 0x9f47e4f8)
  {
    hide Steps, T, WordIndex, ShiftOf;
    KnownTo28();
    SecondRows();
    KnownA(28, 0xb7f268cf, 0x786acb8f, 0xfe1623b1, 0x09388eff,
           0xfe2eab8f, 0, 0xa9e3e905, 5, 0x6004fd63, 0x790a77fb);
    KnownD(29, 0x790a77fb, 0x786acb8f, 0xfe1623b1, 0x09388eff,
           0x786aebbf, 0, 0xfcefa3f8, 9, 0x7e931eb6, 0x9f47e4f8);
    KnownC(30, 0x790a77fb, 0x786acb8f, 0xfe1623b1, 0x9f47e4f8,
           0x1942f4f8, 0, 0x676f02d9, 14, 0x7ec81b82, 0xa62884aa);
    KnownB(31, 0x790a77fb, 0x786acb8f, 0xa62884aa, 0x9f47e4f8,
           0xa64d84aa, 0, 0x8d2a4c8a, 20, 0xabe29cc3, 0x726342d3);
  }

  lemma KnownTo36()
    ensures Steps(START, ABC, 36) == State(0xb3707ebf, 0x3b0875c7, 0x8d212ff5, 0x60127b2e)
  {
    hide Steps, T, WordIndex, ShiftOf;
    KnownTo32();
    ThirdRows();
    KnownA(32, 0x790a77fb, 0x726342d3, 0xa62884aa, 0x9f47e4f8,
           0x4b0c2281, 0, 0xfffa3942, 4, 0xc410d3be, 0xb3707ebf);
    KnownD(33, 0xb3707ebf, 0x726342d3, 0xa62884aa, 0x9f47e4f8,
           0x673bb8c6, 0, 0x8771f681, 11, 0x8df5943f, 0x60127b2e);
    KnownC(34, 0xb3707ebf, 0x726342d3, 0xa62884aa, 0x60127b2e,
           0xa1014742, 0, 0x6d9d6122, 16, 0xb4c72d0e, 0x8d212ff5);
    KnownB(35, 0xb3707ebf, 0x726342d3, 0x8d212ff5, 0x60127b2e,
           0x5e432a64, 0x00000018, 0xfde5380c, 23, 0xce8ba55b, 0x3b0875c7);
  }

  lemma KnownTo40()
    ensures Steps(START, ABC, 40) == State(0x21b117b9, 0x5a2f5ea5, 0x3575227e, 0x6e7429d5)
  {
    hide Steps, T, WordIndex, ShiftOf;
    KnownTo36();
    ThirdRows();
    KnownA(36, 0xb3707ebf, 0x3b0875c7, 0x8d212ff5, 0x60127b2e,
           0xd63b211c, 0, 0xa4beea44, 4, 0x2e6a8a1f, 0x21b117b9);
    KnownD(37, 0x21b117b9, 0x3b0875c7, 0x8d212ff5, 0x60127b2e,
           0x97984d8b, 0, 0x4bdecfa9, 11, 0x43899862, 0x6e7429d5);
    KnownC(38, 0x21b117b9, 0x3b0875c7, 0x8d212ff5, 0x6e7429d5,
           0x74cd4bab, 0, 0xf6bb4b60, 16, 0xf8a9c700, 0x3575227e);
    KnownB(39, 0x21b117b9, 0x3b0875c7, 0x3575227e, 0x6e7429d5,
           0x7ab01c12, 0, 0xbebfbc70, 23, 0x74784e49, 0x5a2f5ea5);
  }

  lemma KnownTo44()
    ensures Steps(START, ABC, 44) == State(0x11de1779, 0x4c6124f4, 0x31c465ca, 0xfadcaa38)
  {
    hide Steps, T, WordIndex, ShiftOf;
    KnownTo40();
    ThirdRows();
    KnownA(40, 0x21b117b9, 0x5a2f5ea5, 0x3575227e, 0x6e7429d5,
           0x012e550e, 0, 0x289b7ec6, 4, 0x4b7aeb8d, 0x11de1779);
    KnownD(41, 0x11de1779, 0x5a2f5ea5, 0x3575227e, 0x6e7429d5,
           0x7e846ba2, 0x80636261, 0xeaa127fa, 11, 0x57fd1fd2, 0xfadcaa38);
    KnownC(42, 0x11de1779, 0x5a2f5ea5, 0x3575227e, 0xfadcaa38,
           0xb12de3e4, 0, 0xd4ef3085, 16, 0xbb9236e7, 0x31c465ca);
    KnownB(43, 0x11de1779, 0x5a2f5ea5, 0x31c465ca, 0xfadcaa38,
           0xdac6d88b, 0, 0x04881d05, 23, 0x397e5435, 0x4c6124f4);
  }

  lemma KnownTo48()
    ensures Steps(START, ABC, 48) == State(0x7f2e507b, 0x7beb9700, 0x8fae6399, 0x99d9679d)
  {
    hide Steps, T, WordIndex, ShiftOf;
    KnownTo44();
    ThirdRows();
    KnownA(44, 0x11de1779, 0x4c6124f4, 0x31c465ca, 0xfadcaa38,
           0x8779eb06, 0, 0xd9d4d039, 4, 0x732cd2b8, 0x7f2e507b);
    KnownD(45, 0x7f2e507b, 0x4c6124f4, 0x31c465ca, 0xfadcaa38,
           0x028b1145, 0, 0xe6db99e5, 11, 0xe4435562, 0x99d9679d);
    KnownC(46, 0x7f2e507b, 0x4c6124f4, 0x31c465ca, 0x99d9679d,
           0xaa961312, 0, 0x1fa27cf8, 16, 0xfbfcf5d4, 0x8fae6399);
    KnownB(47, 0x7f2e507b, 0x4c6124f4, 0x8fae6399, 0x99d9679d,
           0x6959547f, 0, 0xc4ac5665, 23, 0x7a66cfd8, 0x7beb9700);
  }

  lemma KnownTo52()
    ensures Steps(START, ABC, 52) == State(0x7b201df8, 0x8bf025c4, 0xb298cefd, 0xf4e8e96e)
  {
    hide Steps, T, WordIndex, ShiftOf;
    KnownTo48();
    FourthRows();
    KnownA(48, 0x7f2e507b, 0x7beb9700, 0x8fae6399, 0x99d9679d,
           0xf041fcfb, 0x80636261, 0xf4292244, 6, 0xe3fcd21b, 0x7b201df8);
    KnownD(49, 0x7b201df8, 0x7beb9700, 0x8fae6399, 0x99d9679d,
           0x009a0afe, 0, 0x432aff97, 10, 0xdd9e7232, 0xf4e8e96e);
    KnownC(50, 0x7b201df8, 0x7beb9700, 0x8fae6399, 0xf4e8e96e,
           0x8fdcf407, 0x00000018, 0xab9423a7, 15, 0xcb1f7b5f, 0xb298cefd);
    KnownB(51, 0x7b201df8, 0x7beb9700, 0xb298cefd, 0xf4e8e96e,
           0x42370791, 0, 0xfc93a039, 21, 0xbab63eca, 0x8bf025c4);
  }

  lemma KnownTo56()
    ensures Steps(START, ABC, 56) == State(0x06cc5e8a, 0x3bfa2c27, 0x7d632dd0, 0x5b0d97aa)
  {
    hide Steps, T, WordIndex, ShiftOf;
    KnownTo52();
    FourthRows();
    KnownA(52, 0x7b201df8, 0x8bf025c4, 0xb298cefd, 0xf4e8e96e,
           0x396ff928, 0, 0x655b59c3, 6, 0x19eb70e3, 0x06cc5e8a);
    KnownD(53, 0x06cc5e8a, 0x8bf025c4, 0xb298cefd, 0xf4e8e96e,
           0xc41f5a4e, 0, 0x8f0ccc92, 10, 0x4815104e, 0x5b0d97aa);
    KnownC(54, 0x06cc5e8a, 0x8bf025c4, 0xb298cefd, 0x5b0d97aa,
           0x79c38131, 0, 0xffeff47d, 15, 0x2c4c44ab, 0x7d632dd0);
    KnownB(55, 0x06cc5e8a, 0x8bf025c4, 0x7d632dd0, 0x5b0d97aa,
           0xa67e3a5f, 0, 0x85845dd1, 21, 0xb7f2bdf4, 0x3bfa2c27);
  }

  lemma KnownTo60()
    ensures Steps(START, ABC, 60) == State(0x7f81cc35, 0x7327d604, 0x4f9dbe3f, 0x094454ab)
  {
    hide Steps, T, WordIndex, ShiftOf;
    KnownTo56();
    FourthRows();
    KnownA(56, 0x06cc5e8a, 0x3bfa2c27, 0x7d632dd0, 0x5b0d97aa,
           0xc29941a7, 0, 0x6fa87e4f, 6, 0x390e1e80, 0x7f81cc35);
    KnownD(57, 0x7f81cc35, 0x3bfa2c27, 0x7d632dd0, 0x5b0d97aa,
           0xc467f218, 0, 0xfe2ce6e0, 10, 0x1da270a2, 0x094454ab);
    KnownC(58, 0x7f81cc35, 0x3bfa2c27, 0x7d632dd0, 0x094454ab,
           0xb2c41bce, 0, 0xa3014314, 15, 0xd3288cb2, 0x4f9dbe3f);
    KnownB(59, 0x7f81cc35, 0x3bfa2c27, 0x4f9dbe3f, 0x094454ab,
           0xc6bbeb54, 0, 0x4e0811a1, 21, 0x50be291c, 0x7327d604);
  }

  lemma KnownTo64()
    ensures Steps(START, ABC, 64) == State(0x310ade8f, 0xc08226b3, 0xe484b9d8, 0x624d8cb2)
  {
    hide Steps, T, WordIndex, ShiftOf;
    KnownTo60();
    FourthRows();
    KnownA(60, 0x7f81cc35, 0x7327d604, 0x4f9dbe3f, 0x094454ab,
           0xb822416b, 0, 0xf7537e82, 6, 0x2ef78c22, 0x310ade8f);
    KnownD(61, 0x310ade8f, 0x7327d604, 0x4f9dbe3f, 0x094454ab,
           0xc24d09cb, 0, 0xbd3af235, 10, 0x88cc50ab, 0x624d8cb2);
    KnownC(62, 0x310ade8f, 0x7327d604, 0x4f9dbe3f, 0x624d8cb2,
           0xdfd77374, 0, 0x2ad7d2bb, 15, 0x5a4d046e, 0xe484b9d8);
    KnownB(63, 0x310ade8f, 0x7327d604, 0xe484b9d8, 0x624d8cb2,
           0x8cb8354a, 0, 0xeb86d391, 21, 0xeb66dedf, 0xc08226b3);
  }

  /** 900150983cd24fb0d6963f7d28e17f72 */
  const ABC_DIGEST: seq<Byte> :=
    [0x90, 0x01, 0x50, 0x98, 0x3c, 0xd2, 0x4f, 0xb0,
     0xd6, 0x96, 0x3f, 0x7d, 0x28, 0xe1, 0x7f, 0x72]

  lemma SmallByte(n: int, b: Byte)
    requires 0 <= n < 0x100 && ByteNum(b) == n
    ensures ByteOf(n) == b
  {
    hide ByteNum, ByteOf;
    ByteNumInjective(ByteOf(n), b);
  }

  lemma SmallBytes(n: Uint32, b: Byte)
    requires n < 0x100 && ByteOf(n) == b && ByteOf(0) == 0
    ensures BytesOf(n) == [b, 0, 0, 0]
  {
    hide ByteOf, ByteNum;
  }

  lemma ZeroAndLength()
    ensures ByteOf(0) == 0 && ByteOf(24) == 0x18
  {
    hide ByteOf;
    SmallByte(0, 0);
    SmallByte(24, 0x18);
  }

  lemma LengthOfAbc()
    ensures LengthField(3) == [0x18, 0, 0, 0, 0, 0, 0, 0]
  {
    hide BytesOf, ByteOf, ByteNum;
    ZeroAndLength();
    SmallBytes(24, 0x18);
    SmallBytes(0, 0);
  }

  lemma PaddedAbc()
    ensures Pad([0x61, 0x62, 0x63]) == [0x61, 0x62, 0x63, 0x80] + seq(52, _ => 0 as Byte) + [0x18, 0, 0, 0, 0, 0, 0, 0]
  {
    hide LengthField;
    LengthOfAbc();
    assert ZerosNeeded(3) == 52;
  }

  lemma ZeroWord(b: seq<Byte>)
    requires b == [0, 0, 0, 0]
    ensures FromLE(b) == 0
  {
  }

  lemma RestOfAbc(k: nat)
    requires 0 < k < 16 && k != 14
    ensures ABC[k] == 0
  {
  }

  lemma EndWords()
    ensures FromLE([0x61, 0x62, 0x63, 0x80]) == 0x80636261 && FromLE([0x18, 0, 0, 0]) == 0x18
  {
  }

  lemma WordsOfAbc()
    ensures BlockWords([0x61, 0x62, 0x63, 0x80] + seq(52, _ => 0 as Byte) + [0x18, 0, 0, 0, 0, 0, 0, 0]) == ABC
  {
    hide FromLE;
    var block: seq<Byte> := [0x61, 0x62, 0x63, 0x80] + seq(52, _ => 0 as Byte) + [0x18, 0, 0, 0, 0, 0, 0, 0];
    var words := BlockWords(block);
    assert block[0..4] == [0x61, 0x62, 0x63, 0x80] && block[56..60] == [0x18, 0, 0, 0];
    EndWords();
    forall k | 0 < k < 16 && k != 14 ensures words[k] == ABC[k] {
      assert block[4 * k..4 * k + 4] == [0, 0, 0, 0];
      ZeroWord(block[4 * k..4 * k + 4]);
      RestOfAbc(k);
    }
  }

  lemma InitialIsStart()
    ensures INITIAL == START
  {
  }

  lemma KnownCompress()
    ensures Compress(START, ABC) == State(0x98500190, 0xb04fd23c, 0x7d3f96d6, 0x727fe128)
  {
    hide Steps, Add;
    KnownTo64();
    KnownSum(0x67452301, 0x310ade8f, 0x98500190);
    KnownSum(0xefcdab89, 0xc08226b3, 0xb04fd23c);
    KnownSum(0x98badcfe, 0xe484b9d8, 0x7d3f96d6);
    KnownSum(0x10325476, 0x624d8cb2, 0x727fe128);
  }

  lemma KnownOutput()
    ensures Output(State(0x98500190, 0xb04fd23c, 0x7d3f96d6, 0x727fe128)) == ABC_DIGEST
  {
  }

  lemma OneBlock(data: seq<Byte>)
    requires |data| == 64
    ensures Chain(data) == Compress(INITIAL, BlockWords(data))
  {
    hide Compress, BlockWords;
    assert data[..0] == [] && data[0..] == data;
    assert Chain(data[..|data| - 64]) == INITIAL;
  }

  /** RFC 1321 section A.5: MD5 ("abc") = 900150983cd24fb0d6963f7d28e17f72. */
  lemma DigestOfAbc()
    ensures Digest([0x61, 0x62, 0x63]) == ABC_DIGEST
  {
    hide Pad, Chain, Compress, BlockWords, Output;
    PaddedAbc();
    OneBlock(Pad([0x61, 0x62, 0x63]));
    WordsOfAbc();
    InitialIsStart();
    KnownCompress();
    KnownOutput();
  }
}
