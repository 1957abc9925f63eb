/** The hexadecimal conversions of http_main.c, on bytes. */
module Hex {
  import opened Wrappers
  import opened Words

  // ------------------------------------------------------------------- digits

  predicate IsHexDigit(c: Byte) {
    0x30 <= c <= 0x39 || 0x41 <= c <= 0x46 || 0x61 <= c <= 0x66
  }

  predicate IsLowerHexDigit(c: Byte) {
    0x30 <= c <= 0x39 || 0x61 <= c <= 0x66
  }

  function DigitValue(c: Byte): (v: Byte)
    requires IsHexDigit(c)
    ensures v < 16
  {
    if c <= 0x39 then c - 0x30 else if c <= 0x46 then c - 0x37 else c - 0x57
  }

  function LowerDigit(v: Byte): (c: Byte)
    requires v < 16
    ensures IsLowerHexDigit(c) && DigitValue(c) == v
  {
    if v < 10 then v + 0x30 else v + 0x57
  }

  // -------------------------------------------------------- scanning one pair

  /**
   * sscanf(x, "%2x", &y) on the string x of at most two characters: skip white
   * space, then an optional sign and hexadecimal digits.  "0x" alone is no number.
   * The result is what the cast of y to unsigned char keeps.
   */
  function ScanPair(x0: Byte, x1: Byte): Option<Byte> {
    if IsHexDigit(x0) then
      if IsHexDigit(x1) then Some((DigitValue(x0) << 4) | DigitValue(x1))
      else if x0 == 0x30 && (x1 == 0x78 || x1 == 0x58) then None
      else Some(DigitValue(x0))
    else if !IsHexDigit(x1) then None
    else if x0 == 0x20 || 0x09 <= x0 <= 0x0d || x0 == 0x2b then Some(DigitValue(x1))
    else if x0 == 0x2d then Some(0 - DigitValue(x1))
    else None
  }

  /** The k-th pair of a text. */
  function PairAt(src: seq<Byte>, k: nat): Option<Byte>
    requires 2 * k + 1 < |src|
  {
    ScanPair(src[2 * k], src[2 * k + 1])
  }

  /** How many of the first len pairs convert before one does not. */
  function Converted(src: seq<Byte>, len: nat): (n: nat)
    requires 2 * len <= |src|
    ensures n <= len
    ensures forall k: nat :: k < n ==> PairAt(src, k).Some?
    ensures n < len ==> PairAt(src, n).None?
  {
    if len == 0 then 0
    else
      var n := Converted(src, len - 1);
      if n == len - 1 && PairAt(src, n).Some? then len else n
  }

  /** The bytes of the first n pairs, all of which convert. */
  function Unhex(src: seq<Byte>, n: nat): (b: seq<Byte>)
    requires 2 * n <= |src|
    requires forall k: nat :: k < n ==> PairAt(src, k).Some?
    ensures |b| == n
    ensures forall k: nat :: k < n ==> b[k] == PairAt(src, k).value
  {
    seq(n, k requires 0 <= k < n => PairAt(src, k).value)
  }

  lemma ConvertedUnique(src: seq<Byte>, len: nat, n: nat)
    requires 2 * len <= |src| && n <= len
    requires forall k: nat :: k < n ==> PairAt(src, k).Some?
    requires n < len ==> PairAt(src, n).None?
    ensures Converted(src, len) == n
  {
    hide ScanPair, PairAt;
  }

  /** Converts pairs into dst until one fails; what was converted before stays in dst. */
  method HexToChar(src: seq<Byte>, dst: array<Byte>, len: nat) returns (rc: int)
    requires 2 * len <= |src| && len <= dst.Length
    modifies dst
    ensures rc == if Converted(src, len) == len then 0 else -1
    ensures dst[..] == Unhex(src, Converted(src, len)) + old(dst[Converted(src, len)..])
  {
    hide ScanPair, PairAt;
    var n := 0;
    while n < len
      invariant 0 <= n <= len
      invariant forall k: nat :: k < n ==> PairAt(src, k).Some? && dst[k] == PairAt(src, k).value
      invariant forall k: nat :: n <= k < dst.Length ==> dst[k] == old(dst[k])
    {
      match PairAt(src, n) {
        case None =>
          ConvertedUnique(src, len, n);
          return -1;
        case Some(y) =>
          dst[n] := y;
          n := n + 1;
      }
    }
    ConvertedUnique(src, len, n);
    rc := 0;
  }

  // ----------------------------------------------------------------- printing

  /** sprintf(x, "%.2x", b) */
  function PrintPair(b: Byte): (x: seq<Byte>)
    ensures |x| == 2
    ensures IsLowerHexDigit(x[0]) && IsLowerHexDigit(x[1])
    ensures ScanPair(x[0], x[1]) == Some(b)
  {
    [LowerDigit(b >> 4), LowerDigit(b & 0x0f)]
  }

  function ToHex(bytes: seq<Byte>): (h: seq<Byte>)
    ensures |h| == 2 * |bytes|
  {
    if bytes == [] then [] else ToHex(bytes[..|bytes| - 1]) + PrintPair(bytes[|bytes| - 1])
  }

  lemma {:induction false} ToHexAt(bytes: seq<Byte>, k: nat)
    requires k < |bytes|
    ensures ToHex(bytes)[2 * k..2 * k + 2] == PrintPair(bytes[k])
  {
    hide PrintPair;
    var n := |bytes| - 1;
    if k < n {
      ToHexAt(bytes[..n], k);
      assert ToHex(bytes)[..2 * n] == ToHex(bytes[..n]);
      assert ToHex(bytes)[2 * k..2 * k + 2] == ToHex(bytes)[..2 * n][2 * k..2 * k + 2];
    }
  }

  lemma ToHexMore(src: seq<Byte>, n: nat)
    requires n < |src|
    ensures ToHex(src[..n + 1]) == ToHex(src[..n]) + PrintPair(src[n])
  {
    hide PrintPair;
    assert src[..n + 1][..n] == src[..n];
  }

  lemma EmptyToHex()
    ensures ToHex([]) == []
  {
  }

  method CharToHex(src: seq<Byte>, dst: array<Byte>, len: nat)
    requires len <= |src| && 2 * len < dst.Length
    modifies dst
    ensures dst[..] == ToHex(src[..len]) + [0] + old(dst[2 * len + 1..])
  {
    hide PrintPair, ToHex;
    var n := 0;
    EmptyToHex();
    assert src[..0] == [];
    while n < len
      invariant 0 <= n <= len
      invariant dst[..2 * n] == ToHex(src[..n])
      invariant dst[2 * n..] == old(dst[2 * n..])
    {
      var x := PrintPair(src[n]);
      ghost var done, rest := dst[..2 * n], dst[2 * n + 2..];
      assert rest == old(dst[2 * n..])[2..] == old(dst[2 * (n + 1)..]);
      dst[2 * n], dst[2 * n + 1] := x[0], x[1];
      assert dst[..2 * (n + 1)] == done + x && dst[2 * (n + 1)..] == rest;
      ToHexMore(src, n);
      n := n + 1;
    }
    dst[2 * len] := 0;
    assert dst[..2 * len] == ToHex(src[..len]);
  }

  /** Hexadecimal text is lower case and reads back as the bytes it was printed from. */
  lemma UnhexToHex(bytes: seq<Byte>, len: nat)
    requires len == |bytes|
    ensures forall j: nat :: j < 2 * len ==> IsLowerHexDigit(ToHex(bytes)[j])
    ensures Converted(ToHex(bytes), len) == len
    ensures Unhex(ToHex(bytes), len) == bytes
  {
    hide ScanPair, ToHex, PrintPair;
    var h := ToHex(bytes);
    forall k: nat | k < len
      ensures PairAt(h, k) == Some(bytes[k])
    {
      ToHexAt(bytes, k);
      assert h[2 * k..2 * k + 2] == [h[2 * k], h[2 * k + 1]];
    }
    ConvertedUnique(h, len, len);
    forall j: nat | j < 2 * len
      ensures IsLowerHexDigit(h[j])
    {
      ToHexAt(bytes, j / 2);
      assert h[j] == h[2 * (j / 2)..2 * (j / 2) + 2][j % 2];
    }
  }

  /** Two hexadecimal digits make the byte that prints as their lower-case forms. */
  lemma PairOfDigits(x0: Byte, x1: Byte)
    requires IsHexDigit(x0) && IsHexDigit(x1)
    ensures ScanPair(x0, x1).Some?
    ensures PrintPair(ScanPair(x0, x1).value) == [LowerDigit(DigitValue(x0)), LowerDigit(DigitValue(x1))]
  {
  }

  /** A text of hexadecimal digits converts completely. */
  lemma DigitsConvert(src: seq<Byte>, len: nat)
    requires 2 * len <= |src|
    requires forall j :: 0 <= j < 2 * len ==> IsHexDigit(src[j])
    ensures Converted(src, len) == len
  {
    hide ScanPair, IsHexDigit;
    forall k: nat | k < len
      ensures PairAt(src, k).Some?
    {
      PairOfDigits(src[2 * k], src[2 * k + 1]);
    }
    ConvertedUnique(src, len, len);
  }

  // ------------------------------------------------------------- the digits as numbers

  const LOWER := "0123456789abcdef"

  const UPPER := "0123456789ABCDEF"

  /** The byte is the character code of the digit of value i, in either case. */
  predicate IsDigitOf(x: Byte, i: nat) {
    i < 16 && (ByteNum(x) == LOWER[i] as int || ByteNum(x) == UPPER[i] as int)
  }

  lemma CodeOfDigit(x: Byte, code: Byte)
    requires ByteNum(x) == ByteNum(code)
    ensures x == code
  {
    hide ByteNum;
    ByteNumInjective(x, code);
  }

  lemma DecimalDigits(x: Byte, i: nat)
    requires i < 10 && IsDigitOf(x, i)
    ensures IsHexDigit(x) && ByteNum(DigitValue(x)) == i
  {
    CodeOfDigit(x, [0x30, 0x31, 0x32, 0x33, 0x34, 0x35, 0x36, 0x37, 0x38, 0x39][i]);
  }

  lemma LetterDigits(x: Byte, i: nat)
    requires 10 <= i && IsDigitOf(x, i)
    ensures IsHexDigit(x) && ByteNum(DigitValue(x)) == i
  {
    if ByteNum(x) == LOWER[i] as int {
      CodeOfDigit(x, [0x61, 0x62, 0x63, 0x64, 0x65, 0x66][i - 10]);
    } else {
      CodeOfDigit(x, [0x41, 0x42, 0x43, 0x44, 0x45, 0x46][i - 10]);
    }
  }

  lemma NibblesJoin(a: Byte, b: Byte)
    requires a < 16 && b < 16
    ensures ByteNum((a << 4) | b) == 16 * ByteNum(a) + ByteNum(b)
  {
  }

  lemma DigitInRange(x: Byte, i: nat)
    requires IsDigitOf(x, i)
    ensures i < 16
  {
  }

  lemma DigitIs(x: Byte, i: nat)
    requires IsDigitOf(x, i)
    ensures IsHexDigit(x) && ByteNum(DigitValue(x)) == i
  {
    hide IsHexDigit, DigitValue, IsDigitOf;
    DigitInRange(x, i);
    if i < 10 {
      DecimalDigits(x, i);
    } else {
      LetterDigits(x, i);
    }
  }

  lemma ScanOfDigits(x0: Byte, x1: Byte)
    requires IsHexDigit(x0) && IsHexDigit(x1)
    ensures ScanPair(x0, x1) == Some((DigitValue(x0) << 4) | DigitValue(x1))
  {
    hide IsHexDigit, DigitValue;
  }

  /** Two digits, in either case, are scanned as the number they write. */
  lemma PairIsNumber(x0: Byte, x1: Byte, i: nat, j: nat)
    requires IsDigitOf(x0, i) && IsDigitOf(x1, j)
    ensures ScanPair(x0, x1).Some? && ByteNum(ScanPair(x0, x1).value) == 16 * i + j
  {
    hide IsHexDigit, DigitValue, IsDigitOf, ScanPair, ByteNum;
    DigitIs(x0, i);
    DigitIs(x1, j);
    ScanOfDigits(x0, x1);
    NibblesJoin(DigitValue(x0), DigitValue(x1));
  }

  lemma LowerDigitIs(v: Byte, i: nat)
    requires i < 16 && ByteNum(v) == i
    ensures v < 16 && ByteNum(LowerDigit(v)) == LOWER[i] as int
  {
    var codes: seq<Byte> := [0, 1, 2, 3, 4, 5, 6, 7, 8, 9, 10, 11, 12, 13, 14, 15];
    CodeOfDigit(v, codes[i]);
  }

  lemma NibblesOf(b: Byte)
    ensures b >> 4 < 16 && b & 0x0f < 16 && ((b >> 4) << 4) | (b & 0x0f) == b
  {
  }

  lemma NibbleIsSmall(v: Byte)
    requires v < 16
    ensures ByteNum(v) < 16
  {
  }

  /** A byte is printed as the two lower-case digits of its number. */
  lemma PrintedDigits(b: Byte, i: nat, j: nat)
    requires i < 16 && j < 16 && ByteNum(b) == 16 * i + j
    ensures ByteNum(PrintPair(b)[0]) == LOWER[i] as int && ByteNum(PrintPair(b)[1]) == LOWER[j] as int
  {
    hide ByteNum, LowerDigit;
    NibblesOf(b);
    NibbleIsSmall(b >> 4);
    NibbleIsSmall(b & 0x0f);
    NibblesJoin(b >> 4, b & 0x0f);
    LowerDigitIs(b >> 4, i);
    LowerDigitIs(b & 0x0f, j);
  }

  lemma NegatedByte(v: Byte)
    ensures ByteNum(0 - v) == (256 - ByteNum(v)) % 256
  {
  }

  lemma CodeOfSign(x: Byte)
    ensures ByteNum(x) in {9, 10, 11, 12, 13, 32, 43, 45} <==> x == 0x20 || 0x09 <= x <= 0x0d || x == 0x2b || x == 0x2d
    ensures ByteNum(x) == 45 <==> x == 0x2d
  {
  }

  /** White space or a plus sign before a digit is skipped, and a minus sign turns the number round modulo 256. */
  lemma SignedDigit(x0: Byte, x1: Byte, j: nat)
    requires IsDigitOf(x1, j) && ByteNum(x0) in {9, 10, 11, 12, 13, 32, 43, 45}
    ensures ScanPair(x0, x1).Some?
    ensures ByteNum(ScanPair(x0, x1).value) == if ByteNum(x0) == 45 then (256 - j) % 256 else j
  {
    hide IsDigitOf, DigitValue;
    DigitIs(x1, j);
    DigitInRange(x1, j);
    NegatedByte(DigitValue(x1));
    CodeOfSign(x0);
  }

  /** The byte is the character code of no digit. */
  predicate IsNoDigit(x: Byte) {
    forall i: nat :: i < 16 ==> !IsDigitOf(x, i)
  }

  lemma DigitPrints(x: Byte)
    requires IsHexDigit(x) && (x <= 0x39 || 0x61 <= x)
    ensures LowerDigit(DigitValue(x)) == x
  {
  }

  lemma UpperDigitIs(x: Byte, i: nat)
    requires 0x41 <= x <= 0x46 && i < 16 && ByteNum(DigitValue(x)) == i
    ensures ByteNum(x) == UPPER[i] as int
  {
    var codes: seq<Byte> := [0, 1, 2, 3, 4, 5, 6, 7, 8, 9, 10, 11, 12, 13, 14, 15];
    CodeOfDigit(DigitValue(x), codes[i]);
  }

  lemma DigitHasValue(x: Byte)
    requires IsHexDigit(x)
    ensures exists i: nat :: i < 16 && IsDigitOf(x, i)
  {
    hide ByteNum, LowerDigit;
    var v := DigitValue(x);
    NibbleIsSmall(v);
    var i: nat := ByteNum(v);
    LowerDigitIs(v, i);
    if x <= 0x39 || 0x61 <= x {
      assert LowerDigit(v) == x by { DigitPrints(x); }
    } else {
      UpperDigitIs(x, i);
    }
    assert IsDigitOf(x, i);
  }

  lemma NoDigit(x: Byte)
    requires IsNoDigit(x)
    ensures !IsHexDigit(x)
  {
    if IsHexDigit(x) {
      DigitHasValue(x);
    }
  }

  lemma CodesOfZeroX(x0: Byte, x1: Byte)
    ensures ByteNum(x0) == 48 <==> x0 == 0x30
    ensures ByteNum(x1) == 88 <==> x1 == 0x58
    ensures ByteNum(x1) == 120 <==> x1 == 0x78
  {
  }

  /** A digit before another character is a number by itself, unless "0x" is left waiting for one. */
  lemma LoneDigit(x0: Byte, x1: Byte, i: nat)
    requires IsDigitOf(x0, i) && IsNoDigit(x1)
    ensures ScanPair(x0, x1).None? <==> ByteNum(x0) == 48 && (ByteNum(x1) == 88 || ByteNum(x1) == 120)
    ensures ScanPair(x0, x1).Some? ==> ByteNum(ScanPair(x0, x1).value) == i
  {
    hide IsHexDigit, DigitValue, IsDigitOf, IsNoDigit;
    DigitIs(x0, i);
    NoDigit(x1);
    CodesOfZeroX(x0, x1);
  }

  /** Nothing is scanned without a digit that is first or has only white space or a sign before it. */
  lemma NoNumber(x0: Byte, x1: Byte)
    requires IsNoDigit(x0) && (IsNoDigit(x1) || ByteNum(x0) !in {9, 10, 11, 12, 13, 32, 43, 45})
    ensures ScanPair(x0, x1) == None
  {
    hide IsHexDigit, DigitValue, IsDigitOf, IsNoDigit;
    NoDigit(x0);
    if IsNoDigit(x1) {
      NoDigit(x1);
    }
    CodeOfSign(x0);
  }
}
