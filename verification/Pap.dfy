/**
 * The password hiding of http_main.c: the challenge is converted from hexadecimal
 * in place, hashed with the shared secret, overwritten with the digest, and the
 * digest is repeated over the password.
 */
module Pap {
  import opened Words
  import opened Hex
  import Rfc1321
  import Md5
  import Md5Memory
  import Md5Transform

  const RADIUS_PWSIZE := 128
  const MD5LEN := 16
  const BUFFER_SIZE := 512

  /** XOR with the digest repeated as often as needed. */
  function Hide(text: seq<Byte>, digest: seq<Byte>): (r: seq<Byte>)
    requires |digest| == 16
    ensures |r| == |text|
    ensures forall i :: 0 <= i < |text| ==> r[i] == text[i] ^ digest[i % 16]
  {
    seq(|text|, i requires 0 <= i < |text| => text[i] ^ digest[i % 16])
  }

  /**
   * What the challenge buffer holds after the conversion: the bytes of the pairs before the
   * first one that does not convert, and beyond them whatever was there.
   */
  function ConvertedChallenge(challenge: seq<Byte>): (c: seq<Byte>)
    requires 2 * MD5LEN <= |challenge|
    ensures |c| == |challenge|
    ensures c[MD5LEN..] == challenge[MD5LEN..]
  {
    var n := Converted(challenge, MD5LEN);
    Unhex(challenge, n) + challenge[n..]
  }

  /** The digest that hides the password, for the challenge text and the secret. */
  function HidingDigest(challenge: seq<Byte>, secret: seq<Byte>): (d: seq<Byte>)
    requires 2 * MD5LEN <= |challenge|
    ensures |d| == 16
  {
    Rfc1321.Digest(ConvertedChallenge(challenge)[..MD5LEN] + secret)
  }

  /** The first m bytes have been hidden. */
  ghost predicate HiddenUpTo(text: seq<Byte>, digest: seq<Byte>, out: seq<Byte>, m: nat) {
    m <= |text| && m <= |out| && |digest| == 16 && forall i :: 0 <= i < m ==> out[i] == text[i] ^ digest[i % 16]
  }

  lemma HiddenMore(text: seq<Byte>, digest: seq<Byte>, out: seq<Byte>, start: nat, n: nat)
    requires start % 16 == 0 && n < 16 && start + n < |text| && start + n < |out|
    requires HiddenUpTo(text, digest, out, start + n)
    ensures HiddenUpTo(text, digest, out[start + n := text[start + n] ^ digest[n]], start + n + 1)
  {
    assert (start + n) % 16 == n;
  }

  /** XORs one block of the padded password with the digest. */
  method HideBlock(p: array<Byte>, digest: array<Byte>, userPassword: array<Byte>, start: nat) returns (m: nat)
    requires start % 16 == 0 && start + 16 <= p.Length == userPassword.Length
    requires digest.Length >= 16 && userPassword != digest && userPassword != p
    requires HiddenUpTo(p[..], digest[..16], userPassword[..], start)
    modifies userPassword
    ensures m == start + 16 && HiddenUpTo(p[..], digest[..16], userPassword[..], m)
  {
    hide HiddenUpTo;
    m := start;
    var n := 0;
    while n < 16
      invariant 0 <= n <= 16 && m == start + n
      invariant HiddenUpTo(p[..], digest[..16], userPassword[..], m)
    {
      HiddenMore(p[..], digest[..16], userPassword[..], start, n);
      userPassword[m] := p[m] ^ digest[n];
      m, n := m + 1, n + 1;
    }
  }

  lemma HiddenIsHide(text: seq<Byte>, digest: seq<Byte>, out: seq<Byte>, m: nat, plen: nat)
    requires HiddenUpTo(text, digest, out, m) && plen <= m
    ensures out[..plen] == Hide(text[..plen], digest)
  {
  }

  /** XORs the padded password with the digest, block by block. */
  method HideBlocks(p: array<Byte>, digest: array<Byte>, userPassword: array<Byte>, plen: nat)
    requires plen <= RADIUS_PWSIZE && p.Length == userPassword.Length == RADIUS_PWSIZE + 1
    requires digest.Length >= 16 && userPassword != digest && userPassword != p
    modifies userPassword
    ensures userPassword[..plen] == Hide(p[..plen], digest[..16])
  {
    var m := 0;
    while m < plen
      invariant 0 <= m <= RADIUS_PWSIZE && m % 16 == 0
      invariant HiddenUpTo(p[..], digest[..16], userPassword[..], m)
    {
      m := HideBlock(p, digest, userPassword, m);
    }
    HiddenIsHide(p[..], digest[..16], userPassword[..], m, plen);
    assert p[..][..plen] == p[..plen] && userPassword[..][..plen] == userPassword[..plen];
  }

  /** Copies the challenge text aside and converts it back into the challenge buffer itself. */
  method ConvertInPlace(buffer: array<Byte>, challenge: array<Byte>, length: nat)
    requires 2 * MD5LEN <= length <= BUFFER_SIZE && length <= challenge.Length
    requires buffer.Length == BUFFER_SIZE && buffer != challenge
    modifies buffer, challenge
    ensures challenge[..] == ConvertedChallenge(old(challenge[..length])) + old(challenge[length..])
  {
    hide Converted, Unhex;
    ghost var before, text := challenge[..], challenge[..length];
    forall i | 0 <= i < length {
      buffer[i] := challenge[i];
    }
    assert buffer[..length] == text;
    assert challenge[..] == before;
    var _ := HexToChar(buffer[..length], challenge, MD5LEN);
    ghost var n := Converted(text, MD5LEN);
    assert challenge[..] == Unhex(text, n) + before[n..];
    assert before[n..] == text[n..] + before[length..];
  }

  /** Hashes the first 16 bytes of the challenge and the secret; the digest replaces those bytes. */
  method HashInPlace(order: ByteOrder, secret: seq<Byte>, challenge: array<Byte>)
    requires |secret| < Rfc1321.TWO_TO_64 && MD5LEN <= challenge.Length
    modifies challenge
    ensures challenge[..] == Rfc1321.Digest(old(challenge[..MD5LEN]) + secret) + old(challenge[MD5LEN..])
  {
    hide Rfc1321.Digest, Md5.Buffered, Md5Memory.Counts, Md5Transform.StateOf;
    var context := new Md5.Md5Context(order);
    context.Init();
    context.Update(challenge[..MD5LEN]);
    context.Update(secret);
    assert context.message == old(challenge[..MD5LEN]) + secret;
    context.Final(challenge);
  }

  /** XORs the password with the digest and prints the result. */
  method HideAndPrint(password: seq<Byte>, challenge: array<Byte>, buffer: array<Byte>)
    requires |password| <= RADIUS_PWSIZE && MD5LEN <= challenge.Length && buffer.Length == BUFFER_SIZE
    modifies buffer
    ensures buffer[..2 * |password| + 1] == ToHex(Hide(password, old(challenge[..MD5LEN]))) + [0]
  {
    hide ToHex, Hide;
    ghost var digest := challenge[..MD5LEN];
    var p := new Byte[RADIUS_PWSIZE + 1](i => 0);
    forall i | 0 <= i < |password| {
      p[i] := password[i];
    }
    assert p[..|password|] == password;
    var userPassword := new Byte[RADIUS_PWSIZE + 1];
    HideBlocks(p, challenge, userPassword, |password|);
    assert challenge[..MD5LEN] == digest;
    assert userPassword[..][..|password|] == userPassword[..|password|];
    CharToHex(userPassword[..], buffer, |password|);
    assert buffer[..2 * |password| + 1] == buffer[..][..2 * |password| + 1];
  }

  /**
   * challenge is a C string of at least 32 characters in its buffer; the result is a C string in a new
   * buffer, and the digest is left in the first 16 bytes of the challenge buffer.
   */
  method EncodePapPassword(order: ByteOrder, password: seq<Byte>, uamSecret: seq<Byte>, challenge: array<Byte>,
                           length: nat)
    returns (buffer: array<Byte>)
    requires |password| <= RADIUS_PWSIZE
    requires |uamSecret| < Rfc1321.TWO_TO_64
    requires 2 * MD5LEN <= length <= BUFFER_SIZE && length <= challenge.Length
    modifies challenge
    ensures fresh(buffer) && buffer.Length == BUFFER_SIZE
    ensures challenge[..] == HidingDigest(old(challenge[..length]), uamSecret) + old(challenge[MD5LEN..])
    ensures buffer[..2 * |password| + 1]
            == ToHex(Hide(password, HidingDigest(old(challenge[..length]), uamSecret))) + [0]
  {
    hide ConvertedChallenge, Hide, ToHex, Rfc1321.Digest;
    buffer := new Byte[BUFFER_SIZE];
    ghost var converted := ConvertedChallenge(challenge[..length]);
    ConvertInPlace(buffer, challenge, length);
    assert challenge[..MD5LEN] == converted[..MD5LEN];
    assert challenge[MD5LEN..] == old(challenge[MD5LEN..length]) + old(challenge[length..]) == old(challenge[MD5LEN..]);
    HashInPlace(order, uamSecret, challenge);
    HideAndPrint(password, challenge, buffer);
  }

  // ------------------------------------------------------------ what it is for

  lemma XorTwice(a: Byte, b: Byte)
    ensures (a ^ b) ^ b == a
  {
  }

  /** Hiding twice with one digest gives the text back. */
  lemma HideInvolutive(text: seq<Byte>, digest: seq<Byte>)
    requires |digest| == 16
    ensures Hide(Hide(text, digest), digest) == text
  {
    var hidden := Hide(text, digest);
    forall i | 0 <= i < |text|
      ensures Hide(hidden, digest)[i] == text[i]
    {
      XorTwice(text[i], digest[i % 16]);
    }
  }

  /** Two passwords are hidden alike only if they are the same. */
  lemma HideInjective(p: seq<Byte>, q: seq<Byte>, digest: seq<Byte>)
    requires |digest| == 16 && Hide(p, digest) == Hide(q, digest)
    ensures p == q
  {
    HideInvolutive(p, digest);
    HideInvolutive(q, digest);
  }

  /**
   * Whoever knows the secret and the challenge recovers the password: for a challenge of hexadecimal digits
   * the digest is that of its 16 bytes and the secret, the printed text is lower-case hexadecimal of twice the
   * length, and reading it back and hiding again returns the password.
   */
  lemma PasswordRecovered(password: seq<Byte>, secret: seq<Byte>, challenge: seq<Byte>)
    requires 2 * MD5LEN <= |challenge|
    requires forall j :: 0 <= j < 2 * MD5LEN ==> IsHexDigit(challenge[j])
    ensures Converted(challenge, MD5LEN) == MD5LEN
    ensures HidingDigest(challenge, secret) == Rfc1321.Digest(Unhex(challenge, MD5LEN) + secret)
    ensures var digest := HidingDigest(challenge, secret); var printed := ToHex(Hide(password, digest));
            && |printed| == 2 * |password|
            && (forall j: nat :: j < 2 * |password| ==> IsLowerHexDigit(printed[j]))
            && Converted(printed, |password|) == |password|
            && Hide(Unhex(printed, |password|), digest) == password
  {
    hide Converted, Unhex, Hide, ToHex, IsHexDigit, IsLowerHexDigit, Rfc1321.Digest;
    DigitsConvert(challenge, MD5LEN);
    assert ConvertedChallenge(challenge)[..MD5LEN] == Unhex(challenge, MD5LEN);
    var digest := HidingDigest(challenge, secret);
    UnhexToHex(Hide(password, digest), |password|);
    HideInvolutive(password, digest);
  }
}
