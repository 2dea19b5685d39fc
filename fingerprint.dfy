/**
 * The fingerprint generator: `shorten` hashes a URL with MD5 and renders the
 * 16-byte sum with `{:x}`, i.e. as 32 lower-case hexadecimal characters.
 * MD5 itself is a foreign crate and enters the model as a parameter of type
 * `Md5`; the hexadecimal rendering is modelled exactly.  Candidate slugs are
 * 8-character windows of the digest.
 */
module Fingerprint {

  /** Length of a slug, and of every candidate window of the digest. */
  const SlugLen: nat := 8

  /** Number of bytes in an MD5 sum. */
  const Md5Len: nat := 16

  /** Number of characters in a rendered digest. */
  const DigestLen: nat := 2 * Md5Len

  type Md5Sum = s: seq<bv8> | |s| == Md5Len
    witness [0, 0, 0, 0, 0, 0, 0, 0, 0, 0, 0, 0, 0, 0, 0, 0]

  /** `md5::compute`, taken as given: some total function from text to a 16-byte sum. */
  type Md5 = string -> Md5Sum

  predicate IsLowerHex(c: char) {
    '0' <= c <= '9' || 'a' <= c <= 'f'
  }

  /** The character `{:x}` prints for a nibble. */
  function HexDigit(n: bv8): (c: char)
    requires n < 16
    ensures IsLowerHex(c)
    ensures HexValue(c) == n
  {
    if n < 10 then ('0' as int + n as int) as char else ('a' as int + n as int - 10) as char
  }

  /** The nibble a lower-case hexadecimal character stands for. */
  function HexValue(c: char): (n: bv8)
    requires IsLowerHex(c)
    ensures n < 16
  {
    if c <= '9' then (c as int - '0' as int) as bv8 else (c as int - 'a' as int + 10) as bv8
  }

  /** `{:x}` on a byte string: two lower-case hex digits per byte, high nibble first. */
  function Hex(b: seq<bv8>): (s: string)
    ensures |s| == 2 * |b|
    ensures forall i | 0 <= i < |s| :: IsLowerHex(s[i])
  {
    if b == [] then [] else [HexDigit(b[0] >> 4), HexDigit(b[0] & 15)] + Hex(b[1..])
  }

  /** A byte is determined by its two rendered digits. */
  lemma ByteFromNibbles(x: bv8, y: bv8)
    requires x >> 4 == y >> 4 && x & 15 == y & 15
    ensures x == y
  {
  }

  /** The first two rendered digits determine the first byte. */
  lemma HexHead(a: seq<bv8>, b: seq<bv8>)
    requires a != [] && b != []
    requires Hex(a)[0] == Hex(b)[0] && Hex(a)[1] == Hex(b)[1]
    ensures a[0] == b[0]
  {
    assert HexValue(Hex(a)[0]) == a[0] >> 4 && HexValue(Hex(b)[0]) == b[0] >> 4;
    assert HexValue(Hex(a)[1]) == a[0] & 15 && HexValue(Hex(b)[1]) == b[0] & 15;
    ByteFromNibbles(a[0], b[0]);
  }

  /** The rendering loses nothing: two sums print alike only when they are equal. */
  lemma {:induction false} HexInjective(a: seq<bv8>, b: seq<bv8>)
    requires Hex(a) == Hex(b)
    ensures a == b
  {
    if a != [] {
      assert |b| == |a|;
      HexHead(a, b);
      assert Hex(a[1..]) == Hex(a)[2..] == Hex(b)[2..] == Hex(b[1..]);
      HexInjective(a[1..], b[1..]);
      assert a == [a[0]] + a[1..];
      assert b == [b[0]] + b[1..];
    }
  }

  /** `shorten(url)`: the MD5 digest of the URL as 32 lower-case hex characters. */
  function Shorten(md5: Md5, url: string): (d: string)
    ensures |d| == DigestLen
    ensures forall i | 0 <= i < |d| :: IsLowerHex(d[i])
  {
    Hex(md5(url))
  }

  /** Two URLs get the same digest only when MD5 gives them the same sum. */
  lemma ShortenCollision(md5: Md5, u1: string, u2: string)
    requires Shorten(md5, u1) == Shorten(md5, u2)
    ensures md5(u1) == md5(u2)
  {
    HexInjective(md5(u1), md5(u2));
  }

  /** `digest[k..k + 8]`: the candidate slug at offset `k`. */
  function Window(d: string, k: nat): (w: string)
    requires k + SlugLen <= |d|
    ensures |w| == SlugLen
    ensures forall i | 0 <= i < SlugLen :: w[i] == d[k + i]
  {
    d[k..k + SlugLen]
  }
}
