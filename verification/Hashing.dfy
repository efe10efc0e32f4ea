/** The hexadecimal text of a digest (common/src/protocol.c) and the bucket index that
    common/src/hash_map.c computes from it with `strtoul(uid, NULL, 16) % hash_size`
    (ISO/IEC 9899:2011, section 7.22.1.4, with a 64-bit `unsigned long`). */
module Hashing {
  import opened Text

  const HASH_LENGTH: nat := 64
  const ULONG_MAX: nat := 0xFFFF_FFFF_FFFF_FFFF

  type Byte = b: int | 0 <= b < 256

  /** A SHA-512 digest. */
  type Digest = d: seq<Byte> | |d| == HASH_LENGTH witness seq(HASH_LENGTH, _ => 0)

  function HexDigit(d: int): (c: char)
    requires 0 <= d < 16
  {
    if d < 10 then '0' + d as char else 'a' + (d - 10) as char
  }

  predicate IsHexDigit(c: char) {
    IsDigit(c) || 'a' <= c <= 'f' || 'A' <= c <= 'F'
  }

  function HexDigitOf(c: char): (d: nat)
    requires IsHexDigit(c)
    ensures d < 16
  {
    if IsDigit(c) then DigitOf(c)
    else if 'a' <= c <= 'f' then (c - 'a') as nat + 10
    else (c - 'A') as nat + 10
  }

  predicate AllHex(s: string) {
    forall i | 0 <= i < |s| :: IsHexDigit(s[i])
  }

  /** `%02x` of each byte, in order. */
  function Hex(d: seq<Byte>): (s: string)
    ensures |s| == 2 * |d|
    ensures forall i | 0 <= i < |s| :: IsDigit(s[i]) || 'a' <= s[i] <= 'f'
  {
    if d == [] then ""
    else Hex(d[..|d| - 1]) + [HexDigit(d[|d| - 1] / 16), HexDigit(d[|d| - 1] % 16)]
  }

  predicate IsHexText(t: string) {
    |t| == 128 && forall i | 0 <= i < |t| :: IsDigit(t[i]) || 'a' <= t[i] <= 'f'
  }

  /** `hash(s)` is what get_hash prints for `s`; all that the other modules need to know about it. */
  ghost predicate IsGetHash(hash: string -> string) {
    forall s :: IsHexText(hash(s))
  }

  lemma PrintedDigests(digest: string -> Digest)
    ensures IsGetHash(s => Hex(digest(s)))
  {
    var hash := s => Hex(digest(s));
    assert forall s :: hash(s) == Hex(digest(s));
  }

  /** The printing loop of `get_hash`: two digits a byte, then the terminator. */
  method GetHash(hash: seq<Byte>, output: array<char>)
    requires 2 * |hash| < output.Length
    modifies output
    ensures output[..2 * |hash|] == Hex(hash) && output[2 * |hash|] == NUL
    ensures output[2 * |hash| + 1..] == old(output[2 * |hash| + 1..])
  {
    var i := 0;
    while i < |hash|
      invariant 0 <= i <= |hash|
      invariant output[..2 * i] == Hex(hash[..i])
      invariant output[2 * |hash| + 1..] == old(output[2 * |hash| + 1..])
    {
      output[2 * i] := HexDigit(hash[i] / 16);
      output[2 * i + 1] := HexDigit(hash[i] % 16);
      output[2 * i + 2] := NUL;
      assert hash[..i + 1][..i] == hash[..i];
      assert output[..2 * (i + 1)] == output[..2 * i] + [HexDigit(hash[i] / 16), HexDigit(hash[i] % 16)];
      i := i + 1;
    }
    assert hash[..|hash|] == hash;
    output[2 * |hash|] := NUL;
  }

  lemma HexDigitInjective(a: int, b: int)
    requires 0 <= a < 16 && 0 <= b < 16 && HexDigit(a) == HexDigit(b)
    ensures a == b
  {
    assert HexDigitOf(HexDigit(a)) == a && HexDigitOf(HexDigit(b)) == b;
  }

  lemma SameDigits(x: Byte, y: Byte)
    requires HexDigit(x / 16) == HexDigit(y / 16) && HexDigit(x % 16) == HexDigit(y % 16)
    ensures x == y
  {
    HexDigitInjective(x / 16, y / 16);
    HexDigitInjective(x % 16, y % 16);
    assert x == 16 * (x / 16) + x % 16 && y == 16 * (y / 16) + y % 16;
  }

  lemma {:induction false} HexLast(d: seq<Byte>)
    requires d != []
    ensures var n := |d| - 1;
            Hex(d)[..2 * n] == Hex(d[..n]) && Hex(d)[2 * n] == HexDigit(d[n] / 16)
                && Hex(d)[2 * n + 1] == HexDigit(d[n] % 16)
  {
  }

  /** Different digests of one length print differently, so equal uids mean equal digests. */
  lemma {:induction false} HexInjective(a: seq<Byte>, b: seq<Byte>)
    requires Hex(a) == Hex(b)
    ensures a == b
  {
    if a != [] {
      assert |a| == |b|;
      var n := |a| - 1;
      HexLast(a);
      HexLast(b);
      HexInjective(a[..n], b[..n]);
      SameDigits(a[n], b[n]);
      assert a == a[..n] + [a[n]] && b == b[..n] + [b[n]];
    }
  }

  function HexRun(s: string): (n: nat)
    ensures n <= |s| && AllHex(s[..n])
    ensures n < |s| ==> !IsHexDigit(s[n])
  {
    if s != "" && IsHexDigit(s[0]) then 1 + HexRun(s[1..]) else 0
  }

  function HexValue(s: string): nat
    requires AllHex(s)
  {
    if s == "" then 0 else 16 * HexValue(s[..|s| - 1]) + HexDigitOf(s[|s| - 1])
  }

  /** `strtoul(s, NULL, 16)`: white space, sign, `0x`, digits; it saturates at ULONG_MAX. */
  function Strtoul16(s: string): (r: nat)
    ensures r <= ULONG_MAX
  {
    var t := SkipSpace(s);
    var signed := t != "" && (t[0] == '-' || t[0] == '+');
    var u := if signed then t[1..] else t;
    var prefixed := |u| > 2 && u[0] == '0' && (u[1] == 'x' || u[1] == 'X') && IsHexDigit(u[2]);
    var v := if prefixed then u[2..] else u;
    var value := HexValue(v[..HexRun(v)]);
    if value > ULONG_MAX then ULONG_MAX
    else if signed && t[0] == '-' && value > 0 then ULONG_MAX + 1 - value
    else value
  }

  /** The index of the bucket that holds `uid`. */
  function Bucket(uid: string, hashSize: nat): (b: nat)
    requires hashSize > 0
    ensures b < hashSize
  {
    Strtoul16(uid) % hashSize
  }

  /** The digest read as one big-endian number. */
  function BigEndian(d: seq<Byte>): nat {
    if d == [] then 0 else 256 * BigEndian(d[..|d| - 1]) + d[|d| - 1]
  }

  lemma {:induction false} HexRunAll(s: string)
    requires AllHex(s)
    ensures HexRun(s) == |s|
  {
    if s != "" {
      HexRunAll(s[1..]);
    }
  }

  lemma {:induction false} HexValueOfHex(d: seq<Byte>)
    ensures HexValue(Hex(d)) == BigEndian(d)
  {
    if d != [] {
      var n := |d| - 1;
      HexValueOfHex(d[..n]);
      HexValueOfPair(Hex(d[..n]), d[n]);
    }
  }

  lemma {:induction false} HexValueOfPair(s: string, b: Byte)
    requires AllHex(s)
    ensures AllHex(s + [HexDigit(b / 16), HexDigit(b % 16)])
    ensures HexValue(s + [HexDigit(b / 16), HexDigit(b % 16)]) == 256 * HexValue(s) + b
  {
    var p := s + [HexDigit(b / 16)];
    var q := s + [HexDigit(b / 16), HexDigit(b % 16)];
    assert p[..|s|] == s && q[..|s| + 1] == p;
    assert HexDigitOf(HexDigit(b / 16)) == b / 16 && HexDigitOf(HexDigit(b % 16)) == b % 16;
  }

  /** `strtoul` of a printed digest is its big-endian value, saturated. */
  lemma {:induction false} StrtoulOfHex(d: seq<Byte>)
    ensures Strtoul16(Hex(d)) == if BigEndian(d) > ULONG_MAX then ULONG_MAX else BigEndian(d)
  {
    var s := Hex(d);
    HexRunAll(s);
    assert s[..|s|] == s;
    HexValueOfHex(d);
    if s != "" {
      assert !IsSpace(s[0]) && s[0] != '-' && s[0] != '+';
      assert s[1] != 'x' && s[1] != 'X';
    }
  }

  function Pow256(n: nat): (p: nat)
    ensures p > 0
  {
    if n == 0 then 1 else 256 * Pow256(n - 1)
  }

  lemma {:induction false} BigEndianBound(d: seq<Byte>)
    ensures BigEndian(d) < Pow256(|d|)
    ensures BigEndian(d) > 0 <==> exists i | 0 <= i < |d| :: d[i] != 0
  {
    if d != [] {
      var n := |d| - 1;
      BigEndianBound(d[..n]);
      if i :| 0 <= i < |d| && d[i] != 0 {
        assert i < n ==> d[..n][i] != 0;
      }
    }
  }

  lemma {:induction false} BigEndianAppend(a: seq<Byte>, b: seq<Byte>)
    ensures BigEndian(a + b) == BigEndian(a) * Pow256(|b|) + BigEndian(b)
  {
    if b == [] {
      assert a + b == a;
    } else {
      var n := |b| - 1;
      BigEndianAppend(a, b[..n]);
      assert (a + b)[..|a| + n] == a + b[..n];
      assert BigEndian(a + b) == 256 * BigEndian(a + b[..n]) + b[n];
      Distribute(BigEndian(a), Pow256(n), BigEndian(b[..n]));
    }
  }

  lemma Distribute(x: nat, p: nat, y: nat)
    ensures 256 * (x * p + y) == x * (256 * p) + 256 * y
  {
  }

  /** `strtoul` saturates a digest exactly when one of its first 56 bytes is non-zero. */
  lemma {:induction false} SaturatesIff(d: Digest)
    ensures BigEndian(d) > ULONG_MAX <==> exists i | 0 <= i < HASH_LENGTH - 8 :: d[i] != 0
  {
    var a, b := d[..HASH_LENGTH - 8], d[HASH_LENGTH - 8..];
    assert d == a + b;
    BigEndianAppend(a, b);
    BigEndianBound(a);
    BigEndianBound(b);
    assert Pow256(8) == ULONG_MAX + 1;
    if i :| 0 <= i < HASH_LENGTH - 8 && d[i] != 0 {
      assert a[i] != 0;
      assert BigEndian(a) * Pow256(8) >= Pow256(8);
    }
    if BigEndian(a) > 0 {
      var i :| 0 <= i < |a| && a[i] != 0;
      assert d[i] != 0;
    } else {
      assert BigEndian(a) * Pow256(8) == 0;
    }
  }

  /** A digest that starts with zeros has the value of what follows them. */
  lemma {:induction false} LeadingZeros(a: seq<Byte>, b: seq<Byte>)
    requires forall i | 0 <= i < |a| :: a[i] == 0
    ensures BigEndian(a + b) == BigEndian(b)
  {
    BigEndianBound(a);
    BigEndianAppend(a, b);
    assert BigEndian(a) == 0;
  }

  /** The closed form of the saturated value: all that is left of a digest is its last 8 bytes, and only if the
      others are zero. */
  lemma {:induction false} SaturatedValue(d: Digest)
    ensures Strtoul16(Hex(d)) == if exists i | 0 <= i < HASH_LENGTH - 8 :: d[i] != 0 then ULONG_MAX
                                 else BigEndian(d[HASH_LENGTH - 8..])
  {
    StrtoulOfHex(d);
    SaturatesIff(d);
    if !exists i | 0 <= i < HASH_LENGTH - 8 :: d[i] != 0 {
      LeadingZeros(d[..HASH_LENGTH - 8], d[HASH_LENGTH - 8..]);
      assert d == d[..HASH_LENGTH - 8] + d[HASH_LENGTH - 8..];
    }
  }

  lemma SaturatedRemainder()
    ensures ULONG_MAX % 100 == 15
  {
  }

  /** The closed form of the bucket index; with the server's 100 buckets nearly every uid is in bucket 15. */
  lemma {:induction false} BucketClosedForm(d: Digest, hashSize: nat)
    requires hashSize > 0
    ensures Bucket(Hex(d), hashSize) ==
            (if exists i | 0 <= i < HASH_LENGTH - 8 :: d[i] != 0 then ULONG_MAX
             else BigEndian(d[HASH_LENGTH - 8..])) % hashSize
    ensures hashSize == 100 && (exists i | 0 <= i < HASH_LENGTH - 8 :: d[i] != 0) ==> Bucket(Hex(d), 100) == 15
  {
    SaturatedValue(d);
    SaturatedRemainder();
  }
}
