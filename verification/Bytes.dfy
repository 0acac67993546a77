/** Bytes as small integers, their bitwise exclusive or, and big-endian numbers. */
module Bytes {

  type byte = x: int | 0 <= x < 256
  type bytes = seq<byte>

  datatype Option<+T> = None | Some(value: T)

  function Flatten(chunks: seq<bytes>): bytes {
    if chunks == [] then [] else chunks[0] + Flatten(chunks[1..])
  }

  lemma {:induction false} FlattenNext(chunks: seq<bytes>, data: bytes)
    ensures Flatten(chunks + [data]) == Flatten(chunks) + data
    decreases |chunks|
  {
    if chunks == [] {
      assert chunks + [data] == [data] && [data][1..] == [];
    } else {
      assert (chunks + [data])[1..] == chunks[1..] + [data];
      FlattenNext(chunks[1..], data);
    }
  }

  lemma Associate<T>(a: seq<T>, b: seq<T>, c: seq<T>)
    ensures a + b + c == a + (b + c)
  {
  }

  /** A range without its first, and without its last element. */
  lemma Shrink<T>(s: seq<T>, p: nat, q: nat)
    requires p < q <= |s|
    ensures s[p..q][1..] == s[p + 1..q] && s[p..q][..q - p - 1] == s[p..q - 1]
    ensures s[p..q][0] == s[p] && s[p..q][q - p - 1] == s[q - 1]
  {
  }

  /** The elements of `s` without the one at `k`. */
  function Without<T>(s: seq<T>, k: nat): seq<T>
    requires k < |s|
  {
    s[..k] + s[k + 1..]
  }

  function Pow2(n: nat): (p: nat)
    ensures p > 0
  {
    if n == 0 then 1 else 2 * Pow2(n - 1)
  }

  /** The exclusive or of the low `n` bits of `a` and `b`. */
  function XorBits(a: nat, b: nat, n: nat): (r: nat)
    ensures r < Pow2(n)
  {
    if n == 0 then 0 else 2 * XorBits(a / 2, b / 2, n - 1) + (a + b) % 2
  }

  function Xor(a: byte, b: byte): byte {
    assert Pow2(8) == 256 by {
      assert Pow2(4) == 16;
    }
    XorBits(a, b, 8)
  }

  lemma {:induction false} XorBitsTwice(a: nat, b: nat, n: nat)
    requires a < Pow2(n)
    ensures XorBits(XorBits(a, b, n), b, n) == a
  {
    if n > 0 {
      var upper := XorBits(a / 2, b / 2, n - 1);
      XorBitsTwice(a / 2, b / 2, n - 1);
      LowBit(a, b, upper);
      assert XorBits(a, b, n) == 2 * upper + (a + b) % 2;
    }
  }

  lemma LowBit(a: nat, b: nat, upper: nat)
    ensures
      var r := 2 * upper + (a + b) % 2;
      r / 2 == upper && (r + b) % 2 == a % 2
  {
    if a % 2 == 0 {
      assert (a + b) % 2 == b % 2;
    } else {
      assert (a + b) % 2 == (1 + b) % 2;
    }
  }

  lemma XorTwice(a: byte, b: byte)
    ensures Xor(Xor(a, b), b) == a
  {
    assert Pow2(8) == 256 by {
      assert Pow2(4) == 16;
    }
    XorBitsTwice(a, b, 8);
  }

  /** The last binary digit of `r` is 1 if and only if exactly one of those of `a` and `b` is. */
  predicate OneOfTwo(a: nat, b: nat, r: nat) {
    r % 2 == 1 <==> (a % 2 == 1) != (b % 2 == 1)
  }

  /** So it is for each of the eight digits. */
  predicate ExclusiveOr(a: byte, b: byte, r: byte) {
    && OneOfTwo(a, b, r) && OneOfTwo(a / 2, b / 2, r / 2)
    && OneOfTwo(a / 4, b / 4, r / 4) && OneOfTwo(a / 8, b / 8, r / 8)
    && OneOfTwo(a / 16, b / 16, r / 16) && OneOfTwo(a / 32, b / 32, r / 32)
    && OneOfTwo(a / 64, b / 64, r / 64) && OneOfTwo(a / 128, b / 128, r / 128)
  }

  lemma Halves(a: byte)
    ensures a / 2 / 2 == a / 4 && a / 4 / 2 == a / 8 && a / 8 / 2 == a / 16
    ensures a / 16 / 2 == a / 32 && a / 32 / 2 == a / 64 && a / 64 / 2 == a / 128 && a / 128 < 2
  {
  }

  lemma XorBitsStep(a: nat, b: nat, n: nat, r: nat)
    requires n > 0 && r == XorBits(a, b, n)
    ensures OneOfTwo(a, b, r) && r / 2 == XorBits(a / 2, b / 2, n - 1)
  {
  }

  /** Exclusive or on bytes, digit by digit. */
  lemma XorDigits(a: byte, b: byte)
    ensures ExclusiveOr(a, b, Xor(a, b))
  {
    XorNibbles(a, b, Xor(a, b));
  }

  lemma Upper(a: nat)
    ensures a / 16 / 2 == a / 32 && a / 16 / 4 == a / 64 && a / 16 / 8 == a / 128
  {
  }

  lemma XorNibbles(a: byte, b: byte, r: byte)
    requires r == XorBits(a, b, 8)
    ensures ExclusiveOr(a, b, r)
  {
    XorFour(a, b, 8, r);
    XorFour(a / 16, b / 16, 4, r / 16);
    Upper(a);
    Upper(b);
    Upper(r);
  }

  lemma XorFour(a: nat, b: nat, n: nat, r: nat)
    requires n >= 4 && r == XorBits(a, b, n)
    ensures OneOfTwo(a, b, r) && OneOfTwo(a / 2, b / 2, r / 2)
    ensures OneOfTwo(a / 4, b / 4, r / 4) && OneOfTwo(a / 8, b / 8, r / 8)
    ensures r / 16 == XorBits(a / 16, b / 16, n - 4)
  {
    XorBitsStep(a, b, n, r);
    XorBitsStep(a / 2, b / 2, n - 1, r / 2);
    assert r / 2 / 2 == r / 4 && a / 2 / 2 == a / 4 && b / 2 / 2 == b / 4;
    XorBitsStep(a / 4, b / 4, n - 2, r / 4);
    assert r / 4 / 2 == r / 8 && a / 4 / 2 == a / 8 && b / 4 / 2 == b / 8;
    XorBitsStep(a / 8, b / 8, n - 3, r / 8);
    assert r / 8 / 2 == r / 16 && a / 8 / 2 == a / 16 && b / 8 / 2 == b / 16;
  }

  lemma SameHalves(r: nat, s: nat)
    requires r / 2 == s / 2 && (r % 2 == 1 <==> s % 2 == 1)
    ensures r == s
  {
  }

  /** A byte is fixed by its digits, so that the digits fix the result. */
  lemma DigitsFix(a: byte, b: byte, r: byte, s: byte)
    requires ExclusiveOr(a, b, r) && ExclusiveOr(a, b, s)
    ensures r == s
  {
    Halves(r);
    Halves(s);
    SameHalves(r / 64, s / 64);
    SameHalves(r / 32, s / 32);
    SameHalves(r / 16, s / 16);
    SameHalves(r / 8, s / 8);
    SameHalves(r / 4, s / 4);
    SameHalves(r / 2, s / 2);
    SameHalves(r, s);
  }

  /** The number written by `s`, most significant byte first. */
  function FromBigEndian(s: bytes): (n: nat) {
    if s == [] then 0 else FromBigEndian(s[..|s| - 1]) * 256 + s[|s| - 1]
  }

  /** The low `8 * k` bits of `n` as `k` bytes, most significant first. */
  function ToBigEndian(n: nat, k: nat): (s: bytes)
    ensures |s| == k
  {
    if k == 0 then [] else ToBigEndian(n / 256, k - 1) + [n % 256]
  }

  function Pow256(k: nat): (p: nat)
    ensures p > 0
  {
    if k == 0 then 1 else 256 * Pow256(k - 1)
  }

  lemma {:induction false} BigEndianRoundTrip(n: nat, k: nat)
    requires n < Pow256(k)
    ensures FromBigEndian(ToBigEndian(n, k)) == n
  {
    if k > 0 {
      BigEndianRoundTrip(n / 256, k - 1);
      assert ToBigEndian(n, k)[..k - 1] == ToBigEndian(n / 256, k - 1);
    }
  }

  lemma NextDigit(head: nat, weight: nat, n: nat, low: byte)
    requires head * weight <= n < (head + 1) * weight
    ensures head * (256 * weight) <= n * 256 + low < (head + 1) * (256 * weight)
  {
    assert head * (256 * weight) == 256 * (head * weight);
    assert (head + 1) * (256 * weight) == 256 * ((head + 1) * weight);
  }

  /** The most significant byte fixes the number up to the weight of that byte. */
  lemma {:induction false} BigEndianHead(s: bytes)
    requires s != []
    ensures s[0] * Pow256(|s| - 1) <= FromBigEndian(s) < (s[0] + 1) * Pow256(|s| - 1)
  {
    var k := |s| - 1;
    if k > 0 {
      BigEndianHead(s[..k]);
      NextDigit(s[0], Pow256(k - 1), FromBigEndian(s[..k]), s[k]);
    } else {
      assert FromBigEndian(s[..0]) == 0;
    }
  }
}
