/**
 * The operations and constants of SHA-1 by other means than they are computed: words digit by digit,
 * the constants from what they are made of, and the distances and counts as numbers.
 */
module Sha1Digits {
  import opened Bytes
  import opened Sha1

  // ---------------------------------------------------------------- words digit by digit

  /** Binary digit `k` of a number. */
  function Digit(x: nat, k: nat): (d: nat)
    ensures d < 2
  {
    if k == 0 then x % 2 else Digit(x / 2, k - 1)
  }

  lemma {:induction false} AndDigit(a: nat, b: nat, n: nat, k: nat)
    requires k < n
    ensures Digit(AndBits(a, b, n), k) == if Digit(a, k) == 1 && Digit(b, k) == 1 then 1 else 0
    decreases k
  {
    var upper := AndBits(a / 2, b / 2, n - 1);
    assert AndBits(a, b, n) / 2 == upper;
    if k > 0 {
      AndDigit(a / 2, b / 2, n - 1, k - 1);
    }
  }

  lemma {:induction false} OrDigit(a: nat, b: nat, n: nat, k: nat)
    requires k < n
    ensures Digit(OrBits(a, b, n), k) == if Digit(a, k) == 1 || Digit(b, k) == 1 then 1 else 0
    decreases k
  {
    var upper := OrBits(a / 2, b / 2, n - 1);
    assert OrBits(a, b, n) / 2 == upper;
    if k > 0 {
      OrDigit(a / 2, b / 2, n - 1, k - 1);
    }
  }

  lemma {:induction false} NotDigit(a: nat, n: nat, k: nat)
    requires k < n
    ensures Digit(NotBits(a, n), k) == 1 - Digit(a, k)
    decreases k
  {
    var upper := NotBits(a / 2, n - 1);
    assert NotBits(a, n) / 2 == upper;
    if k > 0 {
      NotDigit(a / 2, n - 1, k - 1);
    }
  }

  lemma {:induction false} XorDigit(a: nat, b: nat, n: nat, k: nat)
    requires k < n
    ensures Digit(XorBits(a, b, n), k) == if Digit(a, k) != Digit(b, k) then 1 else 0
    decreases k
  {
    XorBitsStep(a, b, n, XorBits(a, b, n));
    if k > 0 {
      XorDigit(a / 2, b / 2, n - 1, k - 1);
    }
  }

  /** Section 4.1.1 of FIPS 180-4: one operand chooses, an odd number of ones, and two ones at least. */
  lemma ChoiceDigit(x: word, y: word, z: word, k: nat)
    requires k < 32
    ensures Digit(Ch(x, y, z), k) == if Digit(x, k) == 1 then Digit(y, k) else Digit(z, k)
  {
    AndDigit(x, y, WIDTH, k);
    NotDigit(x, WIDTH, k);
    AndDigit(Not(x), z, WIDTH, k);
    XorDigit(And(x, y), And(Not(x), z), WIDTH, k);
  }

  lemma ParityDigit(x: word, y: word, z: word, k: nat)
    requires k < 32
    ensures Digit(Parity(x, y, z), k) == (Digit(x, k) + Digit(y, k) + Digit(z, k)) % 2
  {
    XorDigit(x, y, WIDTH, k);
    XorDigit(XorWord(x, y), z, WIDTH, k);
  }

  lemma MajorityDigit(x: word, y: word, z: word, k: nat)
    requires k < 32
    ensures Digit(Maj(x, y, z), k) == if Digit(x, k) + Digit(y, k) + Digit(z, k) >= 2 then 1 else 0
  {
    AndDigit(x, y, WIDTH, k);
    AndDigit(x, z, WIDTH, k);
    AndDigit(y, z, WIDTH, k);
    XorDigit(And(x, y), And(x, z), WIDTH, k);
    XorDigit(XorWord(And(x, y), And(x, z)), And(y, z), WIDTH, k);
  }

  /** Which of them a round uses. */
  lemma FunctionDigit(t: nat, x: word, y: word, z: word, k: nat)
    requires k < 32
    ensures
      var d, e, f := Digit(x, k), Digit(y, k), Digit(z, k);
      Digit(F(t, x, y, z), k) ==
        if t <= 19 then (if d == 1 then e else f)
        else if 40 <= t <= 59 then (if d + e + f >= 2 then 1 else 0)
        else (d + e + f) % 2
  {
    ChoiceDigit(x, y, z, k);
    ParityDigit(x, y, z, k);
    MajorityDigit(x, y, z, k);
  }

  // ---------------------------------------------------------------- rotation

  lemma {:induction false} ShrDigit(x: word, n: nat, k: nat)
    ensures Digit(Shr(x, n), k) == Digit(x, k + n)
    decreases n
  {
    if n > 0 {
      ShrDigit(x / 2, n - 1, k);
    }
  }

  /** Digits from 32 on do not exist. */
  lemma {:induction false} NoDigit(x: nat, n: nat, k: nat)
    requires x < Pow2(n) && n <= k
    ensures Digit(x, k) == 0
    decreases n
  {
    if n == 0 {
      ZeroDigit(k);
    } else {
      NoDigit(x / 2, n - 1, k - 1);
    }
  }

  lemma {:induction false} ZeroDigit(k: nat)
    ensures Digit(0, k) == 0
    decreases k
  {
    if k > 0 {
      ZeroDigit(k - 1);
    }
  }

  /** Taking a number modulo a power of two keeps the digits below it. */
  lemma {:induction false} LowDigit(x: nat, n: nat, k: nat)
    requires k < n
    ensures Digit(x % Pow2(n), k) == Digit(x, k)
    decreases k
  {
    var p := Pow2(n - 1);
    HalfOfResidue(x, p);
    if k > 0 {
      LowDigit(x / 2, n - 1, k - 1);
    }
  }

  lemma HalfOfResidue(x: nat, p: nat)
    requires p > 0
    ensures x % (2 * p) % 2 == x % 2 && x % (2 * p) / 2 == x / 2 % p
  {
    var q, r := x / 2 / p, x / 2 % p;
    assert x / 2 == p * q + r;
    assert x == 2 * p * q + (2 * r + x % 2) by {
      assert 2 * (p * q) == 2 * p * q;
    }
    Residue(x, 2 * p, q, 2 * r + x % 2);
  }

  lemma NoMultiple(m: int, d: int, e: int)
    requires m * d == e && -m < e < m
    ensures d == 0
  {
    assert d >= 1 ==> m * d >= m;
    assert d <= -1 ==> m * d <= -m;
  }

  lemma Residue(x: nat, m: nat, q: nat, r: nat)
    requires x == m * q + r && r < m
    ensures x % m == r
  {
    var q2, r2 := x / m, x % m;
    assert x == m * q2 + r2;
    assert m * (q - q2) == m * q - m * q2;
    NoMultiple(m, q - q2, r2 - r);
  }

  lemma {:induction false} ShlDigit(x: word, n: nat, k: nat)
    requires k < 32
    ensures Digit(Shl(x, n), k) == if k < n then 0 else Digit(x, k - n)
    decreases n
  {
    if n > 0 {
      Width();
      var y := x * 2 % MOD;
      ShlDigit(y, n - 1, k);
      if k >= n - 1 {
        LowDigit(x * 2, WIDTH, k - (n - 1));
        DoubleDigit(x, k - (n - 1));
      }
    }
  }

  lemma DoubleDigit(x: nat, k: nat)
    ensures Digit(2 * x, k) == if k == 0 then 0 else Digit(x, k - 1)
  {
    assert 2 * x / 2 == x;
  }

  /** Section 3.2 of FIPS 180-4: a rotation by `n` takes digit `k` from `n` places below, cyclically. */
  lemma RotationDigit(x: word, n: nat, k: nat)
    requires 0 < n < 32 && k < 32
    ensures Digit(Rotl(x, n), k) == Digit(x, if k >= n then k - n else k + 32 - n)
  {
    ShlDigit(x, n, k);
    ShrDigit(x, 32 - n, k);
    OrDigit(Shl(x, n), Shr(x, 32 - n), WIDTH, k);
    Width();
    if k >= n {
      NoDigit(x, WIDTH, k + 32 - n);
    }
  }

  /** Digits fix a number, so the lemmas above fix every result. */
  lemma {:induction false} DigitsDecide(x: nat, y: nat, n: nat)
    requires x < Pow2(n) && y < Pow2(n) && forall k :: 0 <= k < n ==> Digit(x, k) == Digit(y, k)
    ensures x == y
    decreases n
  {
    if n > 0 {
      assert Digit(x, 0) == Digit(y, 0);
      forall k | 0 <= k < n - 1 ensures Digit(x / 2, k) == Digit(y / 2, k) {
        assert Digit(x, k + 1) == Digit(y, k + 1);
      }
      DigitsDecide(x / 2, y / 2, n - 1);
    }
  }

  // ---------------------------------------------------------------- constants, distances and counts

  /** Section 4.2.1: the integer part of 2^30 times the square root of `n`. */
  predicate IsRoot(k: nat, n: nat) {
    k * k <= n * 0x1000_0000_0000_0000 < (k + 1) * (k + 1)
  }

  /** The round constants are those of 2, 3, 5 and 10. */
  lemma ConstantsAreRoots(t: nat)
    requires t < 80
    ensures IsRoot(K(t), if t <= 19 then 2 else if t <= 39 then 3 else if t <= 59 then 5 else 10)
  {
  }

  /** Section 5.3.1: the initial words are these bytes, the least significant first. */
  const COUNTING: bytes := [
    0x01, 0x23, 0x45, 0x67, 0x89, 0xAB, 0xCD, 0xEF, 0xFE, 0xDC, 0xBA, 0x98, 0x76, 0x54, 0x32, 0x10,
    0xF0, 0xE1, 0xD2, 0xC3]

  function LeastFirst(s: bytes): word
    requires |s| == 4
  {
    var b0: int, b1: int, b2: int, b3: int := s[0], s[1], s[2], s[3];
    b0 + 256 * (b1 + 256 * (b2 + 256 * b3))
  }

  lemma InitialWords()
    ensures IV == Vars(
      LeastFirst(COUNTING[..4]), LeastFirst(COUNTING[4..8]), LeastFirst(COUNTING[8..12]),
      LeastFirst(COUNTING[12..16]), LeastFirst(COUNTING[16..]))
  {
  }

  /** Section 6.1.2: a round rotates by 5 and by 30. */
  lemma RoundDistances(v: Vars, t: nat, w: word)
    ensures Round(v, t, w) == Vars(
      (Rotl(v.a, 5) + F(t, v.b, v.c, v.d) + v.e + K(t) + w) % 0x1_0000_0000, v.a, Rotl(v.b, 30), v.c, v.d)
  {
  }

  /** There are eighty of them, and what they make of the hash value is added to it. */
  lemma EightyRounds(h: Vars, block: bytes)
    requires |block| == 64
    ensures |Schedule(block)| == 80 && Compress(h, block) == Sum(h, Rounds(h, Schedule(block), 80))
  {
  }

  /** Word by word. */
  lemma SumWords(h: Vars, v: Vars)
    ensures Sum(h, v) == Vars(
      (h.a + v.a) % 0x1_0000_0000, (h.b + v.b) % 0x1_0000_0000, (h.c + v.c) % 0x1_0000_0000,
      (h.d + v.d) % 0x1_0000_0000, (h.e + v.e) % 0x1_0000_0000)
  {
  }

  /** The schedule begins with the words of the block and rotates by 1. */
  lemma ScheduleDistances(block: bytes, ws: seq<word>, t: nat)
    requires |block| == 64 && ws == Schedule(block) && t < 80
    ensures t >= 16 ==> ws[t] == Rotl(XorWord(XorWord(XorWord(ws[t - 3], ws[t - 8]), ws[t - 14]), ws[t - 16]), 1)
    ensures t < 16 ==> ws[t] == FromBigEndian(block[4 * t..4 * t + 4])
  {
    ScheduleNext(block, ws, t);
    if t < 16 {
      FourBytes(block[4 * t..4 * t + 4]);
    }
  }

  lemma FourBytes(s: bytes)
    requires |s| == 4
    ensures
      var b0: int, b1: int, b2: int, b3: int := s[0], s[1], s[2], s[3];
      FromBigEndian(s) == ((b0 * 256 + b1) * 256 + b2) * 256 + b3
  {
    assert s[..1][..0] == [] && FromBigEndian(s[..1]) == s[0];
    assert s[..2][..1] == s[..1] && FromBigEndian(s[..2]) == FromBigEndian(s[..1]) * 256 + s[1];
    assert s[..3][..2] == s[..2] && FromBigEndian(s[..3]) == FromBigEndian(s[..2]) * 256 + s[2];
    assert s[..4] == s && FromBigEndian(s) == FromBigEndian(s[..3]) * 256 + s[3];
  }

  // ---------------------------------------------------------------- padding and digest

  /** Section 5.1.1: a one, as few zeros as fill the last block, and the number of bits in 64 bits. */
  lemma PaddingParts(m: bytes, p: bytes)
    requires p == Pad(m)
    ensures |p| % 64 == 0 && |m| + 9 <= |p| < |m| + 9 + 64
    ensures p[..|m|] == m && p[|m|] == 0x80
    ensures forall i :: |m| < i < |p| - 8 ==> p[i] == 0
    ensures FromBigEndian(p[|p| - 8..]) == |m| * 8 % 0x1_0000_0000_0000_0000
  {
    var zeros, last := Zeros(ZeroCount(|m|)), ToBigEndian(|m| * 8 % TWO64, LENGTH_BYTES);
    PadLength(|m|);
    assert p == m + ([0x80] + zeros) + last;
    assert p[..|m|] == m && p[|m|] == ([0x80] + zeros)[0];
    assert forall i :: |m| < i < |p| - 8 ==> p[i] == zeros[i - |m| - 1];
    assert p[|p| - 8..] == last;
    PowerOfEight();
    BigEndianRoundTrip(|m| * 8 % TWO64, LENGTH_BYTES);
  }

  lemma PowerOfEight()
    ensures Pow256(4) == 0x1_0000_0000 && Pow256(8) == 0x1_0000_0000_0000_0000
  {
    assert Pow256(2) == 0x1_0000 && Pow256(4) == 0x1_0000_0000 && Pow256(6) == 0x1_0000_0000_0000;
  }

  /** The digest is the five words, the most significant byte first. */
  lemma DigestWords(h: Vars, d: bytes)
    requires d == Digest(h)
    ensures |d| == 20
    ensures FromBigEndian(d[..4]) == h.a && FromBigEndian(d[4..8]) == h.b && FromBigEndian(d[8..12]) == h.c
    ensures FromBigEndian(d[12..16]) == h.d && FromBigEndian(d[16..]) == h.e
  {
    PowerOfEight();
    var a, b, c := ToBigEndian(h.a, 4), ToBigEndian(h.b, 4), ToBigEndian(h.c, 4);
    var x, y := ToBigEndian(h.d, 4), ToBigEndian(h.e, 4);
    assert d[..4] == a && d[4..8] == b && d[8..12] == c && d[12..16] == x && d[16..] == y;
    BigEndianRoundTrip(h.a, 4);
    BigEndianRoundTrip(h.b, 4);
    BigEndianRoundTrip(h.c, 4);
    BigEndianRoundTrip(h.d, 4);
    BigEndianRoundTrip(h.e, 4);
  }
}
