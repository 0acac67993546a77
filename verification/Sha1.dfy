/** SHA-1 by section 6.1.2 of FIPS 180-4, and the streaming implementation that computes it. */
module Sha1 {
  import opened Bytes

  // ---------------------------------------------------------------- 32-bit words

  const WIDTH: nat := 32
  const MOD: nat := 0x1_0000_0000

  type word = x: int | 0 <= x < 0x1_0000_0000

  lemma Width()
    ensures Pow2(WIDTH) == MOD
  {
    assert Pow2(8) == 256 && Pow2(16) == 0x1_0000 && Pow2(24) == 0x100_0000;
  }

  function Bit(b: bool): nat {
    if b then 1 else 0
  }

  function AndBits(a: nat, b: nat, n: nat): (r: nat)
    ensures r < Pow2(n)
  {
    if n == 0 then 0 else 2 * AndBits(a / 2, b / 2, n - 1) + Bit(a % 2 == 1 && b % 2 == 1)
  }

  function OrBits(a: nat, b: nat, n: nat): (r: nat)
    ensures r < Pow2(n)
  {
    if n == 0 then 0 else 2 * OrBits(a / 2, b / 2, n - 1) + Bit(a % 2 == 1 || b % 2 == 1)
  }

  function NotBits(a: nat, n: nat): (r: nat)
    ensures r < Pow2(n)
  {
    if n == 0 then 0 else 2 * NotBits(a / 2, n - 1) + Bit(a % 2 == 0)
  }

  function And(x: word, y: word): word {
    Width();
    AndBits(x, y, WIDTH)
  }

  function Or(x: word, y: word): word {
    Width();
    OrBits(x, y, WIDTH)
  }

  function XorWord(x: word, y: word): word {
    Width();
    XorBits(x, y, WIDTH)
  }

  function Not(x: word): word {
    Width();
    NotBits(x, WIDTH)
  }

  function Plus(x: word, y: word): word {
    (x + y) % MOD
  }

  function Shl(x: word, n: nat): word
    decreases n
  {
    if n == 0 then x else Shl(x * 2 % MOD, n - 1)
  }

  function Shr(x: word, n: nat): word
    decreases n
  {
    if n == 0 then x else Shr(x / 2, n - 1)
  }

  /** The rotation distances of the standard. */
  const ROTATE_W: nat := 1
  const ROTATE_A: nat := 5
  const ROTATE_B: nat := 30

  function Rotl(x: word, n: nat): word
    requires n <= 32
  {
    Or(Shl(x, n), Shr(x, 32 - n))
  }

  // ---------------------------------------------------------------- the standard

  function Ch(x: word, y: word, z: word): word {
    XorWord(And(x, y), And(Not(x), z))
  }

  function Parity(x: word, y: word, z: word): word {
    XorWord(XorWord(x, y), z)
  }

  function Maj(x: word, y: word, z: word): word {
    XorWord(XorWord(And(x, y), And(x, z)), And(y, z))
  }

  /** Section 4.1.1. */
  function F(t: nat, x: word, y: word, z: word): word {
    if t < 20 then Ch(x, y, z) else if t < 40 then Parity(x, y, z) else if t < 60 then Maj(x, y, z) else Parity(x, y, z)
  }

  /** Section 4.2.1. */
  function K(t: nat): word {
    if t < 20 then 0x5A827999 else if t < 40 then 0x6ED9EBA1 else if t < 60 then 0x8F1BBCDC else 0xCA62C1D6
  }

  /** The big-endian word at position `t` of a block. */
  function Word(block: bytes, t: nat): word
    requires 4 * t + 3 < |block|
  {
    var b0: int, b1: int, b2: int, b3: int := block[4 * t], block[4 * t + 1], block[4 * t + 2], block[4 * t + 3];
    ((b0 * 256 + b1) * 256 + b2) * 256 + b3
  }

  /** The message schedule. */
  function W(block: bytes, t: nat): word
    requires |block| == 64
  {
    if t < 16 then Word(block, t)
    else Rotl(XorWord(XorWord(XorWord(W(block, t - 3), W(block, t - 8)), W(block, t - 14)), W(block, t - 16)), ROTATE_W)
  }

  /** The working variables, and the hash value. */
  datatype Vars = Vars(a: word, b: word, c: word, d: word, e: word)

  /** One round. */
  function Round(v: Vars, t: nat, w: word): Vars {
    Turn(v, Rotl(v.a, ROTATE_A), F(t, v.b, v.c, v.d), K(t), w, Rotl(v.b, ROTATE_B))
  }

  /** The new first variable is a sum modulo 2^32; the others move down. */
  function Turn(v: Vars, r: word, f: word, k: word, w: word, b: word): Vars {
    Vars((r + f + v.e + k + w) % MOD, v.a, b, v.c, v.d)
  }

  function Schedule(block: bytes): (ws: seq<word>)
    requires |block| == 64
    ensures |ws| == ROUNDS
  {
    seq(ROUNDS, t requires 0 <= t < ROUNDS => W(block, t))
  }

  function Rounds(h: Vars, ws: seq<word>, t: nat): Vars
    requires t <= |ws|
    decreases t
  {
    if t == 0 then h else Round(Rounds(h, ws, t - 1), t - 1, ws[t - 1])
  }

  const ROUNDS: nat := 80

  function Sum(h: Vars, v: Vars): Vars {
    Vars(Plus(h.a, v.a), Plus(h.b, v.b), Plus(h.c, v.c), Plus(h.d, v.d), Plus(h.e, v.e))
  }

  /** The step from one intermediate hash value to the next. */
  function Compress(h: Vars, block: bytes): Vars {
    if |block| == 64 then Sum(h, Rounds(h, Schedule(block), ROUNDS)) else h
  }

  const IV := Vars(0x67452301, 0xEFCDAB89, 0x98BADCFE, 0x10325476, 0xC3D2E1F0)

  type Compression = (Vars, bytes) -> Vars

  /** The hash value after the first `n` blocks of `m`, by any compression function. */
  function Blocks(f: Compression, m: bytes, n: nat): Vars
    requires 64 * n <= |m|
    decreases n
  {
    if n == 0 then IV else f(Blocks(f, m, n - 1), m[64 * (n - 1)..64 * n])
  }

  function Zeros(n: nat): (z: bytes)
    ensures |z| == n && forall i :: 0 <= i < n ==> z[i] == 0
  {
    seq(n, _ => 0)
  }

  /** The bytes of the length field, and of a word. */
  const LENGTH_BYTES: nat := 8
  const WORD_BYTES: nat := 4
  const TWO64 := 0x1_0000_0000_0000_0000

  /** The smallest number of zero bytes that makes the padded message a multiple of a block. */
  function ZeroCount(n: nat): nat {
    (119 - n % 64) % 64
  }

  lemma PadLength(n: nat)
    ensures (n + 1 + ZeroCount(n) + 8) % 64 == 0
    ensures ZeroCount(n) == if n % 64 < 56 then 55 - n % 64 else 119 - n % 64
  {
    var q, r := n / 64, n % 64;
    assert n + 1 + ZeroCount(n) + 8 == if r < 56 then 64 * (q + 1) else 64 * (q + 2);
  }

  /** Section 5.1.1; the length is a 64-bit number of bits. */
  function Pad(m: bytes): (p: bytes)
    ensures |p| % 64 == 0
  {
    PadLength(|m|);
    m + ([0x80] + Zeros(ZeroCount(|m|))) + ToBigEndian(|m| * 8 % TWO64, LENGTH_BYTES)
  }

  function Digest(h: Vars): bytes {
    ToBigEndian(h.a, WORD_BYTES) + ToBigEndian(h.b, WORD_BYTES) + ToBigEndian(h.c, WORD_BYTES)
    + ToBigEndian(h.d, WORD_BYTES) + ToBigEndian(h.e, WORD_BYTES)
  }

  function HashBy(f: Compression, m: bytes): bytes {
    Digest(Blocks(f, Pad(m), |Pad(m)| / 64))
  }

  /** Section 6.1.2. */
  function Hash(m: bytes): bytes {
    HashBy(Compress, m)
  }

  // ---------------------------------------------------------------- the rounds of the implementation

  lemma JoinOr(p: nat, q: nat, x: nat, y: nat, n: nat)
    requires n > 0 && x <= 1 && y <= 1
    ensures OrBits(2 * p + x, 2 * q + y, n) == 2 * OrBits(p, q, n - 1) + Bit(x + y > 0)
  {
    assert (2 * p + x) / 2 == p && (2 * q + y) / 2 == q;
    assert (2 * p + x) % 2 == x && (2 * q + y) % 2 == y;
  }

  lemma JoinXor(p: nat, q: nat, x: nat, y: nat, n: nat)
    requires n > 0 && x <= 1 && y <= 1
    ensures XorBits(2 * p + x, 2 * q + y, n) == 2 * XorBits(p, q, n - 1) + (x + y) % 2
  {
    assert (2 * p + x) / 2 == p && (2 * q + y) / 2 == q;
    assert (2 * p + x + (2 * q + y)) % 2 == (x + y) % 2;
  }

  lemma AndNotNext(b: nat, d: nat, n: nat)
    requires n > 0
    ensures AndBits(NotBits(b, n), d, n)
      == 2 * AndBits(NotBits(b / 2, n - 1), d / 2, n - 1) + Bit(b % 2 == 0 && d % 2 == 1)
  {
    var v := NotBits(b / 2, n - 1);
    var w := NotBits(b, n);
    assert w == 2 * v + Bit(b % 2 == 0);
    assert w / 2 == v && w % 2 == Bit(b % 2 == 0);
  }

  lemma AndNext(b: nat, c: nat, n: nat)
    requires n > 0
    ensures AndBits(b, c, n) == 2 * AndBits(b / 2, c / 2, n - 1) + Bit(b % 2 == 1 && c % 2 == 1)
  {
  }

  /** On these operands `or` is the exclusive or. */
  ghost predicate Same(p: nat, q: nat, n: nat) {
    OrBits(p, q, n) == XorBits(p, q, n)
  }

  ghost predicate SameOfThree(p: nat, q: nat, r: nat, n: nat) {
    OrBits(OrBits(p, q, n), r, n) == XorBits(XorBits(p, q, n), r, n)
  }

  lemma ChoiceNext(p: nat, q: nat, x: nat, y: nat, n: nat)
    requires n > 0 && x + y <= 1 && Same(p, q, n - 1)
    ensures Same(2 * p + x, 2 * q + y, n)
  {
    JoinOr(p, q, x, y, n);
    JoinXor(p, q, x, y, n);
  }

  lemma MajorityNext(p: nat, q: nat, r: nat, x: nat, y: nat, z: nat, n: nat)
    requires n > 0 && x <= 1 && y <= 1 && z <= 1 && x + y + z != 2 && SameOfThree(p, q, r, n - 1)
    ensures SameOfThree(2 * p + x, 2 * q + y, 2 * r + z, n)
  {
    var o, s := OrBits(p, q, n - 1), XorBits(p, q, n - 1);
    var u, v := Bit(x + y > 0), (x + y) % 2;
    JoinOr(p, q, x, y, n);
    JoinXor(p, q, x, y, n);
    SameNext(o, s, r, u, v, z, n);
  }

  lemma SameNext(o: nat, s: nat, r: nat, u: nat, v: nat, z: nat, n: nat)
    requires n > 0 && u <= 1 && v <= 1 && z <= 1 && Bit(u + z > 0) == (v + z) % 2
    requires OrBits(o, r, n - 1) == XorBits(s, r, n - 1)
    ensures OrBits(2 * o + u, 2 * r + z, n) == XorBits(2 * s + v, 2 * r + z, n)
  {
    JoinOr(o, r, u, z, n);
    JoinXor(s, r, v, z, n);
  }

  /** Two selections that exclude each other. */
  lemma {:induction false} ChoiceBits(b: nat, c: nat, d: nat, n: nat)
    ensures Same(AndBits(b, c, n), AndBits(NotBits(b, n), d, n), n)
    decreases n
  {
    if n > 0 {
      AndNext(b, c, n);
      AndNotNext(b, d, n);
      ChoiceBits(b / 2, c / 2, d / 2, n - 1);
      ChoiceNext(
        AndBits(b / 2, c / 2, n - 1), AndBits(NotBits(b / 2, n - 1), d / 2, n - 1),
        Bit(b % 2 == 1 && c % 2 == 1), Bit(b % 2 == 0 && d % 2 == 1), n);
    }
  }

  /** Of three pairwise products never exactly two are set. */
  lemma {:induction false} MajorityBits(b: nat, c: nat, d: nat, n: nat)
    ensures SameOfThree(AndBits(b, c, n), AndBits(b, d, n), AndBits(c, d, n), n)
    decreases n
  {
    if n > 0 {
      AndNext(b, c, n);
      AndNext(b, d, n);
      AndNext(c, d, n);
      MajorityBits(b / 2, c / 2, d / 2, n - 1);
      MajorityNext(
        AndBits(b / 2, c / 2, n - 1), AndBits(b / 2, d / 2, n - 1), AndBits(c / 2, d / 2, n - 1),
        Bit(b % 2 == 1 && c % 2 == 1), Bit(b % 2 == 1 && d % 2 == 1), Bit(c % 2 == 1 && d % 2 == 1), n);
    }
  }

  function Mix(t: nat, b: word, c: word, d: word): word {
    if t < 20 then Or(And(b, c), And(Not(b), d))
    else if t < 40 then XorWord(XorWord(b, c), d)
    else if t < 60 then Or(Or(And(b, c), And(b, d)), And(c, d))
    else XorWord(XorWord(b, c), d)
  }

  lemma MixIsF(t: nat, b: word, c: word, d: word)
    ensures Mix(t, b, c, d) == F(t, b, c, d)
  {
    ChoiceBits(b, c, d, WIDTH);
    MajorityBits(b, c, d, WIDTH);
  }

  lemma StepSum(e: word, r: word, f: word, k: word, w: word)
    ensures Plus(e, Plus(Plus(Plus(r, f), k), w)) == (r + f + e + k + w) % MOD
  {
    ModPlus(r + f, k);
    ModPlus(r + f + k, w);
    ModPlus(r + f + k + w, e);
  }

  lemma ModPlus(a: nat, b: nat)
    ensures (a % MOD + b) % MOD == (a + b) % MOD == (b + a % MOD) % MOD
  {
    var q := a / MOD;
    assert a == MOD * q + a % MOD;
    assert a + b == MOD * q + (a % MOD + b);
  }

  lemma StepIsRound(v: Vars, i: nat, w: word, r: word, f: word, k: word)
    requires r == Rotl(v.a, ROTATE_A) && f == Mix(i, v.b, v.c, v.d) && k == K(i)
    ensures Round(v, i, w) == Vars(Plus(v.e, Plus(Plus(Plus(r, f), k), w)), v.a, Rotl(v.b, ROTATE_B), v.c, v.d)
  {
    MixIsF(i, v.b, v.c, v.d);
    RoundValue(v, i, w, r, f, k, Rotl(v.b, ROTATE_B));
    TurnSum(v, r, f, k, w, Rotl(v.b, ROTATE_B));
  }

  lemma TurnSum(v: Vars, r: word, f: word, k: word, w: word, b: word)
    ensures Turn(v, r, f, k, w, b) == Vars(Plus(v.e, Plus(Plus(Plus(r, f), k), w)), v.a, b, v.c, v.d)
  {
    StepSum(v.e, r, f, k, w);
  }

  lemma RoundValue(v: Vars, i: nat, w: word, r: word, f: word, k: word, b: word)
    requires r == Rotl(v.a, ROTATE_A) && f == F(i, v.b, v.c, v.d) && k == K(i) && b == Rotl(v.b, ROTATE_B)
    ensures Round(v, i, w) == Turn(v, r, f, k, w, b)
  {
  }

  /** The sum goes into the fifth variable, then the five rotate. */
  method Step(a0: word, b0: word, c0: word, d0: word, e0: word, i: nat, w: word)
    returns (a: word, b: word, c: word, d: word, e: word)
    ensures Vars(a, b, c, d, e) == Round(Vars(a0, b0, c0, d0, e0), i, w)
  {
    a, b, c, d, e := a0, b0, c0, d0, e0;
    StepIsRound(Vars(a, b, c, d, e), i, w, Rotl(a, ROTATE_A), Mix(i, b, c, d), K(i));
    e := Plus(e, Plus(Plus(Plus(Rotl(a, ROTATE_A), Mix(i, b, c, d)), K(i)), w));
    b := Rotl(b, ROTATE_B);
    var t := a;
    a := e;
    e := d;
    d := c;
    c := b;
    b := t;
  }

  /** The low `k` bits are zero. */
  ghost predicate LowZero(p: nat, k: nat) {
    k == 0 || (p % 2 == 0 && LowZero(p / 2, k - 1))
  }

  lemma {:induction false} OrZero(p: nat, n: nat)
    requires p < Pow2(n)
    ensures OrBits(p, 0, n) == p
  {
    if n > 0 {
      OrZero(p / 2, n - 1);
    }
  }

  /** On numbers without a common bit position `or` is addition. */
  lemma {:induction false} OrIsSum(p: nat, q: nat, k: nat, n: nat)
    requires LowZero(p, k) && q < Pow2(k) && p + q < Pow2(n)
    ensures OrBits(p, q, n) == p + q
    decreases n
  {
    if k == 0 {
      OrZero(p, n);
    } else if n > 0 {
      OrIsSum(p / 2, q / 2, k - 1, n - 1);
      JoinOr(p / 2, q / 2, 0, q % 2, n);
    }
  }

  function Twice(x: nat, k: nat): (y: nat)
    ensures y >= x
    decreases k
  {
    if k == 0 then x else 2 * Twice(x, k - 1)
  }

  lemma {:induction false} TwiceFirst(x: nat, k: nat)
    requires k > 0
    ensures Twice(x, k) == Twice(2 * x, k - 1)
    decreases k
  {
    if k > 1 {
      TwiceFirst(x, k - 1);
    }
  }

  /** A shift that loses nothing doubles. */
  lemma {:induction false} ShlIsTwice(x: word, k: nat)
    requires Twice(x, k) < MOD
    ensures Shl(x, k) == Twice(x, k)
    decreases k
  {
    if k > 0 {
      TwiceFirst(x, k);
      var y := 2 * x;
      assert y <= Twice(y, k - 1) < MOD && x * 2 % MOD == y;
      ShlIsTwice(y, k - 1);
    }
  }

  lemma {:induction false} TwiceLowZero(x: nat, k: nat)
    ensures LowZero(Twice(x, k), k)
    decreases k
  {
    if k > 0 {
      TwiceLowZero(x, k - 1);
      assert Twice(x, k) % 2 == 0 && Twice(x, k) / 2 == Twice(x, k - 1);
    }
  }

  /** A word grows by the next byte: shift to its place and `or`. */
  lemma OrByte(high: word, x: word, k: nat, y: nat, m: nat)
    requires y == Twice(x, k) && LowZero(high, m) && y < Pow2(m) && high + y < MOD
    ensures Or(high, Shl(x, k)) == high + y
  {
    Width();
    ShlIsTwice(x, k);
    OrIsSum(high, y, m, WIDTH);
  }

  const BITS_3: nat := 24
  const BITS_2: nat := 16
  const BITS_1: nat := 8

  /** Four bytes shifted to their places. */
  method ReadWord(block: bytes, i: nat) returns (w: word)
    requires 4 * i + 3 < |block|
    ensures w == Word(block, i)
  {
    w := Or(
      Or(Or(Shl(block[4 * i], BITS_3), Shl(block[4 * i + 1], BITS_2)), Shl(block[4 * i + 2], BITS_1)),
      block[4 * i + 3]);
    Assembled(block[4 * i], block[4 * i + 1], block[4 * i + 2], block[4 * i + 3]);
  }

  lemma Assembled(b0: byte, b1: byte, b2: byte, b3: byte)
    ensures
      var x0: int, x1: int, x2: int, x3: int := b0, b1, b2, b3;
      Or(Or(Or(Shl(b0, BITS_3), Shl(b1, BITS_2)), Shl(b2, BITS_1)), b3) == ((x0 * 256 + x1) * 256 + x2) * 256 + x3
  {
    FirstTwo(b0, b1);
    Third(b0 as int * 256 + b1, b2);
    Fourth((b0 as int * 256 + b1) * 256 + b2, b3);
  }

  lemma FirstTwo(x0: nat, x1: nat)
    requires x0 < 256 && x1 < 256
    ensures Or(Shl(x0, BITS_3), Shl(x1, BITS_2)) == (x0 * 256 + x1) * 0x1_0000
  {
    Powers(x0);
    Powers(x1);
    ShlIsTwice(x0, BITS_3);
    TwiceLowZero(x0, BITS_3);
    OrByte(x0 * 0x100_0000, x1, BITS_2, x1 * 0x1_0000, BITS_3);
  }

  lemma Third(v: nat, x: nat)
    requires v < 0x1_0000 && x < 256
    ensures Or(v * 0x1_0000, Shl(x, BITS_1)) == (v * 256 + x) * 256
  {
    Powers(v);
    Powers(x);
    TwiceLowZero(v, BITS_2);
    OrByte(v * 0x1_0000, x, BITS_1, x * 256, BITS_2);
  }

  lemma Fourth(v: nat, x: nat)
    requires v < 0x100_0000 && x < 256
    ensures Or(v * 256, x) == v * 256 + x
  {
    Powers(v);
    TwiceLowZero(v, BITS_1);
    Width();
    OrIsSum(v * 256, x, BITS_1, WIDTH);
  }

  lemma Powers(x: nat)
    ensures Pow2(BITS_1) == 256 && Pow2(BITS_2) == 0x1_0000 && Pow2(BITS_3) == 0x100_0000
    ensures Twice(x, BITS_1) == x * 256 && Twice(x, BITS_2) == x * 0x1_0000 && Twice(x, BITS_3) == x * 0x100_0000
  {
    assert Pow2(8) == 256 && Pow2(16) == 0x1_0000 && Pow2(24) == 0x100_0000;
    assert Twice(x, 8) == x * 256 && Twice(x, 16) == x * 0x1_0000 && Twice(x, 24) == x * 0x100_0000;
  }

  lemma ScheduleNext(block: bytes, ws: seq<word>, i: nat)
    requires |block| == 64 && ws == Schedule(block) && i < ROUNDS
    ensures i < 16 ==> ws[i] == Word(block, i)
    ensures i >= 16 ==> ws[i] == Rotl(XorWord(XorWord(XorWord(ws[i - 3], ws[i - 8]), ws[i - 14]), ws[i - 16]), ROTATE_W)
  {
  }

  /** The words of the block itself. */
  method Load(block: bytes, w: array<word>)
    requires |block| == 64 && w.Length == ROUNDS
    modifies w
    ensures w[..16] == Schedule(block)[..16]
  {
    ghost var ws := Schedule(block);
    for i := 0 to 16
      invariant w[..i] == ws[..i]
    {
      ScheduleNext(block, ws, i);
      var word := ReadWord(block, i);
      w[i] := word;
    }
  }

  /** The expanded message in an array. */
  method Expand(block: bytes) returns (w: array<word>)
    requires |block| == 64
    ensures fresh(w) && w.Length == ROUNDS && w[..] == Schedule(block)
  {
    w := new word[ROUNDS];
    ghost var ws := Schedule(block);
    Load(block, w);
    for i := 16 to ROUNDS
      invariant w[..i] == ws[..i]
    {
      ScheduleNext(block, ws, i);
      assert w[i - 3] == w[..i][i - 3] && w[i - 8] == w[..i][i - 8];
      assert w[i - 14] == w[..i][i - 14] && w[i - 16] == w[..i][i - 16];
      w[i] := Rotl(XorWord(XorWord(XorWord(w[i - 3], w[i - 8]), w[i - 14]), w[i - 16]), ROTATE_W);
    }
  }

  /** The eighty rounds, with the rotating variables of the implementation. */
  method RunRounds(h: Vars, w: array<word>) returns (v: Vars)
    requires w.Length == ROUNDS
    ensures v == Rounds(h, w[..], ROUNDS)
  {
    ghost var ws := w[..];
    var a, b, c, d, e := h.a, h.b, h.c, h.d, h.e;
    for i := 0 to ROUNDS
      invariant Vars(a, b, c, d, e) == Rounds(h, ws, i)
    {
      RoundsNext(h, ws, i, Vars(a, b, c, d, e));
      a, b, c, d, e := Step(a, b, c, d, e, i, w[i]);
    }
    return Vars(a, b, c, d, e);
  }

  lemma RoundsNext(h: Vars, ws: seq<word>, i: nat, v: Vars)
    requires i < |ws| && v == Rounds(h, ws, i)
    ensures Rounds(h, ws, i + 1) == Round(v, i, ws[i])
  {
  }

  method Transform(h: Vars, block: bytes) returns (r: Vars)
    requires |block| == 64
    ensures r == Compress(h, block)
  {
    var w := Expand(block);
    var v := RunRounds(h, w);
    return Sum(h, v);
  }

  // ---------------------------------------------------------------- streaming

  lemma {:induction false} BlocksOfPrefix(f: Compression, m: bytes, more: bytes, n: nat)
    requires 64 * n <= |m|
    ensures Blocks(f, m + more, n) == Blocks(f, m, n)
    decreases n
  {
    if n > 0 {
      BlocksOfPrefix(f, m, more, n - 1);
      assert (m + more)[64 * (n - 1)..64 * n] == m[64 * (n - 1)..64 * n];
    }
  }

  lemma CountTail(n: nat, blocks: nat, count: nat)
    requires count == n % TWO64 && 64 * blocks <= n < 64 * blocks + 64
    ensures count % 64 == n - 64 * blocks
  {
    var q := n / TWO64;
    assert n == TWO64 * q + count;
    assert TWO64 == 64 * 0x400_0000_0000_0000;
    assert count == 64 * (blocks - 0x400_0000_0000_0000 * q) + (n - 64 * blocks);
  }

  lemma AlignedBlocks(n: nat, blocks: nat)
    requires n % 64 == 0 && 64 * blocks <= n < 64 * blocks + 64
    ensures n == 64 * blocks
  {
  }

  lemma CountBits(n: nat, count: nat)
    requires count == n % TWO64
    ensures count * 8 % TWO64 == n * 8 % TWO64
  {
    SameResidue(count * 8, n / TWO64 * 8);
    assert n * 8 == count * 8 + TWO64 * (n / TWO64 * 8);
  }

  lemma SameResidue(a: nat, q: nat)
    ensures (a + TWO64 * q) % TWO64 == a % TWO64
  {
    var k, r := a / 0x1_0000_0000_0000_0000, a % 0x1_0000_0000_0000_0000;
    assert a + TWO64 * q == 0x1_0000_0000_0000_0000 * (k + q) + r;
  }

  /** The padding as the implementation computes it from its counter. */
  lemma PadParts(m: bytes, count: nat)
    requires count == |m| % TWO64
    ensures
      var idx := count % 64;
      var pad := if idx < 56 then 56 - idx else 120 - idx;
      Pad(m) == m + ([0x80] + Zeros(pad - 1)) + ToBigEndian(count * 8 % TWO64, LENGTH_BYTES)
  {
    CountTail(|m|, |m| / 64, count);
    CountBits(|m|, count);
    PadLength(|m|);
  }

  function CountAfter(count: nat, n: nat): nat {
    (count + n) % TWO64
  }

  lemma CountNext(n: nat, k: nat, count: nat)
    requires count == n % TWO64
    ensures CountAfter(count, k) == (n + k) % TWO64
  {
    assert n == TWO64 * (n / TWO64) + count;
  }

  ghost predicate AgreeAt(f: Compression, g: Compression, h: Vars, block: bytes) {
    f(h, block) == g(h, block)
  }

  /** Two names for one compression function; proofs about streaming do not look inside. */
  ghost predicate Agree(f: Compression, g: Compression) {
    forall h, block :: AgreeAt(f, g, h, block)
  }

  lemma {:induction false} SameBlocks(f: Compression, g: Compression, m: bytes, n: nat)
    requires Agree(f, g) && 64 * n <= |m|
    ensures Blocks(f, m, n) == Blocks(g, m, n)
    decreases n
  {
    if n > 0 {
      SameBlocks(f, g, m, n - 1);
      assert AgreeAt(f, g, Blocks(f, m, n - 1), m[64 * (n - 1)..64 * n]);
    }
  }

  lemma SameHash(f: Compression, g: Compression, m: bytes)
    requires Agree(f, g)
    ensures HashBy(f, m) == HashBy(g, m)
  {
    SameBlocks(f, g, Pad(m), |Pad(m)| / 64);
  }

  method Absorb(ghost f: Compression, h: Vars, block: bytes) returns (r: Vars)
    requires Agree(f, Compress) && |block| == 64
    ensures r == f(h, block)
  {
    r := Transform(h, block);
    assert AgreeAt(f, Compress, h, block);
  }

  method Zeroes(n: nat) returns (z: bytes)
    ensures z == Zeros(n)
  {
    z := [];
    for i := 0 to n
      invariant |z| == i && forall k :: 0 <= k < i ==> z[k] == 0
    {
      z := z + [0];
    }
  }

  class Context {
    ghost const f: Compression
    var state: Vars
    /** The number of bytes, modulo 2^64. */
    var count: nat
    var buffer: array<byte>
    /** History: every byte that was fed, and how many whole blocks of them are in the state. */
    ghost var fed: bytes
    ghost var blocks: nat

    /** The state has all whole blocks. */
    ghost predicate Compressed()
      reads this
    {
      Agree(f, Compress) && 64 * blocks <= |fed| && state == Blocks(f, fed, blocks)
    }

    ghost predicate Valid()
      reads this, buffer
    {
      && Compressed() && count == |fed| % TWO64
      && buffer.Length == 64 && |fed| < 64 * blocks + 64
      && buffer[..|fed| - 64 * blocks] == fed[64 * blocks..]
    }

    constructor ()
      ensures Valid() && fed == [] && fresh(buffer)
    {
      f, state, count, fed, blocks := Compress, IV, 0, [], 0;
      buffer := new byte[64];
    }

    method CopyIn(at: nat, data: bytes)
      requires buffer.Length == 64 && at + |data| <= 64
      modifies buffer
      ensures buffer[..] == old(buffer[..at]) + data + old(buffer[at + |data|..])
    {
      for i := 0 to |data|
        invariant buffer[..] == old(buffer[..at]) + data[..i] + old(buffer[at + i..])
      {
        buffer[at + i] := data[i];
      }
    }

    /** One more block, taken from the buffer or straight from the input. */
    method Block(block: bytes)
      requires Compressed() && 64 * blocks + 64 <= |fed| && block == fed[64 * blocks..64 * blocks + 64]
      modifies this`state, this`blocks
      ensures Compressed() && blocks == old(blocks) + 1
    {
      state := Absorb(f, state, block);
      blocks := blocks + 1;
    }

    /** The counter goes up before anything else. */
    method Count(data: bytes)
      requires Compressed() && count == |fed| % TWO64
      modifies this`count, this`fed
      ensures Compressed() && fed == old(fed) + data && count == |fed| % TWO64
    {
      CountNext(|fed|, |data|, count);
      BlocksOfPrefix(f, fed, data, blocks);
      count := CountAfter(count, |data|);
      fed := fed + data;
    }

    /** However the input is cut, the context afterwards depends only on all bytes fed so far. */
    method Update(data: bytes)
      requires Valid()
      modifies this, buffer
      ensures Valid() && fed == old(fed) + data && buffer == old(buffer)
    {
      CountTail(|fed|, blocks, count);
      var idx, p := count % 64, 0;
      Count(data);
      if idx > 0 && idx + |data| >= 64 {
        p := 64 - idx;
        Fill(idx, data[..p]);
        idx := 0;
      }
      Process(data, idx, p);
    }

    /** Fills the buffer up to a block. */
    method Fill(idx: nat, data: bytes)
      requires Compressed() && buffer.Length == 64 && idx + |data| == 64 && 64 * blocks + 64 <= |fed|
      requires buffer[..idx] == fed[64 * blocks..64 * blocks + idx]
      requires fed[64 * blocks + idx..64 * blocks + 64] == data
      modifies this`state, this`blocks, buffer
      ensures Compressed() && blocks == old(blocks) + 1
    {
      CopyIn(idx, data);
      assert buffer[..] == old(buffer[..idx]) + data;
      assert fed[64 * blocks..64 * blocks + 64] == fed[64 * blocks..64 * blocks + idx] + data;
      Block(buffer[..]);
    }

    /** Compresses block after block straight from the input, and keeps what is left. */
    method Process(data: bytes, idx: nat, from: nat)
      requires Compressed() && buffer.Length == 64 && count == |fed| % TWO64
      requires from <= |data| <= |fed| && fed[|fed| - |data|..] == data
      requires 64 * blocks + idx == |fed| - |data| + from && (idx > 0 ==> from == 0 && idx + |data| < 64)
      requires buffer[..idx] == fed[64 * blocks..64 * blocks + idx]
      modifies this`state, this`blocks, buffer
      ensures Valid()
    {
      var p := from;
      ghost var start := |fed| - |data|;
      while |data| - p >= 64
        invariant Compressed() && from <= p <= |data|
        invariant 64 * blocks + idx == start + p && (idx > 0 ==> p == 0) && buffer[..] == old(buffer[..])
        decreases |data| - p
      {
        assert data[p..p + 64] == fed[start + p..start + p + 64];
        Block(data[p..p + 64]);
        p := p + 64;
      }
      assert idx > 0 ==> blocks == old(blocks);
      assert fed[64 * blocks + idx..] == data[p..];
      assert buffer[..idx] == buffer[..][..idx] == fed[64 * blocks..64 * blocks + idx];
      Keep(idx, data[p..]);
    }

    /** The bytes that do not fill a block go behind the ones already there. */
    method Keep(idx: nat, rest: bytes)
      requires Compressed() && buffer.Length == 64 && count == |fed| % TWO64
      requires idx + |rest| < 64 && 64 * blocks + idx + |rest| == |fed| && fed[64 * blocks + idx..] == rest
      requires buffer[..idx] == fed[64 * blocks..64 * blocks + idx]
      modifies buffer
      ensures Valid()
    {
      CopyIn(idx, rest);
      assert buffer[..idx + |rest|] == old(buffer[..idx]) + rest;
      assert fed[64 * blocks..] == fed[64 * blocks..64 * blocks + idx] + rest;
    }

    /** Padding and length are fed like data; then the state is the hash value. */
    method Close()
      requires Valid()
      modifies this, buffer
      ensures buffer == old(buffer) && Compressed() && fed == Pad(old(fed)) && 64 * blocks == |fed|
    {
      ghost var m := fed;
      PadParts(fed, count);
      var bits := count * 8 % TWO64;
      var idx := count % 64;
      var pad := if idx < 56 then 56 - idx else 120 - idx;
      var zeros := Zeroes(pad - 1);
      Update([0x80] + zeros);
      Update(ToBigEndian(bits, LENGTH_BYTES));
      AlignedBlocks(|fed|, blocks);
    }

    method Final() returns (digest: bytes)
      requires Valid()
      modifies this, buffer
      ensures digest == HashBy(f, old(fed))
    {
      Close();
      digest := Digest(state);
    }
  }

  /** For every division of a message into updates the digest is the standard's hash of the message. */
  method HashChunks(chunks: seq<bytes>) returns (digest: bytes)
    ensures digest == Hash(Flatten(chunks))
  {
    var c := new Context();
    for i := 0 to |chunks|
      invariant c.Valid() && fresh(c) && fresh(c.buffer) && c.fed == Flatten(chunks[..i])
    {
      c.Update(chunks[i]);
      FlattenNext(chunks[..i], chunks[i]);
      assert chunks[..i + 1] == chunks[..i] + [chunks[i]];
    }
    assert chunks[..|chunks|] == chunks;
    digest := c.Final();
    SameHash(c.f, Compress, Flatten(chunks));
  }
}
