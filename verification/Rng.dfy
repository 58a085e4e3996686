/**
 The seeded generator (PCG-XSH-RR 64/32) and rejection sampling. Sampling is shown to end from
 every state: the underlying congruential step visits all 2^64 states, so an accepted draw
 always comes.
 */
module Rng {

  const WORD: nat := 0x1_0000_0000_0000_0000
  const HALF: nat := 0x1_0000_0000
  const MULTIPLIER: nat := 6_364_136_223_846_793_005
  const INCREMENT: nat := 1_442_695_040_888_963_407

  function Advance(state: nat): (next: nat)
    ensures next < WORD
  {
    (state * MULTIPLIER + INCREMENT) % WORD
  }

  /** Bitwise exclusive or. */
  function Xor(a: nat, b: nat): nat {
    if a == 0 && b == 0 then 0 else (if a % 2 == b % 2 then 0 else 1) + 2 * Xor(a / 2, b / 2)
  }

  /** A 32-bit word rotated right by r places, one bit at a time. */
  function RotateRight(x: nat, r: nat): (y: nat)
    requires x < HALF
    ensures y < HALF
    decreases r
  {
    if r == 0 then x else RotateRight(x / 2 + x % 2 * 0x8000_0000, r - 1)
  }

  /** The 32 output bits of a state: xorshift the high bits down, rotate by the top five. */
  function Output(state: nat): (v: nat)
    ensures v < HALF
  {
    var xorshifted := Xor(state / 0x4_0000, state) / 0x800_0000 % HALF;
    RotateRight(xorshifted, state / 0x800_0000_0000_0000)
  }

  /** The state k steps on. */
  function After(state: nat, k: nat): nat
  {
    if k == 0 then state else Advance(After(state, k - 1))
  }

  /** The smallest draw kept when sampling below n: 2^32 mod n. */
  function Threshold(n: nat): (t: nat)
    requires 0 < n < HALF
    ensures t < n
  {
    (HALF - n) % n
  }

  // ----- the congruential step has full period -----

  function Pow2(m: nat): (p: nat)
    ensures p >= 1
  {
    if m == 0 then 1 else 2 * Pow2(m - 1)
  }

  lemma {:induction false} Pow2Adds(a: nat, b: nat)
    ensures Pow2(a + b) == Pow2(a) * Pow2(b)
  {
    if a > 0 {
      Pow2Adds(a - 1, b);
      assert Pow2(a + b) == 2 * (Pow2(a - 1) * Pow2(b));
      assert 2 * (Pow2(a - 1) * Pow2(b)) == (2 * Pow2(a - 1)) * Pow2(b);
    }
  }

  lemma WordIsPow2()
    ensures WORD == Pow2(64)
  {
    assert Pow2(8) == 256;
    Pow2Adds(8, 8);
    Pow2Adds(16, 16);
    Pow2Adds(32, 32);
  }

  /** 2^m steps at once map x to (1 + 4 * Gain(m)) * x + Shift(m), modulo 2^64. */
  function Gain(m: nat): nat {
    if m == 0 then (MULTIPLIER - 1) / 4 else 2 * Gain(m - 1) + 4 * Gain(m - 1) * Gain(m - 1)
  }

  function Shift(m: nat): nat {
    if m == 0 then INCREMENT else Shift(m - 1) * (2 + 4 * Gain(m - 1))
  }

  function Affine(c: int, d: int, x: int): int {
    (1 + 4 * c) * x + d
  }

  lemma AffineTwice(c: int, d: int, x: int)
    ensures Affine(c, d, Affine(c, d, x)) == Affine(2 * c + 4 * c * c, d * (2 + 4 * c), x)
  {
  }

  lemma AffineMoved(c: int, d: int, x: int, q: int, n: int)
    ensures Affine(c, d, x + q * n) == Affine(c, d, x) + ((1 + 4 * c) * q) * n
  {
  }

  /** Gain is a multiple of 2^m, and Shift an odd multiple. */
  lemma {:induction false} GainAndShift(m: nat) returns (s: nat, o: nat)
    ensures Gain(m) == s * Pow2(m) && Shift(m) == o * Pow2(m) && o % 2 == 1
  {
    if m == 0 {
      s, o := Gain(0), INCREMENT;
    } else {
      var g, h, p := Gain(m - 1), Shift(m - 1), Pow2(m - 1);
      s, o := GainAndShift(m - 1);
      s, o := DoubledGain(g, h, s, o, p);
    }
  }

  lemma DoubledGain(g: nat, h: nat, s: nat, o: nat, p: nat) returns (s': nat, o': nat)
    requires g == s * p && h == o * p && o % 2 == 1
    ensures 2 * g + 4 * g * g == s' * (2 * p) && h * (2 + 4 * g) == o' * (2 * p) && o' % 2 == 1
  {
    s' := s + 2 * (s * g);
    o' := o + 2 * (o * g);
    assert s' * (2 * p) == 2 * (s * p) + 4 * (s * g * p);
    assert s * g * p == g * g;
    assert o' * (2 * p) == 2 * (o * p) + 4 * (o * g * p);
    assert o * g * p == h * g;
  }

  lemma {:induction false} AfterAdds(state: nat, j: nat, k: nat)
    ensures After(state, j + k) == After(After(state, j), k)
  {
    if k > 0 {
      AfterAdds(state, j, k - 1);
    }
  }

  /** 2^m single steps are one affine jump, modulo 2^64. */
  lemma {:induction false} AfterIsAffine(m: nat, x: nat) returns (r: int)
    ensures After(x, Pow2(m)) == Affine(Gain(m), Shift(m), x) + r * WORD
  {
    if m == 0 {
      r := OneStepIsAffine(x);
    } else {
      var p := Pow2(m - 1);
      AfterAdds(x, p, p);
      var q := AfterIsAffine(m - 1, x);
      var q' := AfterIsAffine(m - 1, After(x, p));
      r := AffineComposed(Gain(m - 1), Shift(m - 1), x, q, After(x, p), q', After(x, p + p));
    }
  }

  lemma OneStepIsAffine(x: nat) returns (r: int)
    ensures After(x, Pow2(0)) == Affine(Gain(0), Shift(0), x) + r * WORD
  {
    assert After(x, 1) == Advance(After(x, 0));
    assert x * MULTIPLIER + INCREMENT == Affine(Gain(0), Shift(0), x);
    r := -((x * MULTIPLIER + INCREMENT) / WORD);
  }

  lemma AffineComposed(c: int, d: int, x: int, q: int, y: int, q': int, z: int) returns (r: int)
    requires y == Affine(c, d, x) + q * WORD && z == Affine(c, d, y) + q' * WORD
    ensures z == Affine(2 * c + 4 * c * c, d * (2 + 4 * c), x) + r * WORD
  {
    var k := (1 + 4 * c) * q;
    AffineMoved(c, d, Affine(c, d, x), q, WORD);
    AffineTwice(c, d, x);
    r := q' + k;
    assert r * WORD == q' * WORD + k * WORD;
  }

  /** One jump of 2^m moves any state by 2^m, modulo 2^(m+1). */
  lemma HalfTurn(m: nat, z: nat) returns (t: int)
    requires m < 64
    ensures After(z, Pow2(m)) == z + Pow2(m) + t * Pow2(m + 1)
  {
    var s, o := GainAndShift(m);
    var r := AfterIsAffine(m, z);
    WordIsPow2();
    Pow2Adds(m + 1, 63 - m);
    t := 2 * (s * z) + (o - 1) / 2 + r * Pow2(63 - m);
    HalfTurnAlgebra(s, o, Pow2(m), z, r, Pow2(63 - m));
  }

  lemma HalfTurnAlgebra(s: int, o: int, p: int, z: int, r: int, w: int)
    requires o % 2 == 1
    ensures Affine(s * p, o * p, z) + r * ((2 * p) * w) == z + p + (2 * (s * z) + (o - 1) / 2 + r * w) * (2 * p)
  {
    var h := (o - 1) / 2;
    assert o == 2 * h + 1;
    assert o * p == 2 * (h * p) + p;
    assert (s * p) * z == (s * z) * p;
    assert Affine(s * p, o * p, z) == z + 4 * ((s * p) * z) + o * p;
    assert (2 * (s * z) + h + r * w) * (2 * p) == 4 * ((s * z) * p) + 2 * (h * p) + 2 * ((r * w) * p);
    assert r * ((2 * p) * w) == 2 * ((r * w) * p);
  }

  /** Every residue modulo 2^m is reached from every state. */
  lemma {:induction false} ReachResidue(m: nat, x: nat, y: nat) returns (k: nat, q: int)
    requires m <= 64
    ensures After(x, k) == y + q * Pow2(m)
  {
    if m == 0 {
      k, q := 0, x - y;
    } else {
      var p := Pow2(m - 1);
      var j, d := ReachResidue(m - 1, x, y);
      k := j;
      var t := 0;
      if d % 2 == 1 {
        t := HalfTurn(m - 1, After(x, j));
        AfterAdds(x, j, p);
        k := j + p;
      }
      q := (d + d % 2) / 2 + t;
      HalvesAdd(d, t, p);
    }
  }

  lemma HalvesAdd(d: int, t: int, p: int)
    ensures d * p + (d % 2) * p + t * (2 * p) == ((d + d % 2) / 2 + t) * (2 * p)
  {
    var h := (d + d % 2) / 2;
    assert d + d % 2 == 2 * h;
    assert d * p + (d % 2) * p == (2 * h) * p;
    assert (h + t) * (2 * p) == (2 * h) * p + t * (2 * p);
  }

  lemma {:induction false} AfterInRange(x: nat, k: nat)
    requires x < WORD
    ensures After(x, k) < WORD
  {
    if k > 0 {
      AfterInRange(x, k - 1);
    }
  }

  /** Full period: the generator visits every 64-bit state from every other. */
  lemma ReachState(x: nat, y: nat) returns (k: nat)
    requires x < WORD && y < WORD
    ensures After(x, k) == y
  {
    var q: int;
    WordIsPow2();
    k, q := ReachResidue(64, x, y);
    AfterInRange(x, k);
  }

  /** A state whose draw is the largest there is, so no threshold refuses it. */
  const ALL_ONES: nat := 0x07FF_FE00_0000_0000

  /** Words with no bit in common combine by addition. */
  lemma {:induction false} XorDisjoint(a: nat, b: nat, k: nat)
    requires a < Pow2(k)
    ensures Xor(a, Pow2(k) * b) == a + Pow2(k) * b
    decreases k, b
  {
    if k > 0 {
      var half := Pow2(k - 1) * b;
      assert Pow2(k) * b == 2 * half;
      XorDisjoint(a / 2, b, k - 1);
    } else if b > 0 {
      XorDisjoint(0, b / 2, 0);
    }
  }

  lemma Pow2At41()
    ensures Pow2(41) == 0x200_0000_0000
  {
    assert Pow2(8) == 256;
    Pow2Adds(8, 8);
    Pow2Adds(16, 16);
    Pow2Adds(32, 8);
  }

  lemma AllOnesXor()
    ensures Xor(ALL_ONES / 0x4_0000, ALL_ONES) == ALL_ONES / 0x4_0000 + ALL_ONES
  {
    Pow2At41();
    assert ALL_ONES == 0x200_0000_0000 * 0x3_FFFF;
    XorDisjoint(ALL_ONES / 0x4_0000, 0x3_FFFF, 41);
  }

  lemma AllOnesShifted()
    ensures (ALL_ONES / 0x4_0000 + ALL_ONES) / 0x800_0000 == 0xFFFF_FFFF
    ensures ALL_ONES / 0x800_0000_0000_0000 == 0
  {
    assert ALL_ONES == 0x4_0000 * 0x1FF_FF80_0000;
    assert ALL_ONES / 0x4_0000 == 0x1FF_FF80_0000;
    assert 0x1FF_FF80_0000 + ALL_ONES == 0x800_0000 * 0xFFFF_FFFF + 0x780_0000;
  }

  lemma AllOnesDraw()
    ensures Output(ALL_ONES) == HALF - 1
  {
    AllOnesXor();
    AllOnesShifted();
    var xorshifted := Xor(ALL_ONES / 0x4_0000, ALL_ONES) / 0x800_0000 % HALF;
    assert xorshifted == 0xFFFF_FFFF;
    assert Output(ALL_ONES) == RotateRight(xorshifted, 0);
  }

  /** From every state an accepted draw comes after finitely many. */
  lemma SamplingEnds(state: nat, threshold: nat) returns (k: nat)
    requires state < WORD && threshold < HALF
    ensures Output(After(state, k)) >= threshold
  {
    k := ReachState(state, ALL_ONES);
    AllOnesDraw();
  }

  lemma TopBit()
    ensures Pow2(31) == 0x8000_0000
  {
    assert Pow2(8) == 256 && Pow2(7) == 128;
    Pow2Adds(8, 8);
    Pow2Adds(16, 8);
    Pow2Adds(24, 7);
  }

  /** One bit round: what it does to the two parts of a word, and to the parts swapped. */
  lemma BitMoves(x: nat, k: nat, m: nat, p: nat, q: nat)
    requires x == k * (2 * p) + m && p * q == 0x8000_0000
    ensures x / 2 + x % 2 * 0x8000_0000 == (k + m % 2 * q) * p + m / 2
    ensures k + m % 2 * q + m / 2 * (2 * q) == k + m * q
  {
    var b, h := m % 2, m / 2;
    assert k * (2 * p) == 2 * (k * p);
    assert x / 2 == k * p + h && x % 2 == b;
    assert (k + b * q) * p == k * p + (b * q) * p;
    assert (b * q) * p == b * (p * q);
    assert m * q == (2 * h) * q + b * q;
    assert (2 * h) * q == h * (2 * q);
  }

  /** Rotating a word right by r swaps its low r bits, m, with the rest, k. */
  lemma {:induction false} RotateSwaps(x: nat, r: nat, k: nat, m: nat)
    requires x < HALF && r <= 32 && x == k * Pow2(r) + m && m < Pow2(r)
    ensures RotateRight(x, r) == k + m * Pow2(32 - r)
    decreases r
  {
    if r > 0 {
      var p, q := Pow2(r - 1), Pow2(32 - r);
      Pow2Adds(r - 1, 32 - r);
      TopBit();
      BitMoves(x, k, m, p, q);
      RotateSwaps(x / 2 + x % 2 * 0x8000_0000, r - 1, k + m % 2 * q, m / 2);
      assert Pow2(32 - (r - 1)) == 2 * q;
    }
  }

  /** Draw k is the first one accepted, counting from a state. */
  ghost predicate FirstAccepted(state: nat, threshold: nat, k: nat) {
    && threshold <= Output(After(state, k))
    && forall j :: 0 <= j < k ==> Output(After(state, j)) < threshold
  }

  function Residue(v: nat, n: nat): (r: nat)
    requires n > 0
    ensures r < n && r == v % n
  {
    v % n
  }

  class Rng {
    var state: nat
    const seed: nat

    ghost predicate Valid() reads this { state < WORD }

    constructor (seed: nat)
      requires seed < WORD
      ensures Valid() && this.seed == seed
      ensures state == Advance((seed + INCREMENT) % WORD)
    {
      this.seed := seed;
      state := Advance((seed + INCREMENT) % WORD);
    }

    method NextU32() returns (v: nat)
      requires Valid()
      modifies this
      ensures Valid() && state == Advance(old(state))
      ensures v == Output(old(state))
    {
      var before := state;
      state := Advance(before);
      v := Output(before);
    }

    /** The sampling loop: draws until one reaches the threshold. It ends from every state. */
    method DrawAtLeast(threshold: nat) returns (v: nat, ghost draws: nat)
      requires Valid() && threshold < HALF
      modifies this
      ensures Valid() && FirstAccepted(old(state), threshold, draws)
      ensures v == Output(After(old(state), draws)) && state == After(old(state), draws + 1)
    {
      draws := 0;
      ghost var last := SamplingEnds(state, threshold);
      while true
        invariant Valid() && draws <= last && state == After(old(state), draws)
        invariant forall j :: 0 <= j < draws ==> Output(After(old(state), j)) < threshold
        decreases last - draws
      {
        v := NextU32();
        if v >= threshold {
          return;
        }
        draws := draws + 1;
      }
    }

    /** A number below n by rejection sampling, or 0 when n is 0. */
    method Below(n: nat) returns (r: nat, ghost draws: nat)
      requires Valid() && n < HALF
      modifies this
      ensures Valid()
      ensures n == 0 ==> r == 0 && state == old(state)
      ensures n > 0 ==>
        && FirstAccepted(old(state), Threshold(n), draws)
        && r < n && r == Residue(Output(After(old(state), draws)), n)
        && state == After(old(state), draws + 1)
    {
      draws := 0;
      if n == 0 {
        return 0, 0;
      }
      var v;
      v, draws := DrawAtLeast(Threshold(n));
      r := Residue(v, n);
    }

    /** A number in low..=high; low if the range is inverted. */
    method Range(low: nat, high: nat) returns (r: nat)
      requires Valid() && low < HALF && high < HALF && high - low + 1 < HALF
      modifies this
      ensures Valid()
      ensures if high <= low then r == low && state == old(state) else low <= r <= high
    {
      if high <= low {
        return low;
      }
      ghost var draws;
      r, draws := Below(high - low + 1);
      r := low + r;
    }
  }

  // ----- exact uniformity -----

  /** The 32-bit draws at or above the threshold that are reduced to r. */
  ghost function Accepted(n: nat, threshold: nat, r: nat): set<nat>
    requires n > 0
  {
    set v: nat | threshold <= v < HALF && v % n == r
  }

  ghost function Multiples(n: nat, r: nat, lo: nat, count: nat): set<nat> {
    set j: nat | lo <= j < lo + count :: r + n * j
  }

  lemma MultiplesPush(n: nat, r: nat, lo: nat, count: nat)
    requires n > 0 && count > 0
    ensures var top := r + n * (lo + count - 1);
      Multiples(n, r, lo, count) == Multiples(n, r, lo, count - 1) + {top} && top !in Multiples(n, r, lo, count - 1)
  {
    forall j: nat | lo <= j < lo + count - 1 ensures r + n * j < r + n * (lo + count - 1) {
      MulMonotone(n, j, lo + count - 1);
    }
  }

  lemma {:induction false} MultiplesCount(n: nat, r: nat, lo: nat, count: nat)
    requires n > 0
    ensures |Multiples(n, r, lo, count)| == count
  {
    if count == 0 {
      assert Multiples(n, r, lo, 0) == {};
    } else {
      MultiplesCount(n, r, lo, count - 1);
      MultiplesPush(n, r, lo, count);
    }
  }

  lemma MulMonotone(n: nat, a: nat, b: nat)
    requires n > 0 && a < b
    ensures n * a + n <= n * b
  {
    assert n * b == n * a + n * (b - a);
    assert n * (b - a) == n + n * (b - a - 1);
  }

  lemma ThresholdIsRemainder(n: nat)
    requires 0 < n < HALF
    ensures HALF == (HALF / n) * n + Threshold(n) && Threshold(n) < n
  {
    var q, t := (HALF - n) / n, (HALF - n) % n;
    assert HALF == (q + 1) * n + t by {
      assert (q + 1) * n == q * n + n;
    }
    DivUnique(HALF, n, q + 1, t);
  }

  lemma DivUnique(a: nat, n: nat, q: nat, t: nat)
    requires n > 0 && t < n && a == q * n + t
    ensures a / n == q && a % n == t
  {
    var q', t' := a / n, a % n;
    if q < q' {
      MulMonotone(n, q, q');
    } else if q' < q {
      MulMonotone(n, q', q);
    }
  }

  /** Every residue below n is produced by the same number of accepted draws, floor(2^32 / n). */
  lemma Unbiased(n: nat, r: nat)
    requires 0 < n < HALF && r < n
    ensures |Accepted(n, Threshold(n), r)| == HALF / n
  {
    ThresholdIsRemainder(n);
    var q, t := HALF / n, Threshold(n);
    var lo := if r < t then 1 else 0;
    forall v: nat ensures v in Accepted(n, t, r) <==> v in Multiples(n, r, lo, q) {
      AcceptedIsMultiple(n, r, v, q, t, lo);
    }
    assert Accepted(n, t, r) == Multiples(n, r, lo, q);
    MultiplesCount(n, r, lo, q);
  }

  lemma AcceptedIsMultiple(n: nat, r: nat, v: nat, q: nat, t: nat, lo: nat)
    requires 0 < n < HALF && r < n && t < n && HALF == q * n + t
    requires lo == if r < t then 1 else 0
    ensures v in Accepted(n, t, r) <==> v in Multiples(n, r, lo, q)
  {
    if v in Accepted(n, t, r) {
      AcceptedQuotient(n, r, v, q, t, lo);
      assert v == r + n * (v / n);
    }
    if v in Multiples(n, r, lo, q) {
      var j: nat :| lo <= j < lo + q && v == r + n * j;
      assert HALF == n * q + t;
      MultipleInRange(n, r, v, j, q, t, lo);
    }
  }

  lemma AcceptedQuotient(n: nat, r: nat, v: nat, q: nat, t: nat, lo: nat)
    requires 0 < n < HALF && r < n && t < n && HALF == q * n + t
    requires lo == (if r < t then 1 else 0) && t <= v < HALF && v % n == r
    ensures lo <= v / n < lo + q && v == r + n * (v / n)
  {
    var j := v / n;
    QuotientForm(v, n);
    if j >= lo + q {
      MulAtLeast(n, lo + q, j);
      DistributeMul(n, lo, q);
    }
  }

  lemma MultipleRemainder(n: nat, r: nat, v: nat, j: nat)
    requires r < n && v == r + n * j
    ensures v % n == r
  {
    assert v == j * n + r;
    DivUnique(v, n, j, r);
  }

  lemma MultipleBounds(n: nat, j: nat, q: nat, lo: nat)
    requires lo <= 1 && lo <= j < lo + q
    ensures var base := if lo == 1 then n else 0; base <= n * j && n * j + n <= base + n * q
  {
    MulAtLeast(n, j + 1, lo + q);
    DistributeMul(n, j, 1);
    DistributeMul(n, lo, q);
    MulAtLeast(n, lo, j);
  }

  lemma MultipleInRange(n: nat, r: nat, v: nat, j: nat, q: nat, t: nat, lo: nat)
    requires 0 < n < HALF && r < n && t < n && HALF == n * q + t
    requires lo == (if r < t then 1 else 0) && lo <= j < lo + q && v == r + n * j
    ensures t <= v < HALF && v % n == r
  {
    MultipleRemainder(n, r, v, j);
    MultipleBounds(n, j, q, lo);
    BetweenBounds(n, r, t, n * j, n * q);
  }

  lemma BetweenBounds(n: nat, r: nat, t: nat, nj: nat, nq: nat)
    requires r < n && t < n && HALF == nq + t
    requires var base := if r < t then n else 0; base <= nj && nj + n <= base + nq
    ensures t <= r + nj < HALF
  {
  }

  lemma QuotientForm(v: nat, n: nat)
    requires n > 0
    ensures v == v % n + n * (v / n)
  {
  }

  lemma DistributeMul(n: nat, a: nat, b: nat)
    ensures n * (a + b) == n * a + n * b
  {
  }

  lemma MulAtLeast(n: nat, a: nat, b: nat)
    requires a <= b
    ensures n * a <= n * b
  {
    assert n * b == n * a + n * (b - a);
  }
}
