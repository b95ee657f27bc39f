/** The linear congruential generator behind `DeterministicRNG`.

    `next_u64` replaces its state `x` by `a * x + c` modulo 2^64, with a multiplier that is
    1 modulo 4 and an odd increment. The module proves that this makes one single cycle
    through all 2^64 states, by induction on the exponent of the modulus, and that the shuffle
    fed by it can make each arrangement in exactly one way.
 */
module Lcg {

  const MULTIPLIER := 6364136223846793005
  const INCREMENT := 1442695040888963407
  const TWO_TO_THE_64 := 0x1_0000_0000_0000_0000

  type U64 = x: int | 0 <= x < TWO_TO_THE_64

  /** One wrapping multiply-and-add on 64-bit words. */
  function Step(x: U64): U64 {
    (x * MULTIPLIER + INCREMENT) % TWO_TO_THE_64
  }

  /** The state after `n` calls of `next_u64`; the n-th call also returns it. */
  function Draw(seed: U64, n: nat): U64 {
    if n == 0 then seed else Step(Draw(seed, n - 1))
  }

  function Pow2(k: nat): (p: nat)
    ensures p >= 1
  {
    if k == 0 then 1 else 2 * Pow2(k - 1)
  }

  /** The orbit over the unbounded integers. */
  function Raw(x: int, n: nat): int {
    if n == 0 then x else MULTIPLIER * Raw(x, n - 1) + INCREMENT
  }

  function Factor(n: nat): int {
    if n == 0 then 1 else MULTIPLIER * Factor(n - 1)
  }

  // ------------------------------------------------------------------------
  // The orbit over the integers
  // ------------------------------------------------------------------------

  lemma {:induction false} RawAdds(x: int, m: nat, n: nat)
    ensures Raw(x, m + n) == Raw(Raw(x, m), n)
  {
    if n > 0 {
      RawAdds(x, m, n - 1);
      assert m + n - 1 == m + (n - 1);
    }
  }

  /** After `n` steps the orbit is an affine image of its start. */
  lemma {:induction false} RawIsAffine(x: int, n: nat)
    ensures Raw(x, n) == Factor(n) * x + Raw(0, n)
  {
    if n > 0 {
      RawIsAffine(x, n - 1);
      var f, r := Factor(n - 1), Raw(0, n - 1);
      assert MULTIPLIER * (f * x + r) == (MULTIPLIER * f) * x + MULTIPLIER * r;
    }
  }

  lemma {:induction false} FactorAdds(m: nat, n: nat)
    ensures Factor(m + n) == Factor(m) * Factor(n)
  {
    if n > 0 {
      FactorAdds(m, n - 1);
      assert m + n - 1 == m + (n - 1);
      var f, g := Factor(m), Factor(n - 1);
      assert MULTIPLIER * (f * g) == f * (MULTIPLIER * g);
    }
  }

  lemma SquareStep(p: int, u: int)
    ensures (1 + 4 * p * u) * (1 + 4 * p * u) == 1 + 4 * (2 * p) * (u + 2 * p * u * u)
  {
    var w := p * u;
    assert 4 * p * u == 4 * w;
    assert (1 + 4 * w) * (1 + 4 * w) == 1 + 8 * w + 16 * (w * w);
    assert w * w == p * (p * u * u) by {
      assert w * w == (p * u) * (p * u) == p * (u * (p * u)) == p * (p * u * u);
    }
    var z := p * u * u;
    assert 4 * (2 * p) * (u + 2 * z) == 8 * (p * u) + 16 * (p * z);
    assert 2 * p * u * u == 2 * z;
  }

  lemma DoubleStep(p: int, u: int, s: int)
    ensures (1 + 4 * p * u) * (p * (2 * s + 1)) + p * (2 * s + 1)
         == (2 * p) * (2 * (s + 2 * s * (p * u) + p * u) + 1)
  {
    var w := p * u;
    assert 4 * p * u == 4 * w;
    var o := 2 * s + 1;
    var q := p * o;
    assert (1 + 4 * w) * q + q == 2 * q + 4 * (w * q);
    assert w * q == p * (w * o);
    assert w * o == 2 * (s * w) + w;
    assert 2 * s * w == 2 * (s * w);
    var e := s + 2 * (s * w) + w;
    assert (2 * p) * (2 * e + 1) == p * (4 * e + 2);
    assert 2 * q + 4 * (p * (w * o)) == p * (2 * o + 4 * (w * o));
    assert 2 * o + 4 * (w * o) == 4 * e + 2;
  }

  /** The induction on the modulus: over 2^k steps the factor is 1 modulo 2^(k+2), and the
      offset is an odd multiple of 2^k. */
  lemma {:induction false} Doubling(k: nat) returns (u: int, s: int)
    ensures Factor(Pow2(k)) == 1 + 4 * Pow2(k) * u
    ensures Raw(0, Pow2(k)) == Pow2(k) * (2 * s + 1)
  {
    if k == 0 {
      u, s := MULTIPLIER / 4, INCREMENT / 2;
      assert Factor(1) == MULTIPLIER * Factor(0);
      assert Raw(0, 1) == MULTIPLIER * Raw(0, 0) + INCREMENT;
    } else {
      var p := Pow2(k - 1);
      var u0, s0 := Doubling(k - 1);
      assert Pow2(k) == p + p;
      FactorAdds(p, p);
      RawAdds(0, p, p);
      RawIsAffine(Raw(0, p), p);
      SquareStep(p, u0);
      DoubleStep(p, u0, s0);
      u := u0 + 2 * p * u0 * u0;
      s := s0 + 2 * s0 * (p * u0) + p * u0;
    }
  }

  /** 2^k steps move every start by an odd multiple of 2^k. */
  lemma Jump(x: int, k: nat) returns (t: int)
    ensures Raw(x, Pow2(k)) == x + Pow2(k) * (2 * t + 1)
  {
    var p := Pow2(k);
    var u, s := Doubling(k);
    RawIsAffine(x, p);
    t := 2 * (u * x) + s;
    assert (1 + 4 * p * u) * x == x + p * (4 * (u * x)) by {
      assert 4 * p * u * x == p * (4 * (u * x));
    }
    assert p * (4 * (u * x)) + p * (2 * s + 1) == p * (2 * t + 1);
  }

  /** `q` times `p`, by addition. */
  function Times(q: nat, p: nat): nat {
    if q == 0 then 0 else Times(q - 1, p) + p
  }

  lemma {:induction false} TimesIsProduct(q: nat, p: nat)
    ensures Times(q, p) == q * p
  {
    if q > 0 { TimesIsProduct(q - 1, p); Distribute(p, q - 1, 1); }
  }

  lemma {:induction false} JumpMany(x: int, k: nat, q: nat) returns (w: int)
    ensures Raw(x, Times(q, Pow2(k))) == x + Pow2(k) * w && w % 2 == q % 2
  {
    hide Pow2, Raw;
    if q == 0 {
      w := 0;
      NoSteps(x, k);
    } else {
      var w0 := JumpMany(x, k, q - 1);
      w := JumpOnce(x, k, Times(q - 1, Pow2(k)), w0);
    }
  }

  lemma NoSteps(x: int, k: nat)
    ensures Raw(x, Times(0, Pow2(k))) == x
  {
    hide Pow2;
  }

  lemma JumpOnce(x: int, k: nat, m: nat, w0: int) returns (w: int)
    requires Raw(x, m) == x + Pow2(k) * w0
    ensures Raw(x, m + Pow2(k)) == x + Pow2(k) * w && w % 2 != w0 % 2
  {
    hide *;
    var t := Jump(Raw(x, m), k);
    RawAdds(x, m, Pow2(k));
    w := w0 + (2 * t + 1);
    Accumulate(x, Pow2(k), w0, 2 * t + 1, Raw(x, m), Raw(x, m + Pow2(k)));
  }

  lemma Accumulate(x: int, p: int, a: int, b: int, y: int, z: int)
    requires y == x + p * a && z == y + p * b
    ensures z == x + p * (a + b)
  {
    Distribute(p, a, b);
  }

  lemma Distribute(p: int, a: int, b: int)
    ensures p * a + p * b == p * (a + b)
    ensures a * p + b * p == (a + b) * p
  {
  }

  // ------------------------------------------------------------------------
  // Reduction modulo 2^k
  // ------------------------------------------------------------------------

  ghost predicate Congruent(x: int, y: int, m: int)
    requires m > 0
  {
    exists q :: x == y + m * q
  }

  lemma CongruentWhenReduced(x: int, y: int, m: int)
    requires m > 0
    ensures Congruent(x, y, m) <==> x % m == y % m
  {
    if x % m == y % m {
      assert x == m * (x / m) + x % m && y == m * (y / m) + y % m;
      assert x == y + m * (x / m - y / m);
    }
    if Congruent(x, y, m) {
      var q :| x == y + m * q;
      ModShift(y, q, m);
    }
  }

  lemma MultiplesAreFar(m: int, d: int)
    requires m > 0
    ensures d >= 1 ==> m * d >= m
    ensures d <= -1 ==> m * d <= -m
  {
  }

  lemma ModShift(y: int, q: int, m: int)
    requires m > 0
    ensures (y + m * q) % m == y % m
  {
    var x := y + m * q;
    assert x == m * (x / m) + x % m && y == m * (y / m) + y % m;
    var d := x / m - y / m - q;
    assert m * d == y % m - x % m by {
      assert m * d == m * (x / m) - m * (y / m) - m * q;
    }
    assert d == 0 by {
      MultiplesAreFar(m, d);
    }
  }

  lemma MultipleAtEvenFactor(p: int, w: int)
    requires p > 0
    ensures Congruent(p * w, 0, 2 * p) <==> w % 2 == 0
  {
    if w % 2 == 0 {
      assert p * w == 0 + (2 * p) * (w / 2);
    }
    if Congruent(p * w, 0, 2 * p) {
      var q :| p * w == 0 + (2 * p) * q;
      assert p * (w - 2 * q) == 0;
      assert w == 2 * q;
    }
  }

  lemma HalveModulus(x: int, y: int, p: int)
    requires p > 0 && Congruent(x, y, 2 * p)
    ensures Congruent(x, y, p)
  {
    var q :| x == y + (2 * p) * q;
    assert x == y + p * (2 * q);
  }

  /** The orbit is back at its start, modulo 2^k, exactly after the multiples of 2^k. */
  lemma {:induction false} ReturnsExactlyAtMultiples(x: int, d: nat, k: nat)
    ensures Congruent(Raw(x, d), x, Pow2(k)) <==> d % Pow2(k) == 0
  {
    if k == 0 {
      assert Raw(x, d) == x + 1 * (Raw(x, d) - x);
    } else {
      var p := Pow2(k - 1);
      ReturnsExactlyAtMultiples(x, d, k - 1);
      CongruentWhenReduced(d, 0, p);
      CongruentWhenReduced(d, 0, 2 * p);
      if d % p == 0 {
        var q := d / p;
        assert d == q * p;
        TimesIsProduct(q, p);
        var w := JumpMany(x, k - 1, q);
        ShiftCongruence(Raw(x, d), x, p * w, 2 * p);
        MultipleAtEvenFactor(p, w);
        MultipleAtEvenFactor(p, q);
        assert q * p == p * q;
      } else {
        if d % (2 * p) == 0 { HalveModulus(d, 0, p); }
        if Congruent(Raw(x, d), x, 2 * p) { HalveModulus(Raw(x, d), x, p); }
      }
    }
  }

  lemma ShiftCongruence(y: int, x: int, e: int, m: int)
    requires m > 0 && y == x + e
    ensures Congruent(y, x, m) <==> Congruent(e, 0, m)
  {
    if Congruent(y, x, m) { var q :| y == x + m * q; assert e == 0 + m * q; }
    if Congruent(e, 0, m) { var q :| e == 0 + m * q; assert y == x + m * q; }
  }

  lemma TwoOddMultiples(p: int, w: int, t: int)
    requires w % 2 == 1
    ensures p * w + p * (2 * t + 1) == (2 * p) * ((w + 1) / 2 + t)
  {
    assert w + (2 * t + 1) == 2 * ((w + 1) / 2 + t);
    assert p * w + p * (2 * t + 1) == p * (w + (2 * t + 1));
  }

  /** Every residue modulo 2^k is met within the first 2^k steps. */
  lemma {:induction false} MeetsEveryResidue(x: int, y: int, k: nat) returns (n: nat)
    ensures n < Pow2(k) && Congruent(Raw(x, n), y, Pow2(k))
  {
    if k == 0 {
      n := 0;
      assert x == y + 1 * (x - y);
    } else {
      var p := Pow2(k - 1);
      var r := MeetsEveryResidue(x, y, k - 1);
      n := MeetsDoubled(x, y, k - 1, r);
    }
  }

  lemma CongruentBy(x: int, y: int, m: int, q: int)
    requires m > 0 && x == y + m * q
    ensures Congruent(x, y, m)
  {
  }

  /** A residue that is met modulo 2^k is met modulo 2^(k+1) at once or 2^k draws later. */
  lemma MeetsDoubled(x: int, y: int, k: nat, r: nat) returns (n: nat)
    requires r < Pow2(k) && Congruent(Raw(x, r), y, Pow2(k))
    ensures n < 2 * Pow2(k) && Congruent(Raw(x, n), y, 2 * Pow2(k))
  {
    hide Pow2, Raw;
    var p := Pow2(k);
    var w :| Raw(x, r) == y + p * w;
    if w % 2 == 0 {
      n := r;
      MultipleAtEvenFactor(p, w);
      CongruentBy(Raw(x, n), y, 2 * p, w / 2);
    } else {
      var t := Jump(Raw(x, r), k);
      RawAdds(x, r, p);
      TwoOddMultiples(p, w, t);
      n := r + p;
      CongruentBy(Raw(x, n), y, 2 * p, (w + 1) / 2 + t);
    }
  }

  // ------------------------------------------------------------------------
  // The 64-bit generator
  // ------------------------------------------------------------------------

  lemma Pow2At64()
    ensures Pow2(64) == TWO_TO_THE_64
  {
    assert Pow2(8) == 0x100;
    hide Pow2;
    Pow2Adds(8, 8);
    Pow2Adds(16, 16);
    Pow2Adds(32, 32);
  }

  lemma {:induction false} Pow2Adds(m: nat, n: nat)
    ensures Pow2(m + n) == Pow2(m) * Pow2(n)
  {
    if n > 0 { Pow2Adds(m, n - 1); }
  }

  lemma {:induction false} DrawIsReducedRaw(seed: U64, n: nat)
    ensures Draw(seed, n) == Raw(seed, n) % TWO_TO_THE_64
  {
    if n > 0 {
      DrawIsReducedRaw(seed, n - 1);
      var r, m := Raw(seed, n - 1), TWO_TO_THE_64;
      assert r == m * (r / m) + r % m;
      ModShift((r % m) * MULTIPLIER + INCREMENT, (r / m) * MULTIPLIER, m);
      assert (r % m) * MULTIPLIER + INCREMENT + m * ((r / m) * MULTIPLIER) == MULTIPLIER * r + INCREMENT by {
        assert MULTIPLIER * r == MULTIPLIER * (m * (r / m)) + MULTIPLIER * (r % m);
      }
    }
  }

  lemma {:induction false} DrawAdds(seed: U64, m: nat, n: nat)
    ensures Draw(seed, m + n) == Draw(Draw(seed, m), n)
  {
    if n > 0 { DrawAdds(seed, m, n - 1); assert m + n - 1 == m + (n - 1); }
  }

  lemma ComesBackExactlyAtMultiples(x: U64, d: nat)
    ensures Draw(x, d) == x <==> d % TWO_TO_THE_64 == 0
  {
    DrawIsReducedRaw(x, d);
    Pow2At64();
    ReturnsExactlyAtMultiples(x, d, 64);
    CongruentWhenReduced(Raw(x, d), x, TWO_TO_THE_64);
  }

  /** Two draws from one seed are equal exactly when their positions differ by a multiple of
      2^64: the period is full from every seed. */
  lemma FullPeriod(seed: U64, i: nat, j: nat)
    ensures Draw(seed, i) == Draw(seed, j) <==> i % TWO_TO_THE_64 == j % TWO_TO_THE_64
  {
    if i > j {
      FullPeriod(seed, j, i);
    } else {
      var d := j - i;
      DrawAdds(seed, i, d);
      ComesBackExactlyAtMultiples(Draw(seed, i), d);
      CongruentWhenReduced(d, 0, TWO_TO_THE_64);
      CongruentWhenReduced(j, i, TWO_TO_THE_64);
      ShiftCongruence(j, i, d, TWO_TO_THE_64);
    }
  }

  lemma PositionOf(seed: U64, word: U64) returns (n: nat)
    ensures 1 <= n <= TWO_TO_THE_64 && Draw(seed, n) == word
  {
    Pow2At64();
    var r := MeetsEveryResidue(seed, word, 64);
    CongruentWhenReduced(Raw(seed, r), word, TWO_TO_THE_64);
    DrawIsReducedRaw(seed, r);
    n := if r == 0 then TWO_TO_THE_64 else r;
    FullPeriod(seed, n, r);
  }

  /** From any seed, the first 2^64 draws return every 64-bit word exactly once. */
  lemma EveryWordExactlyOnce(seed: U64, word: U64) returns (n: nat)
    ensures 1 <= n <= TWO_TO_THE_64
    ensures forall i | 1 <= i <= TWO_TO_THE_64 :: Draw(seed, i) == word <==> i == n
  {
    n := PositionOf(seed, word);
    forall i | 1 <= i <= TWO_TO_THE_64
      ensures Draw(seed, i) == word <==> i == n
    {
      DrawsDifferWithinAPeriod(seed, i, n);
    }
  }

  lemma DrawsDifferWithinAPeriod(seed: U64, i: nat, n: nat)
    requires 1 <= i <= TWO_TO_THE_64 && 1 <= n <= TWO_TO_THE_64
    ensures Draw(seed, i) == Draw(seed, n) <==> i == n
  {
    FullPeriod(seed, i, n);
    ResidueWithinAPeriod(i);
    ResidueWithinAPeriod(n);
  }

  lemma ResidueWithinAPeriod(i: nat)
    requires 1 <= i <= TWO_TO_THE_64
    ensures i % TWO_TO_THE_64 == if i == TWO_TO_THE_64 then 0 else i
  {
  }

  /** `next_u64` loses no state: different states have different successors. */
  lemma StepIsInjective(x: U64, y: U64)
    requires Step(x) == Step(y)
    ensures x == y
  {
    var m := TWO_TO_THE_64;
    var i := PositionOf(0, x);
    var j := PositionOf(0, y);
    assert Draw(0, i + 1) == Draw(0, j + 1);
    FullPeriod(0, i + 1, j + 1);
    CongruentWhenReduced(i + 1, j + 1, m);
    var q :| i + 1 == j + 1 + m * q;
    assert i == j + m * q;
    CongruentWhenReduced(i, j, m);
    FullPeriod(0, i, j);
  }

  /** Every word is the successor of some state. */
  lemma StepIsSurjective(y: U64) returns (x: U64)
    ensures Step(x) == y
  {
    var n := PositionOf(0, y);
    x := Draw(0, n - 1);
  }

  // ------------------------------------------------------------------------
  // Shuffling
  // ------------------------------------------------------------------------

  function Swapped<T>(s: seq<T>, i: nat, j: nat): (r: seq<T>)
    requires i < |s| && j < |s|
    ensures |r| == |s|
  {
    s[i := s[j]][j := s[i]]
  }

  /** Fisher-Yates from position `i` down to 1: one draw for each position. */
  function Shuffled<T>(s: seq<T>, i: nat, state: U64): (r: seq<T>)
    requires i == 0 || i < |s|
    ensures |r| == |s|
    decreases i
  {
    if i == 0 then s
    else
      var next := Step(state);
      Shuffled(Swapped(s, i, next % (i + 1)), i - 1, next)
  }

  lemma SwapKeepsElements<T>(s: seq<T>, i: nat, j: nat)
    requires i < |s| && j < |s|
    ensures multiset(Swapped(s, i, j)) == multiset(s)
  {
  }

  lemma {:induction false} ShuffleKeepsElements<T>(s: seq<T>, i: nat, state: U64)
    requires i == 0 || i < |s|
    ensures multiset(Shuffled(s, i, state)) == multiset(s)
    decreases i
  {
    if i > 0 {
      var next := Step(state);
      SwapKeepsElements(s, i, next % (i + 1));
      ShuffleKeepsElements(Swapped(s, i, next % (i + 1)), i - 1, next);
    }
  }

  // ------------------------------------------------------------------------
  // The arrangements a shuffle can produce
  // ------------------------------------------------------------------------

  /** One pick for each position from `i` down to 1, among the positions up to it. */
  predicate Picks(picks: seq<nat>, i: nat) {
    |picks| == i && forall k | 0 <= k < i :: picks[k] <= i - k
  }

  /** The shuffle with its picks given. */
  function ShuffledBy<T>(s: seq<T>, i: nat, picks: seq<nat>): (r: seq<T>)
    requires (i == 0 || i < |s|) && Picks(picks, i)
    ensures |r| == |s| && multiset(r) == multiset(s)
    decreases i
  {
    if i == 0 then s
    else
      SwapKeepsElements(s, i, picks[0]);
      ShuffledBy(Swapped(s, i, picks[0]), i - 1, picks[1..])
  }

  /** Each pick is the next draw modulo the number of positions. */
  function DrawnPicks(state: U64, i: nat): (picks: seq<nat>)
    ensures Picks(picks, i)
  {
    seq(i, k requires 0 <= k < i => Draw(state, k + 1) % (i - k + 1))
  }

  lemma PicksGoOn(state: U64, i: nat)
    requires i > 0
    ensures DrawnPicks(state, i)[0] == Step(state) % (i + 1)
    ensures DrawnPicks(state, i)[1..] == DrawnPicks(Step(state), i - 1)
  {
    hide Step;
    var next, picks := Step(state), DrawnPicks(state, i);
    assert Draw(state, 1) == Step(Draw(state, 0)) == next;
    forall k | 0 <= k < i - 1 ensures picks[1..][k] == DrawnPicks(next, i - 1)[k] {
      DrawAdds(state, 1, k + 1);
      assert 1 + (k + 1) == k + 1 + 1;
    }
  }

  lemma {:induction false} ShuffleIsByPicks<T>(s: seq<T>, i: nat, state: U64)
    requires i == 0 || i < |s|
    ensures Shuffled(s, i, state) == ShuffledBy(s, i, DrawnPicks(state, i))
    decreases i
  {
    hide Step, DrawnPicks, Swapped;
    if i > 0 {
      PicksGoOn(state, i);
      ShuffleIsByPicks(Swapped(s, i, Step(state) % (i + 1)), i - 1, Step(state));
    }
  }

  lemma {:induction false} LaterStay<T>(s: seq<T>, i: nat, picks: seq<nat>, k: nat)
    requires i < k < |s| && Picks(picks, i)
    ensures ShuffledBy(s, i, picks)[k] == s[k]
    decreases i
  {
    if i > 0 { LaterStay(Swapped(s, i, picks[0]), i - 1, picks[1..], k); }
  }

  lemma SameSoFar<T>(s: seq<T>, t: seq<T>, i: nat)
    requires i < |s| == |t| && multiset(s) == multiset(t) && s[i + 1..] == t[i + 1..]
    ensures multiset(s[..i + 1]) == multiset(t[..i + 1])
  {
    assert s == s[..i + 1] + s[i + 1..] && t == t[..i + 1] + t[i + 1..];
    var a, b, c := multiset(s[..i + 1]), multiset(t[..i + 1]), multiset(s[i + 1..]);
    assert multiset(s) == a + c && multiset(t) == b + c;
    forall x ensures a[x] == b[x] {
      assert multiset(s)[x] == a[x] + c[x] && multiset(t)[x] == b[x] + c[x];
    }
  }

  lemma PickFor<T>(s: seq<T>, t: seq<T>, i: nat) returns (j: nat)
    requires i < |s| == |t| && multiset(s) == multiset(t) && s[i + 1..] == t[i + 1..]
    ensures j <= i && s[j] == t[i]
  {
    SameSoFar(s, t, i);
    assert t[..i + 1][i] == t[i];
    assert t[i] in multiset(t[..i + 1]);
    assert t[i] in s[..i + 1];
    j :| j <= i && s[..i + 1][j] == t[i];
  }

  lemma {:induction false} ArrangementIsPicked<T>(s: seq<T>, t: seq<T>, i: nat) returns (picks: seq<nat>)
    requires i < |s| == |t| && multiset(s) == multiset(t) && s[i + 1..] == t[i + 1..]
    ensures Picks(picks, i) && ShuffledBy(s, i, picks) == t
    decreases i
  {
    hide Swapped;
    var j := PickFor(s, t, i);
    picks := [];
    if i == 0 {
      assert s == [s[0]] + s[1..] && t == [t[0]] + t[1..];
    } else {
      SwapKeepsElements(s, i, j);
      SwapBrings(s, t, i, j);
      var rest := ArrangementIsPicked(Swapped(s, i, j), t, i - 1);
      picks := [j] + rest;
      assert picks[1..] == rest;
    }
  }

  lemma SwapBrings<T>(s: seq<T>, t: seq<T>, i: nat, j: nat)
    requires j <= i < |s| == |t| && s[j] == t[i] && s[i + 1..] == t[i + 1..]
    ensures Swapped(s, i, j)[i] == t[i] && Swapped(s, i, j)[i..] == t[i..]
  {
    forall k | i < k < |s| ensures Swapped(s, i, j)[k] == t[k] {
      assert s[i + 1..][k - i - 1] == s[k] && t[i + 1..][k - i - 1] == t[k];
    }
  }

  predicate Different<T(==)>(s: seq<T>) {
    forall a, b | 0 <= a < b < |s| :: s[a] != s[b]
  }

  lemma SwappedStayDifferent<T>(s: seq<T>, i: nat, j: nat)
    requires Different(s) && i < |s| && j < |s|
    ensures Different(Swapped(s, i, j)) && Swapped(s, i, j)[i] == s[j]
  {
  }

  lemma {:induction false} PicksAreDetermined<T>(s: seq<T>, i: nat, p: seq<nat>, q: seq<nat>)
    requires (i == 0 || i < |s|) && Picks(p, i) && Picks(q, i) && ShuffledBy(s, i, p) == ShuffledBy(s, i, q)
    requires Different(s)
    ensures p == q
    decreases i
  {
    hide Swapped;
    if i > 0 {
      SwappedStayDifferent(s, i, p[0]);
      SwappedStayDifferent(s, i, q[0]);
      LaterStay(Swapped(s, i, p[0]), i - 1, p[1..], i);
      LaterStay(Swapped(s, i, q[0]), i - 1, q[1..], i);
      assert s[p[0]] == s[q[0]];
      PicksAreDetermined(Swapped(s, i, p[0]), i - 1, p[1..], q[1..]);
      assert p == [p[0]] + p[1..] && q == [q[0]] + q[1..];
    }
  }

  /** These picks make the one sequence of the other. */
  predicate Makes<T(==)>(s: seq<T>, picks: seq<nat>, t: seq<T>)
    requires s != []
  {
    Picks(picks, |s| - 1) && ShuffledBy(s, |s| - 1, picks) == t
  }

  /** Every arrangement of different elements comes of exactly one sequence of picks, and a shuffle
      makes it exactly when these are the ones that it draws. */
  lemma EveryArrangementOnce<T>(s: seq<T>, t: seq<T>, state: U64) returns (picks: seq<nat>)
    requires s != [] && multiset(t) == multiset(s) && Different(s)
    ensures Makes(s, picks, t) && forall q | Makes(s, q, t) :: q == picks
    ensures Shuffled(s, |s| - 1, state) == t <==> picks == DrawnPicks(state, |s| - 1)
  {
    hide Shuffled, ShuffledBy, DrawnPicks, Different;
    var i := |s| - 1;
    assert |t| == |multiset(t)| == |s|;
    assert s[i + 1..] == [] == t[i + 1..];
    picks := ArrangementIsPicked(s, t, i);
    forall q | Makes(s, q, t) ensures q == picks { PicksAreDetermined(s, i, q, picks); }
    ShuffleIsByPicks(s, i, state);
    assert Shuffled(s, i, state) == t ==> Makes(s, DrawnPicks(state, i), t);
  }

  /** The constants of the generator, by its first two outputs. */
  lemma KnownOutputs()
    ensures Draw(0, 1) == 1442695040888963407 && Draw(1, 1) == 7806831264735756412
  {
    assert Draw(0, 1) == Step(Draw(0, 0)) && Draw(1, 1) == Step(Draw(1, 0));
  }

  class DeterministicRNG {
    var state: U64

    constructor (seed: U64)
      ensures state == if seed == 0 then 1 else seed
    {
      state := if seed == 0 then 1 else seed;
    }

    method NextU64() returns (word: U64)
      modifies this
      ensures state == Draw(old(state), 1) && word == state
    {
      state := Step(state);
      word := state;
      assert Draw(old(state), 1) == Step(Draw(old(state), 0));
    }

    /** Shuffles in place; the elements are kept, and one draw is spent for each position
        but the first. */
    method Shuffle<T>(items: array<T>)
      modifies this, items
      ensures items.Length > 0 ==> items[..] == Shuffled(old(items[..]), items.Length - 1, old(state))
      ensures multiset(items[..]) == multiset(old(items[..]))
      ensures state == Draw(old(state), if items.Length == 0 then 0 else items.Length - 1)
    {
      hide Step;
      if items.Length == 0 { return; }
      ghost var n := items.Length - 1;
      var i := items.Length - 1;
      while i > 0
        invariant 0 <= i <= n && items.Length == n + 1
        invariant Shuffled(items[..], i, state) == Shuffled(old(items[..]), n, old(state))
        invariant state == Draw(old(state), n - i)
      {
        var word := NextU64();
        var j := word % (i + 1);
        ghost var before := items[..];
        items[i], items[j] := items[j], items[i];
        assert items[..] == Swapped(before, i, j);
        assert state == Draw(old(state), n - (i - 1));
        i := i - 1;
      }
      ShuffleKeepsElements(old(items[..]), n, old(state));
    }
  }
}
