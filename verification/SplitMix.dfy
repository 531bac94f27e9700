/** The workload's random numbers (SplitMix64 in matching_workload.hpp): the output mix is a bijection of
    64 bits, the state has full period, and so a bounded draw is exactly uniform and its rejection loop
    ends. */
module SplitMix {
  import opened Arithmetic

  const W: nat := WORD

  const GAMMA: nat := 0x9E37_79B9_7F4A_7C15
  const FIRST: nat := 0xBF58_476D_1CE4_E5B9
  const SECOND: nat := 0x94D0_49BB_1331_11EB

  /** Their inverses modulo 2^64. */
  const GAMMA_INVERSE: nat := 0xF1DE_83E1_9937_733D
  const FIRST_INVERSE: nat := 0x96DE_1B17_3F11_9089
  const SECOND_INVERSE: nat := 0x3196_42B2_D24D_8EC3

  // ---------- exclusive or and shifts ----------

  function Xor(x: nat, y: nat): nat {
    if x == 0 && y == 0 then 0 else 2 * Xor(x / 2, y / 2) + (x % 2 + y % 2) % 2
  }

  function Shifted(x: nat, k: nat): nat {
    if k == 0 then x else Shifted(x / 2, k - 1)
  }

  lemma XorHalf(x: nat, y: nat)
    ensures Xor(x, y) / 2 == Xor(x / 2, y / 2) && Xor(x, y) % 2 == (x % 2 + y % 2) % 2
  {
  }

  lemma {:induction false} XorZero(x: nat)
    ensures Xor(x, 0) == x
  {
    if x > 0 {
      XorZero(x / 2);
    }
  }

  lemma {:induction false} XorSelf(x: nat)
    ensures Xor(x, x) == 0
  {
    if x > 0 {
      XorSelf(x / 2);
    }
  }

  lemma {:induction false} XorCommutes(x: nat, y: nat)
    ensures Xor(x, y) == Xor(y, x)
    decreases x + y
  {
    if x + y > 0 {
      XorCommutes(x / 2, y / 2);
    }
  }

  lemma {:induction false} XorAssociates(x: nat, y: nat, z: nat)
    ensures Xor(Xor(x, y), z) == Xor(x, Xor(y, z))
    decreases x + y + z
  {
    hide Xor;
    XorZero(0);
    if x + y + z > 0 {
      XorAssociates(x / 2, y / 2, z / 2);
      XorHalf(x, y);
      XorHalf(y, z);
      XorHalf(Xor(x, y), z);
      XorHalf(x, Xor(y, z));
      OddSum(x, y, z);
    }
  }

  lemma OddSum(x: nat, y: nat, z: nat)
    ensures ((x % 2 + y % 2) % 2 + z % 2) % 2 == (x % 2 + (y % 2 + z % 2) % 2) % 2
  {
  }

  lemma XorCancels(x: nat, y: nat)
    ensures Xor(Xor(x, y), y) == x
  {
    XorAssociates(x, y, y);
    XorSelf(y);
    XorZero(x);
  }

  lemma {:induction false} XorShifted(x: nat, y: nat, k: nat)
    ensures Shifted(Xor(x, y), k) == Xor(Shifted(x, k), Shifted(y, k))
    decreases k
  {
    if k > 0 {
      XorHalf(x, y);
      XorShifted(x / 2, y / 2, k - 1);
    }
  }

  lemma {:induction false} XorBounded(x: nat, y: nat, k: nat)
    requires x < Pow2(k) && y < Pow2(k)
    ensures Xor(x, y) < Pow2(k)
    decreases k
  {
    if k > 0 {
      XorBounded(x / 2, y / 2, k - 1);
    }
  }

  lemma {:induction false} ShiftedShrinks(x: nat, k: nat)
    ensures Shifted(x, k) <= x
    ensures k > 0 && x > 0 ==> Shifted(x, k) < x
    decreases k
  {
    if k > 0 {
      ShiftedShrinks(x / 2, k - 1);
    }
  }

  /** A shift to the right divides by a power of two. */
  lemma {:induction false} ShiftedDivides(x: nat, k: nat)
    ensures Shifted(x, k) == x / Pow2(k)
    decreases k
  {
    if k > 0 {
      ShiftedDivides(x / 2, k - 1);
      var p := Pow2(k - 1);
      var q, r := (x / 2) / p, (x / 2) % p;
      assert x == q * (2 * p) + (2 * r + x % 2);
      Remainder(x, 2 * p, q, 2 * r + x % 2);
    }
  }

  /** x ^ (x >> k) */
  function Fold(x: nat, k: nat): nat {
    Xor(x, Shifted(x, k))
  }

  function Unfold(y: nat, k: nat): nat
    requires k > 0
  {
    if y == 0 then 0
    else
      ShiftedShrinks(y, k);
      Xor(y, Unfold(Shifted(y, k), k))
  }

  lemma {:induction false} UnfoldFold(x: nat, k: nat)
    requires k > 0
    ensures Unfold(Fold(x, k), k) == x
    decreases x
  {
    if x == 0 {
      ShiftedShrinks(0, k);
    } else {
      var s := Shifted(x, k);
      ShiftedShrinks(x, k);
      UnfoldFold(s, k);
      XorShifted(x, s, k);
      XorCancels(x, s);
      if Fold(x, k) == 0 {
        XorZero(s);
        XorCommutes(0, s);
      }
    }
  }

  lemma {:induction false} FoldUnfold(y: nat, k: nat)
    requires k > 0
    ensures Fold(Unfold(y, k), k) == y
    decreases y
  {
    if y == 0 {
      ShiftedShrinks(0, k);
    } else {
      var s := Shifted(y, k);
      ShiftedShrinks(y, k);
      var u := Unfold(s, k);
      FoldUnfold(s, k);
      XorShifted(y, u, k);
      var v := Shifted(u, k);
      calc {
        Xor(Xor(y, u), Xor(s, v));
      == { XorCancels(u, v); }
        Xor(Xor(y, u), u);
      == { XorCancels(y, u); }
        y;
      }
    }
  }

  lemma {:induction false} UnfoldBounded(y: nat, k: nat, bits: nat)
    requires k > 0 && y < Pow2(bits)
    ensures Unfold(y, k) < Pow2(bits)
    decreases y
  {
    if y > 0 {
      ShiftedShrinks(y, k);
      UnfoldBounded(Shifted(y, k), k, bits);
      XorBounded(y, Unfold(Shifted(y, k), k), bits);
    }
  }

  lemma FoldBounded(x: nat, k: nat)
    requires x < W && k > 0
    ensures Fold(x, k) < W && Unfold(x, k) < W
  {
    WordIsPow2();
    ShiftedShrinks(x, k);
    XorBounded(x, Shifted(x, k), 64);
    UnfoldBounded(x, k, 64);
  }

  // ---------- products modulo 2^64 ----------

  function Times(x: nat, y: nat): (r: nat)
    ensures r < W
  {
    (x * y) % W
  }

  lemma TimesUndone(x: nat, k: nat, inverse: nat)
    requires x < W && Times(k, inverse) == 1
    ensures Times(Times(x, k), inverse) == x
  {
    var c, q, r := (k * inverse) / W, (x * k) / W, (x * k) % W;
    assert k * inverse == c * W + 1;
    assert x * k == q * W + r;
    calc {
      r * inverse;
    ==
      (x * k - q * W) * inverse;
    ==
      x * (k * inverse) - q * W * inverse;
    ==
      (x * c - q * inverse) * W + x;
    }
    Remainder(r * inverse, W, x * c - q * inverse, x);
  }

  // ---------- the mix ----------

  function Mix(z: nat): nat {
    Fold(Times(Fold(Times(Fold(z, 30), FIRST), 27), SECOND), 31)
  }

  function Unmix(v: nat): nat {
    Unfold(Times(Unfold(Times(Unfold(v, 31), SECOND_INVERSE), 27), FIRST_INVERSE), 30)
  }

  /** The mix is a bijection of the 64-bit numbers. */
  lemma MixIsBijective(x: nat)
    requires x < W
    ensures Mix(x) < W && Unmix(Mix(x)) == x
    ensures Unmix(x) < W && Mix(Unmix(x)) == x
  {
    hide Fold, Unfold, Times;
    MixUndone(x);
    UnmixUndone(x);
  }

  lemma MixUndone(x: nat)
    requires x < W
    ensures Mix(x) < W && Unmix(Mix(x)) == x
  {
    assert Times(FIRST, FIRST_INVERSE) == 1 && Times(SECOND, SECOND_INVERSE) == 1;
    hide Fold, Unfold, Times;
    var a := Fold(x, 30);
    FoldBounded(x, 30);
    var b := Fold(Times(a, FIRST), 27);
    FoldBounded(Times(a, FIRST), 27);
    FoldBounded(Times(b, SECOND), 31);
    UnfoldFold(Times(b, SECOND), 31);
    TimesUndone(b, SECOND, SECOND_INVERSE);
    UnfoldFold(Times(a, FIRST), 27);
    TimesUndone(a, FIRST, FIRST_INVERSE);
    UnfoldFold(x, 30);
  }

  lemma UnmixUndone(v: nat)
    requires v < W
    ensures Unmix(v) < W && Mix(Unmix(v)) == v
  {
    assert Times(FIRST_INVERSE, FIRST) == 1 && Times(SECOND_INVERSE, SECOND) == 1;
    hide Fold, Unfold, Times;
    var a := Unfold(v, 31);
    FoldBounded(v, 31);
    var b := Unfold(Times(a, SECOND_INVERSE), 27);
    FoldBounded(Times(a, SECOND_INVERSE), 27);
    FoldBounded(Times(b, FIRST_INVERSE), 30);
    FoldUnfold(Times(b, FIRST_INVERSE), 30);
    TimesUndone(b, FIRST_INVERSE, FIRST);
    FoldUnfold(Times(a, SECOND_INVERSE), 27);
    TimesUndone(a, SECOND_INVERSE, SECOND);
    FoldUnfold(v, 31);
  }

  // ---------- the period ----------

  function StateAt(state: nat, n: nat): (r: nat)
    ensures r < W
  {
    (state + n * GAMMA) % W
  }

  /** The n-th number drawn from a state, the first for 1. */
  function Drawn(state: nat, n: nat): nat {
    Mix(StateAt(state, n))
  }

  lemma StateNext(state: nat, n: nat)
    ensures StateAt(state, n + 1) == (StateAt(state, n) + GAMMA) % W
  {
    var x := state + n * GAMMA;
    var q := x / W;
    assert x == q * W + x % W;
    var y := x % W + GAMMA;
    assert x + GAMMA == (q + y / W) * W + y % W;
    Remainder(x + GAMMA, W, q + y / W, y % W);
    assert state + (n + 1) * GAMMA == x + GAMMA;
  }

  /** Draws less than a period apart differ. */
  lemma DrawsDiffer(state: nat, i: nat, j: nat)
    requires i < j < i + W
    ensures Drawn(state, i) != Drawn(state, j)
  {
    StatesDiffer(state, i, j);
    MixIsBijective(StateAt(state, i));
    MixIsBijective(StateAt(state, j));
  }

  lemma StatesDiffer(state: nat, i: nat, j: nat)
    requires i < j < i + W
    ensures StateAt(state, i) != StateAt(state, j)
  {
    var x, y := state + i * GAMMA, state + j * GAMMA;
    if x % W == y % W {
      var d, c := j - i, y / W - x / W;
      assert d * GAMMA == c * W;
      MultipleOfWhole(d, c);
    }
  }

  lemma MultipleOfWhole(d: nat, c: int)
    requires d < W && d * GAMMA == c * W
    ensures d == 0
  {
    hide Times;
    TimesIs(d, GAMMA, c, 0);
    GammaInverts();
    TimesUndone(d, GAMMA, GAMMA_INVERSE);
    TimesIs(0, GAMMA_INVERSE, 0, 0);
  }

  lemma TimesIs(x: nat, y: nat, q: int, r: nat)
    requires x * y == q * W + r && r < W
    ensures Times(x, y) == r
  {
    Remainder(x * y, W, q, r);
  }

  lemma GammaInverts()
    ensures Times(GAMMA, GAMMA_INVERSE) == 1 && Times(GAMMA_INVERSE, GAMMA) == 1
  {
  }

  /** Where in the period, from 1 to 2^64, a value is drawn. */
  function PositionOf(state: nat, v: nat): (n: nat)
    requires state < W
    ensures 1 <= n <= W
  {
    var n := Times((Unmix(v) + W - state) % W, GAMMA_INVERSE);
    if n == 0 then W else n
  }

  /** Full period: among the first 2^64 draws from any state, every 64-bit value is drawn exactly once. */
  lemma FullPeriod(state: nat, v: nat)
    requires state < W && v < W
    ensures Drawn(state, PositionOf(state, v)) == v
    ensures forall n: nat | 1 <= n <= W && Drawn(state, n) == v :: n == PositionOf(state, v)
  {
    hide Mix, Unmix;
    MixIsBijective(v);
    StateReached(state, Unmix(v));
    forall n: nat | 1 <= n <= W && Drawn(state, n) == v ensures n == PositionOf(state, v) {
      var k := PositionOf(state, v);
      if n < k {
        DrawsDiffer(state, n, k);
      }
      if k < n {
        DrawsDiffer(state, k, n);
      }
    }
  }

  lemma StateReached(state: nat, t: nat)
    requires state < W && t < W
    ensures var n := Times((t + W - state) % W, GAMMA_INVERSE); StateAt(state, if n == 0 then W else n) == t
  {
    hide Times;
    var d := (t + W - state) % W;
    var n := Times(d, GAMMA_INVERSE);
    GammaInverts();
    TimesUndone(d, GAMMA_INVERSE, GAMMA);
    var k, e := if n == 0 then W else n, if t >= state then 0 else 1;
    assert d == t - state + e * W;
    TimesFound(k, n, GAMMA, d);
    var q := (k * GAMMA) / W;
    assert state + k * GAMMA == (q + e) * W + t;
    Remainder(state + k * GAMMA, W, q + e, t);
  }

  lemma TimesFound(k: nat, n: nat, y: nat, d: nat)
    requires Times(n, y) == d && (k == n || (n == 0 && k == W))
    ensures k * y == (k * y) / W * W + d
  {
    if k != n {
      Remainder(W * y, W, y, 0);
      assert 0 * y == 0;
    }
  }

  // ---------- bounded draws ----------

  /** The size of the partial last block, and so how many of the values are refused. */
  function Refused(bound: nat): nat
    requires 1 < bound < W
  {
    (W - 1 - bound + 1) % bound
  }

  lemma RefusedIsPartialBlock(bound: nat)
    requires 1 < bound < W
    ensures Refused(bound) == W % bound < bound && W == (W / bound) * bound + Refused(bound)
  {
    var q := W / bound;
    assert W == q * bound + W % bound;
    assert W - bound == (q - 1) * bound + W % bound;
    Remainder(W - bound, bound, q - 1, W % bound);
  }

  /** How many of the values from `low` up to `high` leave this remainder. */
  function Count(low: nat, high: nat, bound: nat, remainder: nat): nat
    requires bound > 0
    decreases high
  {
    if high <= low then 0 else Count(low, high - 1, bound, remainder) + if (high - 1) % bound == remainder then 1 else 0
  }

  lemma {:induction false} CountConcat(low: nat, mid: nat, high: nat, bound: nat, remainder: nat)
    requires low <= mid <= high && bound > 0
    ensures Count(low, high, bound, remainder) == Count(low, mid, bound, remainder) + Count(mid, high, bound, remainder)
    decreases high
  {
    if mid < high {
      CountConcat(low, mid, high - 1, bound, remainder);
    }
  }

  /** Part of a block holds the remainder once or not at all. */
  lemma {:induction false} CountPart(low: nat, size: nat, bound: nat, hit: nat)
    requires size <= bound && low <= hit < low + bound
    ensures Count(low, low + size, bound, hit % bound) == if hit < low + size then 1 else 0
    decreases size
  {
    if size > 0 {
      CountPart(low, size - 1, bound, hit);
      if (low + size - 1) % bound == hit % bound {
        NoCollision(low, bound, low + size - 1, hit);
      }
    }
  }

  lemma HitInBlock(low: nat, bound: nat, remainder: nat) returns (hit: nat)
    requires remainder < bound
    ensures low <= hit < low + bound && hit % bound == remainder
  {
    var q, r := low / bound, low % bound;
    assert low == q * bound + r;
    if remainder >= r {
      hit := q * bound + remainder;
      Remainder(hit, bound, q, remainder);
    } else {
      hit := (q + 1) * bound + remainder;
      assert hit == q * bound + bound + remainder;
      Remainder(hit, bound, q + 1, remainder);
    }
  }

  lemma {:induction false} CountBlocks(low: nat, blocks: nat, bound: nat, remainder: nat)
    requires remainder < bound
    ensures Count(low, low + blocks * bound, bound, remainder) == blocks
    decreases blocks
  {
    hide Count;
    if blocks == 0 {
      CountNothing(low, bound, remainder);
    } else {
      var mid := low + (blocks - 1) * bound;
      assert mid + bound == low + blocks * bound;
      CountBlocks(low, blocks - 1, bound, remainder);
      var hit := HitInBlock(mid, bound, remainder);
      CountPart(mid, bound, bound, hit);
      CountConcat(low, mid, mid + bound, bound, remainder);
    }
  }

  lemma CountNothing(low: nat, bound: nat, remainder: nat)
    requires bound > 0
    ensures Count(low, low, bound, remainder) == 0
  {
  }

  /** Exactly uniform: of the 64-bit values that are not refused, as many leave one remainder as another. */
  lemma BelowIsUniform(bound: nat, remainder: nat)
    requires 1 < bound < W && remainder < bound
    ensures Count(Refused(bound), W, bound, remainder) == (W - W % bound) / bound
  {
    hide Count, Refused;
    RefusedIsPartialBlock(bound);
    var q := W / bound;
    CountBlocks(Refused(bound), q, bound, remainder);
    assert W - W % bound == q * bound + 0;
    Remainder(W - W % bound, bound, q, 0);
  }

  ghost predicate BelowAll(limit: nat, values: seq<nat>) {
    && (forall i | 0 <= i < |values| :: values[i] < limit)
    && (forall i, j | 0 <= i < j < |values| :: values[i] != values[j])
  }

  /** Different numbers below a limit are no more than the limit. */
  lemma {:induction false} Pigeonhole(limit: nat, values: seq<nat>)
    requires BelowAll(limit, values)
    ensures |values| <= limit
    decreases limit
  {
    if values != [] {
      assert values[0] < limit;
      if limit - 1 in values {
        var k :| 0 <= k < |values| && values[k] == limit - 1;
        var rest := values[..k] + values[k + 1..];
        assert forall i | 0 <= i < |rest| :: rest[i] == values[if i < k then i else i + 1];
        Pigeonhole(limit - 1, rest);
      } else {
        Pigeonhole(limit - 1, values);
      }
    }
  }

  /** The n-th draw is the first that is not refused. */
  ghost predicate Accepts(state: nat, bound: nat, n: nat)
    requires 1 < bound < W
  {
    n >= 1 && Drawn(state, n) >= Refused(bound) && forall i | 1 <= i < n :: Drawn(state, i) < Refused(bound)
  }

  /** The loop ends: the draw that is accepted comes no later than one past the number of values refused. */
  lemma AcceptsSoon(state: nat, bound: nat, n: nat)
    requires 1 < bound < W && (forall i | 1 <= i <= n :: Drawn(state, i) < Refused(bound))
    ensures n <= Refused(bound)
  {
    hide Drawn;
    RefusedIsPartialBlock(bound);
    var size := if n <= Refused(bound) then n else Refused(bound) + 1;
    var values := seq(size, i requires 0 <= i < size => Drawn(state, i + 1));
    forall i, j | 0 <= i < j < size ensures values[i] != values[j] {
      DrawsDiffer(state, i + 1, j + 1);
    }
    Pigeonhole(Refused(bound), values);
  }

  // ---------- what a call gives ----------

  /** From this state a draw below the bound gives `r` and leaves this state after. */
  ghost predicate BelowGives(state: nat, bound: nat, r: nat, after: nat)
    requires bound < W
  {
    if bound <= 1 then r == 0 && after == state
    else exists n: nat :: n <= Refused(bound) + 1 && Accepts(state, bound, n)
                          && r == Drawn(state, n) % bound && after == StateAt(state, n)
  }

  /** The size of a range, in 64 bits. */
  function SizeOf(low: nat, high: nat): nat
    requires low <= high
  {
    (high - low + 1) % W
  }

  /** A draw is made only for a range of more than one value whose size does not wrap. */
  predicate Draws(low: nat, high: nat) {
    low < high && SizeOf(low, high) > 1
  }

  /** What an accepted draw makes of a range. */
  function Outcome(low: nat, high: nat, x: nat): nat {
    if Draws(low, high) then low + x % SizeOf(low, high) else low
  }

  ghost predicate BetweenGives(state: nat, low: nat, high: nat, v: nat, after: nat) {
    if !Draws(low, high) then v == low && after == state
    else
      var size := SizeOf(low, high);
      exists n: nat :: n <= Refused(size) + 1 && Accepts(state, size, n)
                       && v == Outcome(low, high, Drawn(state, n)) && after == StateAt(state, n)
  }

  lemma BelowIsBetween(state: nat, low: nat, high: nat, r: nat, after: nat)
    requires low < high && BelowGives(state, SizeOf(low, high), r, after)
    ensures BetweenGives(state, low, high, low + r, after)
  {
    hide Drawn, StateAt, Accepts, Refused;
    var size := SizeOf(low, high);
    if size > 1 {
      var n: nat :| n <= Refused(size) + 1 && Accepts(state, size, n) && r == Drawn(state, n) % size
                    && after == StateAt(state, n);
      assert low + r == Outcome(low, high, Drawn(state, n));
    }
  }

  ghost predicate CanGive(low: nat, high: nat, v: nat) {
    exists state: nat, after: nat :: state < W && BetweenGives(state, low, high, v, after)
  }

  lemma StateBefore(x: nat) returns (state: nat)
    requires x < W
    ensures state < W && Drawn(state, 1) == x
  {
    hide Mix, Unmix;
    MixIsBijective(x);
    var t := Unmix(x);
    state := (t + W - GAMMA) % W;
    assert (state + 1 * GAMMA) % W == t;
  }

  lemma BelowGivesAny(bound: nat, r: nat) returns (state: nat)
    requires 1 < bound < W && r < bound
    ensures state < W && BelowGives(state, bound, r, StateAt(state, 1))
  {
    hide Drawn, Mix, Refused, StateAt;
    RefusedIsPartialBlock(bound);
    var x := HitInBlock(Refused(bound), bound, r);
    QuotientPositive(bound);
    state := StateBefore(x);
    assert Accepts(state, bound, 1);
  }

  lemma BetweenGivesAny(low: nat, high: nat, v: nat)
    requires low <= v <= high < W && 0 < high - low < W - 1
    ensures CanGive(low, high, v)
  {
    hide BelowGives, BetweenGives, StateAt;
    var size := high - low + 1;
    assert SizeOf(low, high) == size;
    var state := BelowGivesAny(size, v - low);
    BelowIsBetween(state, low, high, v - low, StateAt(state, 1));
    assert BetweenGives(state, low, high, v, StateAt(state, 1));
  }

  lemma QuotientPositive(size: nat)
    requires 1 < size < W
    ensures Refused(size) + size <= W
  {
    RefusedIsPartialBlock(size);
    LapApart(0, W / size, size);
  }

  /** How many of the 64-bit draws below a limit are accepted and give a value. */
  function Giving(low: nat, high: nat, v: nat, limit: nat): nat
    decreases limit
  {
    if limit <= FirstAccepted(low, high) then 0
    else Giving(low, high, v, limit - 1) + if Outcome(low, high, limit - 1) == v then 1 else 0
  }

  /** The least draw that is accepted. */
  function FirstAccepted(low: nat, high: nat): nat {
    if Draws(low, high) then Refused(SizeOf(low, high)) else 0
  }

  /** How many of all accepted 64-bit draws give a value. */
  function Chances(low: nat, high: nat, v: nat): nat {
    Giving(low, high, v, W)
  }

  lemma {:induction false} GivingIsCount(low: nat, high: nat, v: nat, limit: nat)
    requires Draws(low, high) && low <= v <= high < W
    ensures Giving(low, high, v, limit) ==
            Count(FirstAccepted(low, high), limit, SizeOf(low, high), v - low)
    decreases limit
  {
    hide Refused;
    if limit > FirstAccepted(low, high) {
      GivingIsCount(low, high, v, limit - 1);
    }
  }

  lemma {:induction false} GivingWithoutDraw(low: nat, high: nat, v: nat, limit: nat)
    requires !Draws(low, high)
    ensures Giving(low, high, v, limit) == if v == low then limit else 0
    decreases limit
  {
    if limit > 0 {
      GivingWithoutDraw(low, high, v, limit - 1);
    }
  }

  /** In a range of some but not all of the 64-bit values, every value has the same chances. */
  lemma ChancesOfDraw(low: nat, high: nat, v: nat)
    requires low <= v <= high < W && 0 < high - low < W - 1
    ensures var size := high - low + 1; Chances(low, high, v) == (W - W % size) / size > 0
  {
    hide Count, Giving, Refused;
    var size := high - low + 1;
    assert SizeOf(low, high) == size;
    GivingIsCount(low, high, v, W);
    BelowIsUniform(size, v - low);
    WholeBlocks(size);
  }

  lemma WholeBlocks(size: nat)
    requires 1 < size < W
    ensures (W - W % size) / size == W / size > 0
  {
    var q := W / size;
    assert W - W % size == q * size + 0;
    Remainder(W - W % size, size, q, 0);
    LapApart(0, q, size);
  }

  /** Every value of the range is given by this many accepted draws. */
  ghost predicate AllChances(low: nat, high: nat, n: nat) {
    forall v | low <= v <= high :: Chances(low, high, v) == n
  }

  /** Uniform: every value of an inclusive range is given by the same positive number of the accepted
      64-bit draws, exactly when the range is not all the 64-bit values. All of them make a size that
      wraps to nothing, and the low end is all that comes out. */
  lemma BetweenIsUniform(low: nat, high: nat)
    requires low <= high < W
    ensures (exists n: nat :: n > 0 && AllChances(low, high, n)) <==> high - low < W - 1
    ensures 0 < high - low < W - 1 ==> var size := high - low + 1; AllChances(low, high, (W - W % size) / size)
  {
    hide Giving, Outcome;
    GivingWithoutDrawAt(low, high, low);
    GivingWithoutDrawAt(low, high, high);
    if 0 < high - low < W - 1 {
      var size := high - low + 1;
      forall v | low <= v <= high ensures Chances(low, high, v) == (W - W % size) / size > 0 {
        ChancesOfDraw(low, high, v);
      }
      ChancesOfDraw(low, high, low);
      assert AllChances(low, high, (W - W % size) / size);
    } else if low == high {
      assert AllChances(low, high, W);
    }
  }

  lemma GivingWithoutDrawAt(low: nat, high: nat, v: nat)
    requires low <= v <= high < W
    ensures low == high || high - low == W - 1 ==> Chances(low, high, v) == if v == low then W else 0
  {
    if low == high || high - low == W - 1 {
      GivingWithoutDraw(low, high, v, W);
    }
  }

  /** Every value of an inclusive range can come out, with the same exception. */
  lemma BetweenCovers(low: nat, high: nat)
    requires low < high < W
    ensures (forall v | low <= v <= high :: CanGive(low, high, v)) <==> high - low < W - 1
  {
    if high - low < W - 1 {
      forall v | low <= v <= high ensures CanGive(low, high, v) {
        BetweenGivesAny(low, high, v);
      }
    } else {
      assert !CanGive(low, high, high);
    }
  }

  class SplitMix64 {
    var state: nat

    constructor (seed: nat)
      ensures state == seed
    {
      state := seed;
    }

    method Next() returns (r: nat)
      requires state < W
      modifies this
      ensures state == StateAt(old(state), 1) && r == Drawn(old(state), 1)
    {
      state := (state + GAMMA) % W;
      var z := state;
      z := Times(Xor(z, Shifted(z, 30)), FIRST);
      z := Times(Xor(z, Shifted(z, 27)), SECOND);
      r := Xor(z, Shifted(z, 31));
    }

    method Below(bound: nat) returns (r: nat)
      requires state < W && bound < W
      modifies this
      ensures state < W && BelowGives(old(state), bound, r, state)
      ensures r == 0 || r < bound
    {
      hide Drawn, StateAt;
      if bound <= 1 {
        return 0;
      }
      var rejectBelow := (W - 1 - bound + 1) % bound;
      ghost var n := 1;
      var draw := Next();
      while draw < rejectBelow
        invariant n >= 1 && state == StateAt(old(state), n) && draw == Drawn(old(state), n)
        invariant forall i | 1 <= i < n :: Drawn(old(state), i) < rejectBelow
        invariant n <= rejectBelow + 1
        decreases rejectBelow + 1 - n
      {
        DrawnNext(old(state), n);
        AcceptsSoon(old(state), bound, n);
        draw := Next();
        n := n + 1;
      }
      r := draw % bound;
    }

    method Between(low: nat, high: nat) returns (r: nat)
      requires state < W && low < W && high < W
      modifies this
      ensures state < W && BetweenGives(old(state), low, high, r, state)
      ensures low <= high ==> low <= r <= high
    {
      hide BelowGives;
      if low >= high {
        return low;
      }
      var below := Below((high - low + 1) % W);
      BelowIsBetween(old(state), low, high, below, state);
      r := low + below;
    }
  }

  lemma DrawnNext(state: nat, n: nat)
    ensures StateAt(StateAt(state, n), 1) == StateAt(state, n + 1)
    ensures Drawn(StateAt(state, n), 1) == Drawn(state, n + 1)
  {
    StateNext(state, n);
  }
}
