/** Quotients and remainders, powers of two, and the indices of a ring: the capacity is a power of two,
    an index is masked, and two indices less than a lap apart never share a slot. */
module Arithmetic {

  function Pow2(k: nat): (p: nat)
    ensures p > 0
  {
    if k == 0 then 1 else 2 * Pow2(k - 1)
  }

  /** One more than the largest 64-bit number. */
  const WORD: nat := 0x1_0000_0000_0000_0000

  /** Shifting a 64-bit number to the left by one. */
  function Doubled(p: nat): nat {
    (2 * p) % WORD
  }

  /** The smallest power of two that is not less than `n`. */
  method NextPowerOfTwo(n: nat) returns (p: nat, ghost k: nat)
    requires n <= WORD / 2
    ensures p == Pow2(k) && n <= p <= WORD / 2
    ensures forall j: nat | Pow2(j) >= n :: Pow2(j) >= p
  {
    hide Pow2;
    PowerZero();
    WordIsPow2();
    p, k := 1, 0;
    while p < n
      invariant p == Pow2(k) && k <= 63 && p <= WORD / 2
      invariant forall j: nat | Pow2(j) >= n :: Pow2(j) >= p
      decreases n - p
    {
      forall j: nat | Pow2(j) >= n ensures Pow2(j) >= 2 * p {
        Pow2Steps(j, k);
      }
      PowerBelow(k);
      p := Doubled(p);
      k := k + 1;
    }
  }

  lemma PowerZero()
    ensures Pow2(0) == 1
  {
  }

  /** A power of two that is less than half a word doubles without wrapping. */
  lemma PowerBelow(k: nat)
    requires Pow2(k) < WORD / 2
    ensures k < 63 && Doubled(Pow2(k)) == 2 * Pow2(k) == Pow2(k + 1) <= WORD / 2
  {
    WordIsPow2();
    if k >= 63 {
      Pow2Grows(k, 63);
    } else {
      Pow2Grows(63, k + 1);
    }
  }

  /** What the loop of NextPowerOfTwo holds after `k` trips. */
  function Doublings(k: nat): nat {
    if k == 0 then 1 else Doubled(Doublings(k - 1))
  }

  lemma {:induction false} DoublingsAre(k: nat)
    ensures Doublings(k) == if k < 64 then Pow2(k) else 0
  {
    hide Pow2, Doubled;
    PowerZero();
    WordIsPow2();
    DoubledEnds();
    if k > 0 {
      DoublingsAre(k - 1);
      PowerStep(k - 1);
      if k < 64 {
        Pow2Grows(63, k);
        PowerBelow(k - 1);
      }
    }
  }

  lemma DoubledEnds()
    ensures Doubled(WORD / 2) == 0 && Doubled(0) == 0
  {
  }

  /** The loop has an end exactly when no more than half a word is asked for: past that, doubling wraps to
      zero before it gets there. */
  lemma DoublingReaches(n: nat)
    requires n < WORD
    ensures (exists k: nat :: Doublings(k) >= n) <==> n <= WORD / 2
  {
    WordIsPow2();
    DoublingsAre(63);
    hide Pow2, Doublings;
    if n <= WORD / 2 {
      assert Doublings(63) >= n;
    } else {
      forall k: nat ensures Doublings(k) < n {
        DoublingsAre(k);
        if k < 64 {
          Pow2Grows(63, k);
        }
      }
    }
  }

  lemma WordIsPow2()
    ensures Pow2(64) == WORD && Pow2(63) == WORD / 2
  {
    hide Pow2;
    PowerStep(63);
    Pow2Four();
    Pow2Sum(4, 4);
    Pow2Sum(8, 8);
    Pow2Sum(16, 16);
    Pow2Sum(32, 32);
  }

  lemma PowerStep(k: nat)
    ensures Pow2(k + 1) == 2 * Pow2(k) > 0
  {
  }

  lemma Pow2Four()
    ensures Pow2(4) == 16
  {
  }

  lemma {:induction false} Pow2Sum(j: nat, k: nat)
    ensures Pow2(j + k) == Pow2(j) * Pow2(k)
  {
    if j > 0 {
      Pow2Sum(j - 1, k);
    }
  }

  /** Nothing lies between a power of two and the next. */
  lemma {:induction false} Pow2Steps(j: nat, k: nat)
    ensures Pow2(j) > Pow2(k) ==> Pow2(j) >= 2 * Pow2(k)
  {
    if j > k {
      Pow2Grows(j, k + 1);
    } else {
      Pow2Grows(k, j);
    }
  }

  lemma {:induction false} Pow2Grows(j: nat, k: nat)
    requires j >= k
    ensures Pow2(j) >= Pow2(k)
  {
    if j > k {
      Pow2Grows(j - 1, k);
    }
  }

  /** Bitwise and. */
  function And(x: nat, y: nat): nat {
    if x == 0 || y == 0 then 0 else 2 * And(x / 2, y / 2) + (if x % 2 == 1 && y % 2 == 1 then 1 else 0)
  }

  /** Masking with a power of two less one is the remainder by it. */
  lemma {:induction false} MaskIsModulo(x: nat, k: nat)
    ensures And(x, Pow2(k) - 1) == x % Pow2(k)
    decreases k
  {
    if k > 0 {
      var p := Pow2(k - 1);
      MaskIsModulo(x / 2, k - 1);
      assert (Pow2(k) - 1) / 2 == p - 1 && (Pow2(k) - 1) % 2 == 1;
      DoubleModulo(x, p);
    }
  }

  lemma DoubleModulo(x: nat, p: nat)
    requires p > 0
    ensures x % (2 * p) == 2 * ((x / 2) % p) + x % 2
  {
    var q, r := (x / 2) / p, (x / 2) % p;
    assert x / 2 == q * p + r;
    assert x == q * (2 * p) + (2 * r + x % 2);
    Remainder(x, 2 * p, q, 2 * r + x % 2);
  }

  lemma LapApart(q: int, r: int, capacity: nat)
    requires q < r
    ensures q * capacity + capacity <= r * capacity
  {
    assert (q + 1) * capacity <= r * capacity;
  }

  /** A quotient and a small remainder are the quotient and the remainder. */
  lemma Remainder(x: nat, capacity: nat, q: int, r: nat)
    requires capacity > 0 && x == q * capacity + r && r < capacity
    ensures x / capacity == q && x % capacity == r
  {
    var p := x / capacity;
    assert x == p * capacity + x % capacity;
    if q < p {
      LapApart(q, p, capacity);
    }
    if p < q {
      LapApart(p, q, capacity);
    }
  }

  /** Two indices less than a lap apart never share a slot. */
  lemma NoCollision(base: nat, capacity: nat, i: nat, j: nat)
    requires capacity > 0 && base <= i < base + capacity && base <= j < base + capacity && i % capacity == j % capacity
    ensures i == j
  {
    var q, r := i / capacity, j / capacity;
    assert i == q * capacity + i % capacity && j == r * capacity + j % capacity;
    if q < r {
      LapApart(q, r, capacity);
    }
    if r < q {
      LapApart(r, q, capacity);
    }
  }

  /** One lap on, the slot is the same. */
  lemma SameSlot(capacity: nat, i: nat)
    requires capacity > 0
    ensures (i + capacity) % capacity == i % capacity
  {
    var q := i / capacity;
    assert i == q * capacity + i % capacity;
    assert (q + 1) * capacity == q * capacity + capacity;
    Remainder(i + capacity, capacity, q + 1, i % capacity);
  }
}
