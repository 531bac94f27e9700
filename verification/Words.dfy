/** 64-bit words as the tick ladder's bitmaps use them: the operators are the machine's
    own, and every operation is specified by the bits it leaves set. */
module Words {

  type Word = bv64

  // ---------- bit numbers as shift amounts ----------

  function Digit(b: bool, weight: Word): Word {
    if b then weight else 0
  }

  function Pack(b0: bool, b1: bool, b2: bool, b3: bool, b4: bool, b5: bool): (r: Word)
    ensures r < 64
    ensures b0 == (r & 1 != 0) && b1 == (r & 2 != 0) && b2 == (r & 4 != 0)
    ensures b3 == (r & 8 != 0) && b4 == (r & 16 != 0) && b5 == (r & 32 != 0)
  {
    Digit(b0, 1) | Digit(b1, 2) | Digit(b2, 4) | Digit(b3, 8) | Digit(b4, 16) | Digit(b5, 32)
  }

  function Weight(b: bool, weight: nat): nat {
    if b then weight else 0
  }

  function Sum(b0: bool, b1: bool, b2: bool, b3: bool, b4: bool, b5: bool): nat {
    Weight(b0, 1) + Weight(b1, 2) + Weight(b2, 4) + Weight(b3, 8) + Weight(b4, 16) + Weight(b5, 32)
  }

  function Less(i: nat, weight: nat): nat {
    if i >= weight then i - weight else i
  }

  /** The shift amount for bit number `i`. */
  function Amount(i: nat): (r: Word)
    requires i < 64
    ensures r < 64
  {
    var i4 := Less(i, 32);
    var i3 := Less(i4, 16);
    var i2 := Less(i3, 8);
    var i1 := Less(i2, 4);
    var i0 := Less(i1, 2);
    Pack(i0 >= 1, i1 >= 2, i2 >= 4, i3 >= 8, i4 >= 16, i >= 32)
  }

  /** The bit number a shift amount stands for. */
  function Number(a: Word): (r: nat)
    requires a < 64
    ensures r < 64
  {
    Sum(a & 1 != 0, a & 2 != 0, a & 4 != 0, a & 8 != 0, a & 16 != 0, a & 32 != 0)
  }

  lemma NumberAmount(i: nat)
    requires i < 64
    ensures Number(Amount(i)) == i
  {
    var i4 := Less(i, 32);
    var i3 := Less(i4, 16);
    var i2 := Less(i3, 8);
    var i1 := Less(i2, 4);
    var i0 := Less(i1, 2);
    assert Sum(i0 >= 1, i1 >= 2, i2 >= 4, i3 >= 8, i4 >= 16, i >= 32) == i;
  }

  lemma PackUnpack(a: Word)
    requires a < 64
    ensures Pack(a & 1 != 0, a & 2 != 0, a & 4 != 0, a & 8 != 0, a & 16 != 0, a & 32 != 0) == a
  {
  }

  lemma SumInjective(a0: bool, a1: bool, a2: bool, a3: bool, a4: bool, a5: bool,
                     b0: bool, b1: bool, b2: bool, b3: bool, b4: bool, b5: bool)
    requires Sum(a0, a1, a2, a3, a4, a5) == Sum(b0, b1, b2, b3, b4, b5)
    ensures a0 == b0 && a1 == b1 && a2 == b2 && a3 == b3 && a4 == b4 && a5 == b5
  {
  }

  lemma NumberInjective(a: Word, b: Word)
    requires a < 64 && b < 64 && Number(a) == Number(b)
    ensures a == b
  {
    SumInjective(a & 1 != 0, a & 2 != 0, a & 4 != 0, a & 8 != 0, a & 16 != 0, a & 32 != 0,
                 b & 1 != 0, b & 2 != 0, b & 4 != 0, b & 8 != 0, b & 16 != 0, b & 32 != 0);
    PackUnpack(a);
    PackUnpack(b);
  }

  lemma AmountNumber(a: Word)
    requires a < 64
    ensures Amount(Number(a)) == a
  {
    NumberAmount(Number(a));
    NumberInjective(a, Amount(Number(a)));
  }

  lemma NumberMonotone(a: Word, b: Word)
    requires a < 64 && b < 64
    ensures a < b <==> Number(a) < Number(b)
  {
  }

  // ---------- the bits of a word ----------

  predicate At(w: Word, a: Word)
    requires a < 64
  {
    (w >> a) & 1 == 1
  }

  /** Bit number `i` of `w` is set. */
  predicate Bit(w: Word, i: nat)
    requires i < 64
  {
    At(w, Amount(i))
  }

  function MaskBelow(a: Word): Word
    requires a < 64
  {
    if a == 0 then 0 else 0xFFFF_FFFF_FFFF_FFFF >> (64 - a)
  }

  function MaskAbove(a: Word): Word
    requires a < 64
  {
    if a >= 63 then 0 else 0xFFFF_FFFF_FFFF_FFFF << (a + 1)
  }

  function WithBit(w: Word, a: Word): Word
    requires a < 64
  {
    w | (1 << a)
  }

  function WithoutBit(w: Word, a: Word): Word
    requires a < 64
  {
    w & !(1 << a)
  }

  function KeepBelow(w: Word, a: Word): Word
    requires a < 64
  {
    w & MaskBelow(a)
  }

  function KeepAbove(w: Word, a: Word): Word
    requires a < 64
  {
    w & MaskAbove(a)
  }

  lemma SetRaw(w: Word, a: Word, j: Word)
    requires a < 64 && j < 64
    ensures At(w | (1 << a), j) <==> j == a || At(w, j)
  {
  }

  lemma SetAt(w: Word, a: Word, j: Word)
    requires a < 64 && j < 64
    ensures At(WithBit(w, a), j) <==> j == a || At(w, j)
  {
    hide At;
    SetRaw(w, a, j);
  }

  lemma ClearRaw(w: Word, a: Word, j: Word)
    requires a < 64 && j < 64
    ensures At(w & !(1 << a), j) <==> j != a && At(w, j)
  {
  }

  lemma ClearAt(w: Word, a: Word, j: Word)
    requires a < 64 && j < 64
    ensures At(WithoutBit(w, a), j) <==> j != a && At(w, j)
  {
    hide At;
    ClearRaw(w, a, j);
  }

  lemma BelowRaw(w: Word, a: Word, j: Word)
    requires a < 64 && j < 64
    ensures At(w & MaskBelow(a), j) <==> j < a && At(w, j)
  {
  }

  lemma BelowAt(w: Word, a: Word, j: Word)
    requires a < 64 && j < 64
    ensures At(KeepBelow(w, a), j) <==> j < a && At(w, j)
  {
    hide At;
    BelowRaw(w, a, j);
  }

  lemma AboveRaw(w: Word, a: Word, j: Word)
    requires a < 64 && j < 64
    ensures At(w & MaskAbove(a), j) <==> j > a && At(w, j)
  {
  }

  lemma AboveAt(w: Word, a: Word, j: Word)
    requires a < 64 && j < 64
    ensures At(KeepAbove(w, a), j) <==> j > a && At(w, j)
  {
    hide At;
    AboveRaw(w, a, j);
  }

  // ---------- leading and trailing zero counts, as scans ----------

  lemma NoHigh(w: Word, n: Word, j: Word)
    requires n <= j < 64 && w >> n == 0
    ensures !At(w, j)
  {
  }

  lemma StepTop(w: Word, n: Word)
    requires 0 < n <= 64 && w != 0 && w >> n == 0 && !At(w, n - 1)
    ensures n > 1 && w >> (n - 1) == 0
  {
  }

  lemma NoLow(w: Word, n: Word, j: Word)
    requires j < n < 64 && w << (64 - n) == 0
    ensures !At(w, j)
  {
  }

  lemma StepBottom(w: Word, n: Word)
    requires n < 64 && w != 0 && w << (64 - n) == 0 && !At(w, n)
    ensures n < 63 && w << (64 - (n + 1)) == 0
  {
  }

  ghost predicate IsTop(w: Word, r: Word) {
    r < 64 && At(w, r) && forall j: Word | r < j < 64 :: !At(w, j)
  }

  ghost predicate IsBottom(w: Word, r: Word) {
    r < 64 && At(w, r) && forall j: Word | j < r :: !At(w, j)
  }

  function Top(w: Word, n: Word): (r: Word)
    requires 0 < n <= 64 && w != 0 && w >> n == 0
    ensures IsTop(w, r)
  {
    if At(w, n - 1) then
      assert IsTop(w, n - 1) by {
        forall j: Word | n - 1 < j < 64 ensures !At(w, j) { NoHigh(w, n, j); }
      }
      n - 1
    else
      StepTop(w, n);
      Top(w, n - 1)
  }

  function Bottom(w: Word, n: Word): (r: Word)
    requires n < 64 && w != 0 && w << (64 - n) == 0
    ensures IsBottom(w, r)
    decreases 64 - n
  {
    if At(w, n) then
      assert IsBottom(w, n) by {
        forall j: Word | j < n ensures !At(w, j) { NoLow(w, n, j); }
      }
      n
    else
      StepBottom(w, n);
      Bottom(w, n + 1)
  }

  // ---------- the operations, by bit number ----------

  lemma AmountMonotone(i: nat, j: nat)
    requires i < 64 && j < 64
    ensures i < j <==> Amount(i) < Amount(j)
    ensures i == j <==> Amount(i) == Amount(j)
  {
    hide Amount, Number;
    NumberAmount(i);
    NumberAmount(j);
    NumberMonotone(Amount(i), Amount(j));
  }

  lemma SetBit(w: Word, i: nat, j: nat)
    requires i < 64 && j < 64
    ensures Bit(WithBit(w, Amount(i)), j) <==> j == i || Bit(w, j)
  {
    hide Amount, At, WithBit;
    SetAt(w, Amount(i), Amount(j));
    AmountMonotone(i, j);
  }

  lemma ClearBit(w: Word, i: nat, j: nat)
    requires i < 64 && j < 64
    ensures Bit(WithoutBit(w, Amount(i)), j) <==> j != i && Bit(w, j)
  {
    hide Amount, At, WithoutBit;
    ClearAt(w, Amount(i), Amount(j));
    AmountMonotone(i, j);
  }

  lemma BelowBit(w: Word, i: nat, j: nat)
    requires i < 64 && j < 64
    ensures Bit(KeepBelow(w, Amount(i)), j) <==> j < i && Bit(w, j)
  {
    hide Amount, At, KeepBelow;
    BelowAt(w, Amount(i), Amount(j));
    AmountMonotone(j, i);
  }

  lemma AboveBit(w: Word, i: nat, j: nat)
    requires i < 64 && j < 64
    ensures Bit(KeepAbove(w, Amount(i)), j) <==> j > i && Bit(w, j)
  {
    hide Amount, At, KeepAbove;
    AboveAt(w, Amount(i), Amount(j));
    AmountMonotone(i, j);
  }

  method Set(w: Word, i: nat) returns (r: Word)
    requires i < 64
    ensures forall j: nat | j < 64 :: Bit(r, j) <==> j == i || Bit(w, j)
    ensures r != 0
  {
    hide Amount, Bit, WithBit;
    r := WithBit(w, Amount(i));
    forall j: nat | j < 64 ensures Bit(r, j) <==> j == i || Bit(w, j) {
      SetBit(w, i, j);
    }
    ZeroHasNoBits(i);
  }

  method Clear(w: Word, i: nat) returns (r: Word)
    requires i < 64
    ensures forall j: nat | j < 64 :: Bit(r, j) <==> j != i && Bit(w, j)
  {
    hide Amount, Bit, WithoutBit;
    r := WithoutBit(w, Amount(i));
    forall j: nat | j < 64 ensures Bit(r, j) <==> j != i && Bit(w, j) {
      ClearBit(w, i, j);
    }
  }

  method Below(w: Word, i: nat) returns (r: Word)
    requires i < 64
    ensures forall j: nat | j < 64 :: Bit(r, j) <==> j < i && Bit(w, j)
  {
    hide Amount, Bit, KeepBelow;
    r := KeepBelow(w, Amount(i));
    forall j: nat | j < 64 ensures Bit(r, j) <==> j < i && Bit(w, j) {
      BelowBit(w, i, j);
    }
  }

  method Above(w: Word, i: nat) returns (r: Word)
    requires i < 64
    ensures forall j: nat | j < 64 :: Bit(r, j) <==> j > i && Bit(w, j)
  {
    hide Amount, Bit, KeepAbove;
    r := KeepAbove(w, Amount(i));
    forall j: nat | j < 64 ensures Bit(r, j) <==> j > i && Bit(w, j) {
      AboveBit(w, i, j);
    }
  }

  lemma TopBit(w: Word, top: Word, j: nat)
    requires IsTop(w, top) && Number(top) < j < 64
    ensures !Bit(w, j)
  {
    hide Amount, Number, At;
    NumberAmount(j);
    NumberMonotone(top, Amount(j));
  }

  lemma BottomBit(w: Word, bottom: Word, j: nat)
    requires IsBottom(w, bottom) && j < Number(bottom)
    ensures !Bit(w, j)
  {
    hide Amount, Number, At;
    NumberAmount(j);
    NumberMonotone(Amount(j), bottom);
  }

  /** 63 minus the leading-zero count. */
  method Highest(w: Word) returns (r: nat)
    requires w != 0
    ensures r < 64 && Bit(w, r) && forall j: nat | r < j < 64 :: !Bit(w, j)
  {
    hide Amount, Number, At;
    var top := Top(w, 64);
    r := Number(top);
    AmountNumber(top);
    forall j: nat | r < j < 64 ensures !Bit(w, j) {
      TopBit(w, top, j);
    }
  }

  /** The trailing-zero count. */
  method Lowest(w: Word) returns (r: nat)
    requires w != 0
    ensures r < 64 && Bit(w, r) && forall j: nat | j < r :: !Bit(w, j)
  {
    hide Amount, Number, At;
    var bottom := Bottom(w, 0);
    r := Number(bottom);
    AmountNumber(bottom);
    forall j: nat | j < r ensures !Bit(w, j) {
      BottomBit(w, bottom, j);
    }
  }

  lemma ZeroHasNoBits(i: nat)
    requires i < 64
    ensures !Bit(0, i)
  {
  }

  /** A word is non-zero exactly when some bit of it is set. */
  lemma NonZero(w: Word) returns (i: nat)
    requires w != 0
    ensures i < 64 && Bit(w, i)
  {
    hide Amount, Number, At;
    var top := Top(w, 64);
    AmountNumber(top);
    i := Number(top);
  }
}
