/** The rounding that gives the memory pool its chunk size, on unsigned words of w bits. */
module Alignment {

  function Pow2(k: nat): (p: nat)
    ensures p >= 1
  {
    if k == 0 then 1 else 2 * Pow2(k - 1)
  }

  /** Bitwise and. */
  function And(x: nat, y: nat): nat {
    if x == 0 || y == 0 then 0
    else 2 * And(x / 2, y / 2) + (if x % 2 == 1 && y % 2 == 1 then 1 else 0)
  }

  /** Bitwise complement of a w-bit word. */
  function Not(w: nat, x: nat): nat
    requires x < Pow2(w)
  {
    Pow2(w) - 1 - x
  }

  /** (size + alignment - 1) & ~(alignment - 1), with the sum wrapping as size_t does. */
  function SafeAlignOf(w: nat, size: nat, alignment: nat): nat
    requires 1 <= alignment <= Pow2(w)
  {
    And((size + alignment - 1) % Pow2(w), Not(w, alignment - 1))
  }

  lemma {:induction false} ComplementSharesNoBit(w: nat, x: nat)
    requires x < Pow2(w)
    ensures And(x, Not(w, x)) == 0
  {
    if w > 0 {
      ComplementSharesNoBit(w - 1, x / 2);
      assert Not(w, x) / 2 == Not(w - 1, x / 2);
    }
  }

  lemma {:induction false} AndOnes(w: nat, x: nat)
    requires x < Pow2(w)
    ensures And(x, Pow2(w) - 1) == x
  {
    if w > 0 {
      AndOnes(w - 1, x / 2);
    }
  }

  lemma HalvingRemainder(x: nat, p: nat)
    requires p >= 1
    ensures x - x % (2 * p) == 2 * (x / 2 - x / 2 % p)
  {
    var q, b := x / 2 / p, x / 2 % p;
    var r := x - 2 * (x / 2);
    assert x == 2 * p * q + (2 * b + r);
    RemainderIs(x, 2 * p, q, 2 * b + r);
  }

  lemma Distributes(d: int, a: int, b: int)
    ensures d * a - d * b == d * (a - b)
  {
  }

  lemma AtLeastOnce(d: nat, n: int)
    requires n >= 1
    ensures d * n >= d
  {
  }

  /** Quotient and remainder are unique. */
  lemma RemainderIs(x: nat, d: nat, q: nat, r: nat)
    requires d >= 1 && x == d * q + r && r < d
    ensures x % d == r
  {
    var q', r' := x / d, x % d;
    assert x == d * q' + r';
    Distributes(d, q, q');
    Distributes(d, q', q);
    if q' < q { AtLeastOnce(d, q - q'); }
    if q' > q { AtLeastOnce(d, q' - q); }
  }

  /** Masking with ~(2^k - 1) clears exactly the remainder modulo 2^k. */
  lemma {:induction false} MaskClearsRemainder(w: nat, k: nat, x: nat)
    requires k <= w && x < Pow2(w) && Pow2(k) <= Pow2(w)
    ensures And(x, Not(w, Pow2(k) - 1)) == x - x % Pow2(k)
  {
    if k == 0 {
      AndOnes(w, x);
    } else {
      MaskClearsRemainder(w - 1, k - 1, x / 2);
      HalvingRemainder(x, Pow2(k - 1));
      assert Not(w, Pow2(k) - 1) / 2 == Not(w - 1, Pow2(k - 1) - 1);
    }
  }

  ghost predicate IsLeastMultiple(r: nat, size: nat, alignment: nat)
    requires alignment >= 1
  {
    && r % alignment == 0
    && size <= r
    && forall m: nat :: m % alignment == 0 && size <= m ==> r <= m
  }

  lemma MultipleGap(r: nat, m: nat, a: nat)
    requires a >= 1 && r % a == 0 && m % a == 0 && m < r
    ensures m + a <= r
  {
    var p, q := r / a, m / a;
    assert r == a * p && m == a * q;
    Distributes(a, p, q);
    Distributes(a, q, p);
    if p <= q {
      if p < q { AtLeastOnce(a, q - p); }
      assert false;
    }
    AtLeastOnce(a, p - q);
  }

  lemma RoundsDown(x: nat, a: nat)
    requires a >= 1
    ensures (x - x % a) % a == 0 && x - x % a <= x < x - x % a + a
  {
    RemainderIs(x - x % a, a, x / a, 0);
  }

  lemma WithoutWrapRoundsDown(w: nat, size: nat, k: nat)
    requires k <= w && size < Pow2(w) && Pow2(k) <= Pow2(w)
    requires size + Pow2(k) - 1 < Pow2(w)
    ensures SafeAlignOf(w, size, Pow2(k)) == size + Pow2(k) - 1 - (size + Pow2(k) - 1) % Pow2(k)
  {
    var sum := size + Pow2(k) - 1;
    MaskClearsRemainder(w, k, sum);
    RemainderIs(sum, Pow2(w), 0, sum);
  }

  lemma LeastBelowGap(r: nat, size: nat, a: nat)
    requires a >= 1 && r % a == 0 && size <= r < size + a
    ensures IsLeastMultiple(r, size, a)
  {
    forall m: nat | m % a == 0 && size <= m ensures r <= m {
      if m < r { MultipleGap(r, m, a); }
    }
  }

  /**
   * For every word width, size and power-of-two alignment, the formula gives the least multiple
   * of the alignment that is not below the size, exactly when the sum does not wrap.
   */
  lemma LeastMultipleIffNoWrap(w: nat, size: nat, k: nat)
    requires k <= w && size < Pow2(w) && Pow2(k) <= Pow2(w)
    ensures IsLeastMultiple(SafeAlignOf(w, size, Pow2(k)), size, Pow2(k)) <==> size + Pow2(k) - 1 < Pow2(w)
  {
    var sum := size + Pow2(k) - 1;
    RoundsDown(sum % Pow2(w), Pow2(k));
    if sum < Pow2(w) {
      WithoutWrapRoundsDown(w, size, k);
      RemainderIs(sum, Pow2(w), 0, sum);
      LeastBelowGap(SafeAlignOf(w, size, Pow2(k)), size, Pow2(k));
    } else {
      WithWrapFallsShort(w, size, k);
    }
  }

  lemma WithWrapFallsShort(w: nat, size: nat, k: nat)
    requires k <= w && size < Pow2(w) && Pow2(k) <= Pow2(w)
    requires size + Pow2(k) - 1 >= Pow2(w)
    ensures SafeAlignOf(w, size, Pow2(k)) < size
  {
    var sum := size + Pow2(k) - 1;
    RemainderIs(sum, Pow2(w), 1, sum - Pow2(w));
    MaskClearsRemainder(w, k, sum - Pow2(w));
    RoundsDown(sum - Pow2(w), Pow2(k));
  }

  /** The stride of a pool whose chunks hold 1 to 1024 bytes, with the default alignment of 8. */
  lemma StrideInRange(w: nat, chunkBytes: nat)
    requires w >= 3 && Pow2(w) >= 2048 && 1 <= chunkBytes <= 1024
    ensures var stride := SafeAlignOf(w, chunkBytes, 8);
      && chunkBytes <= stride < chunkBytes + 8
      && 8 <= stride <= 1024
      && stride % 8 == 0
  {
    var k := EightIsPow2();
    WithoutWrapRoundsDown(w, chunkBytes, k);
    RoundsDown(chunkBytes + 7, 8);
    StrideBounds(chunkBytes, SafeAlignOf(w, chunkBytes, 8));
  }

  lemma EightIsPow2() returns (k: nat)
    ensures k == 3 && Pow2(k) == 8
  {
    k := 3;
  }

  lemma StrideBounds(chunkBytes: nat, stride: nat)
    requires 1 <= chunkBytes <= 1024
    requires stride % 8 == 0 && stride <= chunkBytes + 7 < stride + 8
    ensures chunkBytes <= stride < chunkBytes + 8 && 8 <= stride <= 1024
  {
  }
}
