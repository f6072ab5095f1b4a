/**
 Sampling by masking a hardware random value: which mask a percentage gets, how many of the
 random values it hits, and what rate a path is marked at. Percentages are reals: every
 threshold is an exact binary fraction of 100. The field is 16 bits wide; the counting
 theorems hold for every width `w`.
 */
module Sampling {
  import opened Words

  const RANDOM_FIELD_WIDTH: nat := 16

  function Pow2(i: nat): (r: nat)
    ensures r >= 1
  {
    if i == 0 then 1 else 2 * Pow2(i - 1)
  }

  function BitAnd(a: nat, b: nat): nat {
    if a == 0 || b == 0 then 0 else 2 * BitAnd(a / 2, b / 2) + (a % 2) * (b % 2)
  }

  /** The masked random test of a sampling pipe. */
  predicate Hit(random: nat, mask: nat) { BitAnd(random, mask) == 0 }

  /** The supported percentage of `i` masked bits: 50, 25, 12.5, ... */
  function Supported(i: nat): (r: real)
    ensures r > 0.0
  {
    if i == 0 then 100.0 else Supported(i - 1) / 2.0
  }

  /** The fewest bits from `i` up, at most `w`, whose supported percentage is not above the request. */
  function BitsFrom(percentage: real, i: nat, w: nat): (r: nat)
    requires 1 <= i <= w
    ensures i <= r <= w
    ensures r < w ==> percentage >= Supported(r)
    ensures i < r ==> percentage < Supported(r - 1)
    decreases w - i
  {
    if percentage >= Supported(i) || i == w then i else BitsFrom(percentage, i + 1, w)
  }

  function MaskBits(percentage: real, w: nat): (r: nat)
    requires w >= 1
    ensures 1 <= r <= w
  {
    BitsFrom(percentage, 1, w)
  }

  function Mask(bits: nat): nat { Pow2(bits) - 1 }

  lemma {:induction false} PowGrows(i: nat, j: nat)
    requires i <= j
    ensures Pow2(i) <= Pow2(j)
  {
    if i < j { PowGrows(i, j - 1); }
  }

  lemma WordIsPow()
    ensures Pow2(RANDOM_FIELD_WIDTH) == 0x1_0000
  {
    assert Pow2(8) == 0x100;
  }

  lemma MaskFits(bits: nat)
    requires bits <= RANDOM_FIELD_WIDTH
    ensures Mask(bits) < 0x1_0000
  {
    WordIsPow();
    PowGrows(bits, RANDOM_FIELD_WIDTH);
  }

  /** Seventeen bits are cut off to sixteen. */
  lemma MaskTruncates(i: nat)
    requires 1 <= i <= RANDOM_FIELD_WIDTH + 1
    ensures (Pow2(i) - 1) % 0x1_0000 == Mask(if i <= RANDOM_FIELD_WIDTH then i else i - 1)
  {
    if i <= RANDOM_FIELD_WIDTH { MaskFits(i); } else { WordIsPow(); }
  }

  /** The search loop, for a field of any width: one past the width when nothing is low enough. */
  method SearchBits(percentage: real, w: nat) returns (i: nat)
    requires w >= 1
    ensures 1 <= i <= w + 1 && MaskBits(percentage, w) == if i <= w then i else w
  {
    var next := 50.0;
    i := 1;
    while i <= w && percentage < next
      invariant 1 <= i <= w + 1
      invariant next == Supported(i)
      invariant MaskBits(percentage, w) == if i <= w then BitsFrom(percentage, i, w) else w
    {
      next := next / 2.0;
      i := i + 1;
    }
  }

  method GetRandomMask(percentage: real) returns (mask: u16)
    ensures mask == Mask(MaskBits(percentage, RANDOM_FIELD_WIDTH))
  {
    var i := SearchBits(percentage, RANDOM_FIELD_WIDTH);
    MaskTruncates(i);
    mask := (Pow2(i) - 1) % 0x1_0000;
  }

  // ---------- how often a mask is hit ----------

  /** How many random values below `n` hit the mask. */
  function Hits(mask: nat, n: nat): nat {
    if n == 0 then 0 else Hits(mask, n - 1) + if Hit(n - 1, mask) then 1 else 0
  }

  function OddHits(mask: nat, n: nat): nat {
    if n == 0 then 0 else OddHits(mask, n - 1) + if Hit(n - 1, mask) && (n - 1) % 2 == 1 then 1 else 0
  }

  lemma BitAndPair(k: nat, m: nat)
    ensures Hit(2 * k, 2 * m + 1) <==> Hit(k, m)
    ensures !Hit(2 * k + 1, 2 * m + 1)
    ensures Hit(2 * k, 2 * m) <==> Hit(k, m)
    ensures Hit(2 * k + 1, 2 * m) <==> Hit(k, m)
  {
    assert (2 * k + 1) / 2 == k && (2 * m + 1) / 2 == m && (2 * k) / 2 == k && (2 * m) / 2 == m;
    assert (2 * k + 1) % 2 == 1 && (2 * m + 1) % 2 == 1;
  }

  lemma HitsTwo(mask: nat, k: nat)
    ensures Hits(mask, 2 * k + 2) ==
      Hits(mask, 2 * k) + (if Hit(2 * k, mask) then 1 else 0) + if Hit(2 * k + 1, mask) then 1 else 0
    ensures OddHits(mask, 2 * k + 2) == OddHits(mask, 2 * k) + if Hit(2 * k + 1, mask) then 1 else 0
  {
    assert Hits(mask, 2 * k + 1) == Hits(mask, 2 * k) + if Hit(2 * k, mask) then 1 else 0;
    assert OddHits(mask, 2 * k + 1) == OddHits(mask, 2 * k);
  }

  /** One more low mask bit halves the hits; a shifted mask keeps them, half of them odd. */
  lemma {:induction false} HitsPair(m: nat, n: nat)
    ensures Hits(2 * m + 1, 2 * n) == Hits(m, n)
    ensures Hits(2 * m, 2 * n) == 2 * Hits(m, n)
    ensures OddHits(2 * m, 2 * n) == Hits(m, n)
  {
    if n > 0 {
      HitsPair(m, n - 1);
      BitAndPair(n - 1, m);
      HitsTwo(2 * m + 1, n - 1);
      HitsTwo(2 * m, n - 1);
    }
  }

  lemma {:induction false} HitsNone(n: nat)
    ensures Hits(0, n) == n
  {
    if n > 0 { HitsNone(n - 1); }
  }

  /** A mask of `i` low bits is hit by exactly one value in 2^i. */
  lemma {:induction false} HitsOfMask(i: nat, w: nat)
    requires i <= w
    ensures Hits(Mask(i), Pow2(w)) == Pow2(w - i)
  {
    if i == 0 {
      HitsNone(Pow2(w));
    } else {
      HitsOfMask(i - 1, w - 1);
      HitsPair(Mask(i - 1), Pow2(w - 1));
    }
  }

  /** The mask as the 3.x sampling pipe installs it: bit 0 is left to the egress hash. */
  function Shifted(mask: nat, w: nat): nat { (2 * mask) % Pow2(w) }

  lemma SmallMod(x: nat, k: nat, m: nat)
    requires x < m && k <= 1
    ensures (x + k * m) % m == x
  {
    var y := x + k * m;
    var q := y / m;
    assert y == m * q + y % m;
    if q > k { MulMonotone(m, k + 1, q); }
    if q < k { MulMonotone(m, q + 1, k); }
  }

  lemma ShiftedIsDouble(i: nat, w: nat)
    requires 1 <= i <= w
    ensures Shifted(Mask(i), w) == 2 * Mask(if i < w then i else i - 1)
  {
    if i < w {
      PowGrows(i + 1, w);
      SmallMod(2 * Mask(i), 0, Pow2(w));
    } else {
      SmallMod(2 * Mask(i - 1), 1, Pow2(w));
    }
  }

  /** `random_mask << 1`, cut off to 16 bits. */
  method GetShiftedMask(percentage: real) returns (mask: u16)
    ensures mask == Shifted(Mask(MaskBits(percentage, RANDOM_FIELD_WIDTH)), RANDOM_FIELD_WIDTH)
  {
    var unshifted: nat := GetRandomMask(percentage);
    WordIsPow();
    mask := (2 * unshifted) % 0x1_0000;
  }

  /**
   Shifting keeps the number of hits, half of them with bit 0 set; only a mask as wide as the
   field loses its top bit and is hit twice as often.
   */
  lemma {:induction false} HitsOfShifted(i: nat, w: nat)
    requires 1 <= i <= w
    ensures Hits(Shifted(Mask(i), w), Pow2(w)) == if i < w then Hits(Mask(i), Pow2(w)) else 2 * Hits(Mask(i), Pow2(w))
    ensures 2 * OddHits(Shifted(Mask(i), w), Pow2(w)) == Hits(Shifted(Mask(i), w), Pow2(w))
  {
    var j := if i < w then i else i - 1;
    ShiftedIsDouble(i, w);
    HitsOfMask(j, w - 1);
    HitsOfMask(i, w);
    HitsPair(Mask(j), Pow2(w - 1));
  }

  function Share(hits: nat, all: nat): real
    requires all > 0
  {
    hits as real * 100.0 / all as real
  }

  /** The percentage of the values of a `w`-bit random field that hit a mask. */
  function Fraction(mask: nat, w: nat): real { Share(Hits(mask, Pow2(w)), Pow2(w)) }

  lemma {:induction false} SupportedIsExact(i: nat, w: nat)
    requires i <= w
    ensures Supported(i) * Pow2(w) as real == Pow2(w - i) as real * 100.0
  {
    if i > 0 {
      SupportedIsExact(i - 1, w);
      assert Pow2(w - i + 1) == 2 * Pow2(w - i);
    }
  }

  lemma DivideBack(a: real, b: real, c: real)
    requires b > 0.0 && a * b == c
    ensures a == c / b
  {
  }

  lemma ShareIs(f: real, hits: nat, all: nat)
    requires all > 0 && f * all as real == hits as real * 100.0
    ensures Share(hits, all) == f
  {
    DivideBack(f, all as real, hits as real * 100.0);
  }

  lemma {:induction false} SupportedIsShare(i: nat, w: nat)
    requires i <= w
    ensures Supported(i) == Share(Pow2(w - i), Pow2(w))
  {
    SupportedIsExact(i, w);
    ShareIs(Supported(i), Pow2(w - i), Pow2(w));
  }

  lemma {:induction false} FractionOfMask(i: nat, w: nat)
    requires i <= w
    ensures Fraction(Mask(i), w) == Supported(i)
  {
    HitsOfMask(i, w);
    SupportedIsShare(i, w);
  }

  lemma {:induction false} FractionOfShifted(i: nat, w: nat)
    requires 1 <= i <= w
    ensures Fraction(Shifted(Mask(i), w), w) == Supported(if i < w then i else i - 1)
  {
    var j := if i < w then i else i - 1;
    HitsOfShifted(i, w);
    HitsOfMask(i, w);
    SupportedIsShare(j, w);
  }

  lemma {:induction false} SupportedFalls(i: nat, j: nat)
    requires i <= j
    ensures Supported(j) <= Supported(i)
  {
    if i < j { SupportedFalls(i, j - 1); }
  }

  /** The request is rounded down, by less than half, exactly when it is at least one random value. */
  lemma {:induction false} RoundsDownIff(percentage: real, w: nat)
    requires 0.0 < percentage < 100.0 && w >= 1
    ensures var f := Fraction(Mask(MaskBits(percentage, w)), w);
      f <= percentage < 2.0 * f <==> percentage >= Supported(w)
  {
    var i := MaskBits(percentage, w);
    FractionOfMask(i, w);
    assert Supported(i - 1) == 2.0 * Supported(i);
    SupportedFalls(i, w);
  }

  /** A request below the smallest fraction gets that fraction: 0.001 percent is marked at 100/65536 percent. */
  lemma {:induction false} TinyRequestRoundsUp(percentage: real, w: nat)
    requires 0.0 < percentage < Supported(w) && w >= 1
    ensures Fraction(Mask(MaskBits(percentage, w)), w) == Supported(w) > percentage
    ensures w == RANDOM_FIELD_WIDTH ==> Supported(w) == 100.0 / 65536.0 > 0.001
  {
    var i := MaskBits(percentage, w);
    SupportedFalls(i, w);
    FractionOfMask(i, w);
    SupportedIsExact(w, w);
    WordIsPow();
  }

  // ---------- the marking rate of a path ----------

  datatype Ce = MarkAll | MarkNone | Sample(mask: nat)

  /** Only half of a path's traffic can be marked, so the request is doubled, up to all of that half. */
  function CeTarget(intended: real, w: nat): Ce
    requires w >= 1
  {
    if intended * 2.0 >= 100.0 then MarkAll
    else if intended * 2.0 <= 0.0 then MarkNone
    else Sample(Shifted(Mask(MaskBits(intended * 2.0, w)), w))
  }

  /** The choice of `path_ce_target`, with the doubled request capped. */
  method ChooseCe(intended: real) returns (c: Ce)
    ensures c == CeTarget(intended, RANDOM_FIELD_WIDTH)
  {
    var selectedPercent := intended * 2.0;
    if selectedPercent > 100.0 {
      selectedPercent := 100.0;
    }
    if selectedPercent >= 100.0 {
      return MarkAll;
    }
    if selectedPercent <= 0.0 {
      return MarkNone;
    }
    var mask := GetShiftedMask(selectedPercent);
    return Sample(mask);
  }

  /** The percentage of eligible packets that get marked. */
  function EligibleRate(c: Ce, w: nat): real {
    if c.MarkAll? then 100.0 else if c.MarkNone? then 0.0 else Fraction(c.mask, w)
  }

  /**
   With half of the traffic eligible, the path's overall rate is below the request by less than
   a factor of two exactly when twice the request is at least two random values; below that
   even the smallest fraction is too much.
   */
  lemma {:induction false} OverallRateIff(intended: real, w: nat)
    requires 0.0 < intended < 50.0 && w >= 2
    ensures var overall := EligibleRate(CeTarget(intended, w), w) / 2.0;
      && (intended / 2.0 < overall <= intended <==> 2.0 * intended >= Supported(w - 1))
      && (2.0 * intended < Supported(w - 1) ==> overall > intended)
  {
    var p := intended * 2.0;
    var i := MaskBits(p, w);
    FractionOfShifted(i, w);
    assert Supported(i - 1) == 2.0 * Supported(i);
    if i < w { SupportedFalls(i, w - 1); }
  }

  /** A sampler is hit by a power of two of the values. */
  lemma {:induction false} SampledPower(intended: real, w: nat) returns (k: nat)
    requires 0.0 < intended < 50.0 && w >= 1
    ensures CeTarget(intended, w).Sample? && Hits(CeTarget(intended, w).mask, Pow2(w)) == Pow2(k)
  {
    var i := MaskBits(intended * 2.0, w);
    HitsOfShifted(i, w);
    HitsOfMask(i, w);
    k := if i < w then w - i else 1;
  }

  /** Half the traffic at full rate is all that can be marked: every request from 50 percent up gets 50. */
  lemma {:induction false} RateIsCapped(intended: real, w: nat)
    requires w >= 2
    ensures EligibleRate(CeTarget(intended, w), w) / 2.0 <= 50.0
    ensures intended >= 50.0 <==> EligibleRate(CeTarget(intended, w), w) / 2.0 == 50.0
    ensures intended <= 0.0 <==> EligibleRate(CeTarget(intended, w), w) == 0.0
  {
    var p := intended * 2.0;
    if 0.0 < p < 100.0 {
      var i := MaskBits(p, w);
      FractionOfShifted(i, w);
      SupportedFalls(1, if i < w then i else i - 1);
    }
  }
}
