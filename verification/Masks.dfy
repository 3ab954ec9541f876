/** The 64-bit masks of the schedule fields: parser.go's getBits and all, and the bit tests of spec.go. */
module Masks {

  type Mask = bv64

  const MAX_UINT64: Mask := 0xFFFF_FFFF_FFFF_FFFF

  // 1<<63
  const TOP_BIT: Mask := 0x8000_0000_0000_0000

  // A bit position, as the word it is shifted by.
  function Position(k: nat): bv6
    requires k < 64
  {
    if k == 0 then 0 else Position(k - 1) + 1
  }

  // 1<<k & mask != 0
  predicate HasBit(mask: Mask, k: nat)
    requires k < 64
  {
    TestBit(mask, Position(k))
  }

  predicate TestBit(mask: Mask, k: bv6) {
    Meets(1 as Mask << k, mask)
  }

  predicate Meets(bit: Mask, mask: Mask) {
    bit & mask != 0
  }

  // The bits below n that are 1, as a set of numbers.
  function BitsBelow(mask: Mask, n: nat): set<nat>
    requires n <= 64
  {
    if n == 0 then {}
    else BitsBelow(mask, n - 1) + if HasBit(mask, n - 1) then {n - 1} else {}
  }

  function BitsOf(mask: Mask): set<nat> {
    BitsBelow(mask, 64)
  }

  // ----- single words -----

  lemma AndOverOr(bit: Mask, a: Mask, b: Mask)
    ensures bit & (a | b) == (bit & a) | (bit & b)
  {
  }

  lemma OrIsZero(a: Mask, b: Mask)
    ensures a | b != 0 <==> a != 0 || b != 0
  {
  }

  lemma MeetsEither(bit: Mask, a: Mask, b: Mask)
    ensures Meets(bit, a | b) <==> Meets(bit, a) || Meets(bit, b)
  {
    AndOverOr(bit, a, b);
    OrIsZero(bit & a, bit & b);
  }

  lemma UnionWord(a: Mask, b: Mask, k: bv6)
    ensures TestBit(a | b, k) <==> TestBit(a, k) || TestBit(b, k)
  {
    MeetsEither(1 as Mask << k, a, b);
  }

  // A one-bit word meets another word fully or not at all.
  predicate AllOrNothing(bit: Mask, a: Mask) {
    bit != 0 && (bit & a == 0 || bit & a == bit)
  }

  lemma ShiftedOne(k: bv6, a: Mask)
    ensures AllOrNothing(1 as Mask << k, a)
  {
  }

  lemma AllTaken(bit: Mask, a: Mask, b: Mask)
    requires bit & a == bit
    ensures !Meets(bit, Without(a, b))
  {
  }

  lemma NothingTaken(bit: Mask, a: Mask, b: Mask)
    requires bit & a == 0
    ensures bit & Without(a, b) == bit & b
  {
  }

  lemma AllStays(bit: Mask, a: Mask, b: Mask)
    requires bit & a == 0
    ensures Meets(bit, Without(a, b)) <==> Meets(bit, b)
  {
    NothingTaken(bit, a, b);
  }

  lemma MeetsWithout(bit: Mask, a: Mask, b: Mask)
    requires AllOrNothing(bit, a)
    ensures Meets(bit, Without(a, b)) <==> !Meets(bit, a) && Meets(bit, b)
  {
    if Meets(bit, a) { AllTaken(bit, a, b); } else { AllStays(bit, a, b); }
  }

  lemma SingleWord(i: bv6, k: bv6)
    ensures TestBit(1 as Mask << i, k) <==> i == k
  {
  }

  // The bits from lo up.
  lemma FromWord(lo: bv6, k: bv6)
    ensures TestBit(MAX_UINT64 << lo, k) <==> !(k < lo)
  {
  }

  lemma AboveWord(hi: bv6, k: bv6)
    requires hi < 63
    ensures k < hi + 1 <==> !(hi < k)
  {
  }

  lemma RangeWord(lo: bv6, hi: bv6, k: bv6)
    requires hi < 63
    ensures TestBit(RangeOf(lo, hi), k) <==> !(k < lo) && !(hi < k)
  {
    ShiftedOne(k, MAX_UINT64 << (hi + 1));
    MeetsWithout(1 as Mask << k, MAX_UINT64 << (hi + 1), MAX_UINT64 << lo);
    FromWord(hi + 1, k);
    FromWord(lo, k);
    AboveWord(hi, k);
  }

  lemma ZeroWord(k: bv6)
    ensures !TestBit(0, k)
  {
  }

  lemma OrderWord(x: bv6, y: bv6)
    ensures x < y <==> x as nat < y as nat
  {
  }

  lemma NextWord(x: bv6)
    requires x as nat < 63
    ensures (x + 1) as nat == x as nat + 1
  {
  }

  lemma BelowTop(x: bv6)
    requires x as nat < 63
    ensures x < 63
  {
  }

  lemma {:induction false} PositionNumber(k: nat)
    requires k < 64
    ensures Position(k) as nat == k
  {
    if k > 0 {
      PositionNumber(k - 1);
      NextWord(Position(k - 1));
    }
  }

  lemma PositionOrder(i: nat, k: nat)
    requires i < 64 && k < 64
    ensures Position(i) < Position(k) <==> i < k
    ensures Position(i) == Position(k) <==> i == k
  {
    PositionNumber(i);
    PositionNumber(k);
    OrderWord(Position(i), Position(k));
  }

  lemma TopWord(k: bv6)
    ensures TestBit(TOP_BIT, k) <==> k as nat == 63
  {
  }

  // ----- progressions of numbers -----

  // start, start + step, start + 2*step, ... up to end
  predicate InProgression(k: int, start: int, end: int, step: int)
    requires step > 0
  {
    start <= k <= end && (k - start) % step == 0
  }

  function Progression(start: nat, end: nat, step: nat): set<nat>
    requires step > 0
  {
    set k: nat | start <= k <= end && InProgression(k, start, end, step)
  }

  // ----- masks as sets -----

  lemma {:induction false} BelowMeaning(mask: Mask, n: nat, k: nat)
    requires n <= 64
    ensures k in BitsBelow(mask, n) <==> k < n && HasBit(mask, k)
  {
    if n > 0 { BelowMeaning(mask, n - 1, k); }
  }

  // Membership is the bit test of the source.
  lemma BitsMeaning(mask: Mask, k: nat)
    ensures k in BitsOf(mask) <==> k < 64 && HasBit(mask, k)
  {
    BelowMeaning(mask, 64, k);
  }

  lemma NoBits()
    ensures BitsOf(0) == {}
  {
    forall k: nat ensures k !in BitsOf(0) {
      BitsMeaning(0, k);
      if k < 64 { ZeroWord(Position(k)); }
    }
  }

  lemma UnionBit(a: Mask, b: Mask, k: nat)
    requires k < 64
    ensures HasBit(a | b, k) <==> HasBit(a, k) || HasBit(b, k)
  {
    UnionWord(a, b, Position(k));
  }

  // `|` is union.
  lemma UnionBits(a: Mask, b: Mask)
    ensures BitsOf(a | b) == BitsOf(a) + BitsOf(b)
  {
    forall k: nat ensures k in BitsOf(a | b) <==> k in BitsOf(a) || k in BitsOf(b) {
      BitsMeaning(a | b, k);
      BitsMeaning(a, k);
      BitsMeaning(b, k);
      if k < 64 { UnionBit(a, b, k); }
    }
  }

  // 1<<i is the set {i}.
  lemma SingleBit(i: nat)
    requires i < 64
    ensures BitsOf(1 as Mask << Position(i)) == {i}
  {
    var mask := 1 as Mask << Position(i);
    forall k: nat ensures k in BitsOf(mask) <==> k == i {
      BitsMeaning(mask, k);
      if k < 64 {
        PositionOrder(i, k);
        SingleWord(Position(i), Position(k));
      }
    }
  }

  lemma TopBit()
    ensures BitsOf(TOP_BIT) == {63}
  {
    forall k: nat ensures k in BitsOf(TOP_BIT) <==> k == 63 {
      BitsMeaning(TOP_BIT, k);
      if k < 64 {
        PositionNumber(k);
        TopWord(Position(k));
      }
    }
  }

  // The shift form of a range.
  function RangeMask(lo: nat, hi: nat): Mask
    requires lo < 64 && hi < 63
  {
    RangeOf(Position(lo), Position(hi))
  }

  function RangeOf(lo: bv6, hi: bv6): Mask {
    Without(MAX_UINT64 << (hi + 1), MAX_UINT64 << lo)
  }

  // b without the bits of a
  function Without(a: Mask, b: Mask): Mask {
    !a & b
  }

  lemma RangeBit(lo: nat, hi: nat, k: nat)
    requires lo < 64 && hi < 63 && k < 64
    ensures HasBit(RangeMask(lo, hi), k) <==> lo <= k <= hi
  {
    PositionNumber(hi);
    BelowTop(Position(hi));
    PositionOrder(k, lo);
    PositionOrder(hi, k);
    RangeWord(Position(lo), Position(hi), Position(k));
  }

  lemma ShiftForm(lo: nat, hi: nat)
    requires lo < 64 && hi < 63
    ensures BitsOf(RangeMask(lo, hi)) == Progression(lo, hi, 1)
  {
    var mask := RangeMask(lo, hi);
    forall k: nat ensures k in BitsOf(mask) <==> k in Progression(lo, hi, 1) {
      BitsMeaning(mask, k);
      if k < 64 { RangeBit(lo, hi, k); }
      assert (k - lo) % 1 == 0;
    }
  }

  // ----- the loop form -----

  lemma NextInProgression(k: int, start: int, i: int, step: int)
    requires step > 0 && start <= i && (i - start) % step == 0
    ensures (i + step - start) % step == 0
    ensures i < k < i + step ==> (k - start) % step != 0
  {
    var q := (i - start) / step;
    assert i - start == q * step;
    Remainder(i + step - start, q + 1, 0, step);
    if i < k < i + step {
      Remainder(k - start, q, k - i, step);
    }
  }

  lemma Remainder(n: int, q: int, r: int, step: int)
    requires step > 0 && 0 <= r < step && n == q * step + r
    ensures n % step == r
  {
    var q', r' := n / step, n % step;
    assert n == q' * step + r';
    assert (q - q') * step == r' - r;
    if q > q' {
      assert (q - q') * step >= step by { MulAtLeast(q - q', step); }
    } else if q < q' {
      assert (q' - q) * step >= step by { MulAtLeast(q' - q, step); }
    }
  }

  lemma MulAtLeast(n: int, step: int)
    requires n >= 1 && step > 0
    ensures n * step >= step
  {
  }

  // The part of the progression below i.
  ghost function Reached(start: nat, end: nat, step: nat, i: nat): set<nat>
    requires step > 0
  {
    set k: nat | k in Progression(start, end, step) && k < i
  }

  lemma ProgressionStep(start: nat, end: nat, i: nat, step: nat)
    requires step > 0 && start <= i <= end && (i - start) % step == 0
    ensures Reached(start, end, step, i + step) == Reached(start, end, step, i) + {i}
    ensures (i + step - start) % step == 0
  {
    NextInProgression(i, start, i, step);
    forall k: nat
      ensures k in Reached(start, end, step, i + step) <==> k in Reached(start, end, step, i) || k == i
    {
      NextInProgression(k, start, i, step);
    }
  }

  // The bits [min, max] modulo the step. The loop's counter stays below 2^64, so it cannot wrap.
  method GetBits(min: nat, max: nat, step: nat) returns (bits: Mask)
    requires min <= max < 63 && 0 < step < 0x8000_0000_0000_0000
    ensures BitsOf(bits) == Progression(min, max, step)
  {
    if step == 1 {
      bits := RangeMask(min, max);
      ShiftForm(min, max);
      return;
    }
    bits := 0;
    NoBits();
    var i := min;
    while i <= max
      invariant min <= i < 0x1_0000_0000_0000_0000 && (i - min) % step == 0
      invariant BitsOf(bits) == Reached(min, max, step, i)
    {
      var bit := 1 as Mask << Position(i);
      SingleBit(i);
      UnionBits(bits, bit);
      bits := bits | bit;
      ProgressionStep(min, max, i, step);
      i := i + step;
    }
  }
}
