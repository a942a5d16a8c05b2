/**
  The depth layering allocator. Every primitive is stamped with a depth one
  step below the previous primitive's, so later primitives win the LESS depth
  test; when the cursor has run down past the usable range the pending batch
  is flushed, the depth buffer cleared and the cursor restarted at 1.0.

  The cursor only ever holds 1 - k * 2^-14 for a step count k no larger than
  32761; every such value is exact in single precision, so the model keeps
  the step count k and reads the cursor as the real DepthAt(k).
 */
module Depth {

  /** 2^-14, the smallest positive normal half-precision number: one layer. */
  const SmallestDepthIncrement: real := 1.0 / 16384.0

  /** 1 - 2^-11, the largest half-precision number below one. */
  const LargestNumberLessThanOne: real := 1.0 - 1.0 / 2048.0

  /** Allocations in one epoch: step counts 1 .. EpochLength are handed out. */
  const EpochLength: nat := 32761

  /** The cursor after k decrements from 1.0. */
  function DepthAt(k: nat): (r: real)
  {
    1.0 - (k as real) * SmallestDepthIncrement
  }

  /** The reset test of incrementDepth, on the cursor DepthAt(k). */
  predicate Exhausted(k: nat)
  {
    DepthAt(k) < -LargestNumberLessThanOne
  }

  /** The reset fires exactly once the step count has passed 32760; the
      source's comment counts (2 - 2^-11) / 2^-14 = 32760 layers, but the
      strict comparison lets one more allocation through. */
  lemma ExhaustedIff(k: nat)
    ensures Exhausted(k) <==> k >= EpochLength
  {
  }

  /** The step count after one incrementDepth call from step count k. */
  function NextStep(k: nat): (k': nat)
    ensures 1 <= k'
    ensures Exhausted(k) ==> DepthAt(k') == 1.0 - SmallestDepthIncrement
    ensures !Exhausted(k) ==> DepthAt(k') == DepthAt(k) - SmallestDepthIncrement
  {
    if Exhausted(k) then 1 else k + 1
  }

  /** The step count after `calls` increments from the start of a frame. */
  function StepAfter(calls: nat): (r: nat)
  {
    if calls == 0 then 0 else NextStep(StepAfter(calls - 1))
  }

  /** How many of the first `calls` increments reset the cursor. */
  function ResetsAfter(calls: nat): (r: nat)
  {
    if calls == 0 then 0
    else ResetsAfter(calls - 1) + (if Exhausted(StepAfter(calls - 1)) then 1 else 0)
  }

  /** Closed form of the allocator: call number S (S >= 1) returns step
      (S - 1) mod 32761 + 1, after (S - 1) div 32761 resets. */
  lemma {:induction false} EpochClosedForm(calls: nat)
    requires calls >= 1
    ensures StepAfter(calls) == (calls - 1) % EpochLength + 1
    ensures ResetsAfter(calls) == (calls - 1) / EpochLength
  {
    if calls == 1 {
      ExhaustedIff(0);
    } else {
      EpochClosedForm(calls - 1);
      var k := StepAfter(calls - 1);
      ExhaustedIff(k);
      var q, r := (calls - 2) / EpochLength, (calls - 2) % EpochLength;
      assert calls - 2 == q * EpochLength + r;
      assert k == r + 1 && ResetsAfter(calls - 1) == q;
      assert StepAfter(calls) == NextStep(k);
      assert ResetsAfter(calls) == q + (if Exhausted(k) then 1 else 0);
      if r == EpochLength - 1 {
        assert calls - 1 == (q + 1) * EpochLength;
        DivModUnique(calls - 1, q + 1, 0);
        assert StepAfter(calls) == 1 && ResetsAfter(calls) == q + 1;
      } else {
        assert calls - 1 == q * EpochLength + (r + 1);
        DivModUnique(calls - 1, q, r + 1);
        assert StepAfter(calls) == k + 1 && ResetsAfter(calls) == q;
      }
    }
  }

  lemma DivModUnique(a: nat, q: nat, r: nat)
    requires r < EpochLength && a == q * EpochLength + r
    ensures a / EpochLength == q && a % EpochLength == r
  {
  }

  /** Every value handed out lies strictly between -1 and 1, inside the
      clip range of the orthographic projection. */
  lemma ReturnedDepthInRange(calls: nat)
    requires calls >= 1
    ensures -1.0 < DepthAt(StepAfter(calls)) < 1.0
  {
    EpochClosedForm(calls);
  }

  /** Within one epoch (no reset in between) a later call returns a strictly
      smaller depth, so it wins the LESS depth test against every earlier one. */
  lemma {:induction false} MonotoneWithinEpoch(s1: nat, s2: nat)
    requires 1 <= s1 < s2
    requires ResetsAfter(s1) == ResetsAfter(s2)
    ensures DepthAt(StepAfter(s2)) < DepthAt(StepAfter(s1))
  {
    EpochClosedForm(s1);
    EpochClosedForm(s2);
    var q := (s1 - 1) / EpochLength;
    assert s1 - 1 == q * EpochLength + (s1 - 1) % EpochLength;
    assert s2 - 1 == q * EpochLength + (s2 - 1) % EpochLength;
  }

  /** The first call after a reset returns the largest value any call returns. */
  lemma AfterResetIsTop(calls: nat)
    requires calls >= 2 && ResetsAfter(calls) > ResetsAfter(calls - 1)
    ensures DepthAt(StepAfter(calls)) == 1.0 - SmallestDepthIncrement
    ensures forall s | 1 <= s :: DepthAt(StepAfter(s)) <= DepthAt(StepAfter(calls))
  {
    forall s | 1 <= s ensures StepAfter(s) >= 1 {
      EpochClosedForm(s);
    }
  }
}
