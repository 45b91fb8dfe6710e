/**
 Blob fee arithmetic of the block executor (crates/eest/src/blockchaintest/execute.rs): the excess
 blob gas update of EIP-4844 with the reserve price of EIP-7918, in the machine integers of the
 source, against the unbounded arithmetic of the two EIPs.
 */
module BlobFee {
  import opened Common
  import opened Arith

  const DATA_GAS_PER_BLOB: nat := 0x2_0000
  const BLOB_BASE_COST: nat := 0x2000

  /** Blob parameters in the widths of their fields, as a fork schedule entry yields them. */
  datatype BlobParams = BlobParams(
    targetBlobCount: nat,
    maxBlobCount: nat,
    updateFraction: nat,
    minBlobFee: nat,
    blobBaseCost: nat)
  {
    predicate Wide() {
      && 0 < updateFraction < K128
      && minBlobFee < K128
      && (blobBaseCost == 0 || blobBaseCost == BLOB_BASE_COST)
    }

    /** The check before a block is executed: the blob counts multiply into 64-bit blob gas. */
    predicate Checked() {
      maxBlobCount != 0 && targetBlobCount <= maxBlobCount && maxBlobCount * DATA_GAS_PER_BLOB <= U64_MAX
    }
  }

  // ----- widths ------------------------------------------------------------------------------------------

  const K64: nat := 0x1_0000_0000_0000_0000
  const K128: nat := 0x1_0000_0000_0000_0000_0000_0000_0000_0000
  const K256: nat := 0x1_0000_0000_0000_0000_0000_0000_0000_0000_0000_0000_0000_0000_0000_0000_0000_0000
  const K384: nat := 0x1_0000_0000_0000_0000_0000_0000_0000_0000 *
                     0x1_0000_0000_0000_0000_0000_0000_0000_0000_0000_0000_0000_0000_0000_0000_0000_0000
  const K448: nat := 0x1_0000_0000_0000_0000_0000_0000_0000_0000_0000_0000_0000_0000 *
                     0x1_0000_0000_0000_0000_0000_0000_0000_0000_0000_0000_0000_0000_0000_0000_0000_0000
  const K512: nat := 0x1_0000_0000_0000_0000_0000_0000_0000_0000_0000_0000_0000_0000_0000_0000_0000_0000 *
                     0x1_0000_0000_0000_0000_0000_0000_0000_0000_0000_0000_0000_0000_0000_0000_0000_0000

  // ----- the unbounded price of EIP-4844, section "Helpers" ------------------------------------------

  /**
   The terms of `fake_exponential` from `term` at position `i` on. The position passes
   numerator / denominator, and from then on the term falls at every step.
   */
  function TaylorTail(term: nat, numerator: nat, denominator: nat, i: nat): nat
    requires 0 < denominator && 0 < i
    decreases if i <= numerator / denominator then numerator / denominator + 1 - i else 0, term
  {
    if term == 0 then 0
    else
      TermFalls(term, numerator, denominator, i);
      term + TaylorTail(NextTerm(term, numerator, denominator, i), numerator, denominator, i + 1)
  }

  function NextTerm(term: nat, numerator: nat, denominator: nat, i: nat): nat
    requires 0 < denominator && 0 < i
  {
    Positive(denominator, i);
    (term * numerator) / (denominator * i)
  }

  lemma TermFalls(term: nat, numerator: nat, denominator: nat, i: nat)
    requires 0 < denominator && 0 < i && 0 < term
    ensures numerator / denominator < i ==> NextTerm(term, numerator, denominator, i) < term
  {
    if numerator / denominator < i {
      Positive(denominator, i);
      QuotientBound(numerator, denominator, i);
      MulLess(numerator, denominator * i, term);
      DivLess(term * numerator, denominator * i, term);
    }
  }

  /** `fake_exponential(minBlobFee, excess, updateFraction)` of EIP-4844. */
  function BlobPrice(params: BlobParams, excess: nat): nat
    requires 0 < params.updateFraction
  {
    TaylorTail(params.minBlobFee * params.updateFraction, excess, params.updateFraction, 1) / params.updateFraction
  }

  /** The comparison of EIP-7918, section "Specification". */
  predicate ReserveExceeds(params: BlobParams, excess: nat, baseFee: nat)
    requires 0 < params.updateFraction
  {
    params.blobBaseCost * baseFee > DATA_GAS_PER_BLOB * BlobPrice(params, excess)
  }

  lemma OneTerm(term: nat, numerator: nat, denominator: nat, i: nat, next: nat, sum: nat)
    requires 0 < denominator && 0 < i && 0 < term && term * numerator / (denominator * i) == next
    requires term <= sum && (if next == 0 then sum == term
                             else TaylorTail(next, numerator, denominator, i + 1) == sum - term)
    ensures TaylorTail(term, numerator, denominator, i) == sum
  {
  }

  /** Two values that the reference tests of EIP-4844 give for `fake_exponential`: 6, and 542 after the division. */
  lemma FakeExponentialValues()
    ensures TaylorTail(1 * 1, 2, 1, 1) / 1 == 6
    ensures TaylorTail(10 * 2, 8, 2, 1) / 2 == 542
  {
    OneTerm(1, 2, 1, 4, 0, 1);
    OneTerm(2, 2, 1, 3, 1, 3);
    OneTerm(2, 2, 1, 2, 2, 5);
    OneTerm(1, 2, 1, 1, 2, 6);
    OneTerm(1, 8, 2, 12, 0, 1);
    OneTerm(5, 8, 2, 11, 1, 6);
    OneTerm(14, 8, 2, 10, 5, 20);
    OneTerm(32, 8, 2, 9, 14, 52);
    OneTerm(64, 8, 2, 8, 32, 116);
    OneTerm(113, 8, 2, 7, 64, 229);
    OneTerm(170, 8, 2, 6, 113, 399);
    OneTerm(213, 8, 2, 5, 170, 612);
    OneTerm(213, 8, 2, 4, 213, 825);
    OneTerm(160, 8, 2, 3, 213, 985);
    OneTerm(80, 8, 2, 2, 160, 1065);
    OneTerm(20, 8, 2, 1, 80, 1085);
  }

  // ----- the early-exit loop in 512 bits ------------------------------------------------------------------

  function Mul512(x: nat, y: nat): nat { Wrap(x * y, K512) }

  function Add512(x: nat, y: nat): nat { Wrap(x + y, K512) }

  lemma Fits(x: nat)
    requires x < K512
    ensures Wrap(x, K512) == x
  {
  }

  /** While the price stays below the reserve, the sum has at most 384 bits. */
  lemma SumFits(sum: nat, denominator: nat, reserve: nat)
    requires 0 < denominator < K128 && reserve < DATA_GAS_PER_BLOB * K256
    requires DATA_GAS_PER_BLOB * (sum / denominator) < reserve
    ensures sum < K384
  {
    assert sum / denominator < K256;
    QuotientBound(sum, denominator, K256);
    assert denominator * K256 < K128 * K256;
  }

  /** The 512-bit products and sums of one iteration do not wrap. */
  lemma IterationFits(sum: nat, term: nat, numerator: nat, denominator: nat, index: nat)
    requires 0 < denominator < K128 && numerator < K64
    requires sum < K384 && term <= sum && 0 < index <= sum
    ensures Mul512(term, numerator) == term * numerator
    ensures Mul512(denominator, index) == denominator * index
    ensures Add512(index, 1) == index + 1
    ensures NextTerm(term, numerator, denominator, index) < K448
  {
    ProductLess(term, K384, numerator, K64);
    Fits(term * numerator);
    ProductLess(denominator, K128, index, K384);
    Fits(denominator * index);
    Fits(index + 1);
    Positive(denominator, index);
    DivAtMost(term * numerator, denominator * index);
  }

  lemma PriceFits(sum: nat, term: nat, denominator: nat)
    requires 0 < denominator && sum < K384 && term < K448
    ensures Add512(sum, term) == sum + term
    ensures Mul512(DATA_GAS_PER_BLOB, (sum + term) / denominator) == DATA_GAS_PER_BLOB * ((sum + term) / denominator)
  {
    Fits(sum + term);
    DivAtMost(sum + term, denominator);
    Fits(DATA_GAS_PER_BLOB * ((sum + term) / denominator));
  }

  /** The invariant of the loop: `total` is what the unbounded sum comes to. */
  predicate Summing(sum: nat, term: nat, index: nat, numerator: nat, denominator: nat, reserve: nat, total: nat) {
    && 0 < denominator < K128 && numerator < K64 && reserve < DATA_GAS_PER_BLOB * K256
    && 0 < index <= sum + 1
    && sum < K384 && term < K448
    && sum + TaylorTail(term, numerator, denominator, index) == total
  }

  lemma Iteration(sum: nat, term: nat, index: nat, numerator: nat, denominator: nat, reserve: nat, total: nat)
    requires Summing(sum, term, index, numerator, denominator, reserve, total) && term != 0
    requires DATA_GAS_PER_BLOB * ((sum + term) / denominator) < reserve
    ensures 0 < Mul512(denominator, index) && Add512(index, 1) == index + 1
    ensures var next := Mul512(term, numerator) / Mul512(denominator, index);
            && next == NextTerm(term, numerator, denominator, index)
            && Summing(sum + term, next, index + 1, numerator, denominator, reserve, total)
  {
    SumFits(sum + term, denominator, reserve);
    IterationFits(sum + term, term, numerator, denominator, index);
    Positive(denominator, index);
  }

  /** Below, at or above the reserve, the sum so far already decides an early exit. */
  lemma EarlyExit(sum: nat, term: nat, index: nat, numerator: nat, denominator: nat, reserve: nat, total: nat)
    requires Summing(sum, term, index, numerator, denominator, reserve, total) && term != 0
    requires DATA_GAS_PER_BLOB * ((sum + term) / denominator) >= reserve
    ensures DATA_GAS_PER_BLOB * (total / denominator) >= reserve
  {
    DivMonotone(sum + term, total, denominator);
  }

  /**
   The early-exit loop: it terminates, no 512-bit operation wraps, and it decides exactly whether
   the reserve price exceeds the full, unbounded blob price.
   */
  method ReservePriceExceedsBlobPrice(params: BlobParams, excess: nat, baseFee: nat) returns (r: bool)
    requires params.Wide() && excess <= U64_MAX && baseFee <= U256_MAX
    ensures r <==> ReserveExceeds(params, excess, baseFee)
    ensures var price := TaylorTail(params.minBlobFee * params.updateFraction, excess, params.updateFraction, 1)
                         / params.updateFraction;
            r <==> params.blobBaseCost * baseFee > 0x2_0000 * price
  {
    var denominator, numerator := params.updateFraction, excess;
    StartFits(params, baseFee);
    var reserve := Mul512(params.blobBaseCost, baseFee);
    var term: nat := Mul512(params.minBlobFee, denominator);
    var sum: nat, index: nat := 0, 1;
    ghost var total := TaylorTail(term, numerator, denominator, 1);
    while term != 0
      invariant Summing(sum, term, index, numerator, denominator, reserve, total)
      decreases if index <= numerator / denominator then numerator / denominator + 1 - index else 0, term
    {
      PriceFits(sum, term, denominator);
      TermFalls(term, numerator, denominator, index);
      if Mul512(DATA_GAS_PER_BLOB, Add512(sum, term) / denominator) >= reserve {
        EarlyExit(sum, term, index, numerator, denominator, reserve, total);
        return false;
      }
      Iteration(sum, term, index, numerator, denominator, reserve, total);
      sum := Add512(sum, term);
      term := Mul512(term, numerator) / Mul512(denominator, index);
      index := Add512(index, 1);
    }
    PriceFits(sum, 0, denominator);
    r := reserve > Mul512(DATA_GAS_PER_BLOB, sum / denominator);
  }

  lemma StartFits(params: BlobParams, baseFee: nat)
    requires params.Wide() && baseFee <= U256_MAX
    ensures Mul512(params.blobBaseCost, baseFee) == params.blobBaseCost * baseFee < DATA_GAS_PER_BLOB * K256
    ensures Mul512(params.minBlobFee, params.updateFraction) == params.minBlobFee * params.updateFraction < K256
  {
    ProductLess(params.blobBaseCost, BLOB_BASE_COST + 1, baseFee, K256);
    ProductLess(params.minBlobFee, K128, params.updateFraction, K128);
    Fits(params.blobBaseCost * baseFee);
    Fits(params.minBlobFee * params.updateFraction);
  }

  // ----- the excess blob gas update ------------------------------------------------------------------------

  /** The update of EIP-7918, section "Specification", in unbounded arithmetic. */
  function NextExcess(params: BlobParams, excess: nat, used: nat, baseFee: nat): nat
    requires 0 < params.updateFraction && params.Checked()
  {
    var target := params.targetBlobCount * DATA_GAS_PER_BLOB;
    if excess + used < target then 0
    else if ReserveExceeds(params, excess, baseFee) then
      excess + Scaled(used, params.targetBlobCount, params.maxBlobCount)
    else excess + used - target
  }

  /** The used blob gas scaled by the share of blobs above the target. */
  function Scaled(used: nat, target: nat, max: nat): nat
    requires target <= max && 0 < max
  {
    Divide(used * (max - target), max);
    used * (max - target) / max
  }

  lemma ScaledAtMostUsed(used: nat, target: nat, max: nat)
    requires target <= max && 0 < max
    ensures Scaled(used, target, max) <= used
  {
    MulAtMost(max - target, max, used);
    MulLess(used, used + 1, max);
    DivLess(used * (max - target), max, used + 1);
  }

  function Word64(x: nat): nat { Wrap(x, K64) }

  function Word128(x: nat): nat { Wrap(x, K128) }

  lemma NoWrap64(x: nat)
    requires x <= U64_MAX
    ensures Word64(x) == x
  {
  }

  lemma NoWrap128(x: nat)
    requires x < K128
    ensures Word128(x) == x
  {
  }

  /** The scaled blob gas, computed in 128 bits and cut to 64, loses nothing. */
  lemma ScaledFits(excess: nat, used: nat, target: nat, max: nat)
    requires target <= max <= U64_MAX && 0 < max && excess + used <= U64_MAX
    ensures var scaled := Word128(used * (max - target)) / max;
            0 <= scaled && Word64(excess + Word64(scaled)) == excess + Scaled(used, target, max)
  {
    ProductLess(used, K64, max - target, K64);
    NoWrap128(used * (max - target));
    ScaledAtMostUsed(used, target, max);
    NoWrap64(Scaled(used, target, max));
    NoWrap64(excess + Scaled(used, target, max));
  }

  lemma CheckedFits(params: BlobParams)
    requires params.Checked()
    ensures params.targetBlobCount * DATA_GAS_PER_BLOB <= U64_MAX && params.maxBlobCount <= U64_MAX
  {
  }

  /** `share` is `used * (max - target) / max`, rounded down. */
  predicate IsShare(share: int, used: nat, target: nat, max: nat) {
    share * max <= used * (max - target) < (share + 1) * max
  }

  /** The excess `r` after a parent, case by case: below the target, above it with a reserve price, and without. */
  ghost predicate Updates(params: BlobParams, excess: nat, used: nat, reserveExceeds: bool, r: nat) {
    var target := params.targetBlobCount * 0x2_0000;
    && (excess + used < target ==> r == 0)
    && (excess + used >= target && reserveExceeds ==>
          IsShare(r - excess, used, params.targetBlobCount, params.maxBlobCount))
    && (excess + used >= target && !reserveExceeds ==> r + target == excess + used)
  }

  lemma ScaledIsShare(used: nat, target: nat, max: nat)
    requires target <= max && 0 < max
    ensures IsShare(Scaled(used, target, max), used, target, max)
  {
    Divide(used * (max - target), max);
    assert (Scaled(used, target, max) + 1) * max == Scaled(used, target, max) * max + max;
  }

  lemma NextExcessUpdates(params: BlobParams, excess: nat, used: nat, baseFee: nat)
    requires 0 < params.updateFraction && params.Checked()
    ensures Updates(params, excess, used, ReserveExceeds(params, excess, baseFee),
                    NextExcess(params, excess, used, baseFee))
  {
    ScaledIsShare(used, params.targetBlobCount, params.maxBlobCount);
  }

  /**
   The update in the source's 64-bit and 128-bit arithmetic: for every schedule and parent that
   pass the checks it is the unbounded update, so nothing wraps and no cast cuts bits off.
   */
  method NextExcessBlobGas(params: BlobParams, parentExcess: nat, parentUsed: nat, parentBaseFee: nat)
    returns (r: nat)
    requires params.Wide() && params.Checked()
    requires parentExcess + parentUsed <= U64_MAX && parentBaseFee <= U256_MAX
    ensures r == NextExcess(params, parentExcess, parentUsed, parentBaseFee)
    ensures Updates(params, parentExcess, parentUsed, ReserveExceeds(params, parentExcess, parentBaseFee), r)
    ensures r <= U64_MAX
  {
    NextExcessUpdates(params, parentExcess, parentUsed, parentBaseFee);
    CheckedFits(params);
    var excess := Word64(parentExcess + parentUsed);
    NoWrap64(parentExcess + parentUsed);
    var target := Word64(params.targetBlobCount * DATA_GAS_PER_BLOB);
    NoWrap64(params.targetBlobCount * DATA_GAS_PER_BLOB);
    if excess < target { return 0; }
    var exceeds := ReservePriceExceedsBlobPrice(params, parentExcess, parentBaseFee);
    if exceeds {
      r := AddScaled(parentExcess, parentUsed, params.targetBlobCount, params.maxBlobCount);
    } else {
      r := excess - target;
    }
  }

  /** The reserve branch: the scaled blob gas is at most the used one, so the sum stays in 64 bits. */
  method AddScaled(excess: nat, used: nat, target: nat, max: nat) returns (r: nat)
    requires target <= max <= U64_MAX && 0 < max && excess + used <= U64_MAX
    ensures r == excess + Scaled(used, target, max) <= U64_MAX
  {
    ScaledFits(excess, used, target, max);
    ScaledAtMostUsed(used, target, max);
    var scaled := Word128(used * (max - target)) / max;
    r := Word64(excess + Word64(scaled));
  }

  /** No other excess meets the three cases. */
  lemma UpdateIsUnique(params: BlobParams, excess: nat, used: nat, reserveExceeds: bool, r: nat, s: nat)
    requires params.maxBlobCount != 0
    requires Updates(params, excess, used, reserveExceeds, r) && Updates(params, excess, used, reserveExceeds, s)
    ensures r == s
  {
    if excess + used >= params.targetBlobCount * 0x2_0000 && reserveExceeds {
      ShareIsUnique(r - excess, s - excess, used * (params.maxBlobCount - params.targetBlobCount), params.maxBlobCount);
    }
  }

  lemma ShareIsUnique(r: int, s: int, whole: int, max: nat)
    requires 0 < max && r * max <= whole < (r + 1) * max && s * max <= whole < (s + 1) * max
    ensures r == s
  {
  }

  /** The excess never passes what the parent carried and used. */
  lemma ExcessAtMostCarried(params: BlobParams, excess: nat, used: nat, baseFee: nat)
    requires 0 < params.updateFraction && params.Checked()
    ensures NextExcess(params, excess, used, baseFee) <= excess + used
  {
    ScaledAtMostUsed(used, params.targetBlobCount, params.maxBlobCount);
  }

  /** Without a reserve price the update is the one of EIP-4844, section "Gas accounting". */
  lemma PlainUpdate(params: BlobParams, excess: nat, used: nat, baseFee: nat)
    requires 0 < params.updateFraction && params.Checked() && params.blobBaseCost == 0
    ensures var target := params.targetBlobCount * DATA_GAS_PER_BLOB;
            NextExcess(params, excess, used, baseFee) == if excess + used < target then 0 else excess + used - target
  {
    assert params.blobBaseCost * baseFee == 0;
  }

  lemma ScaledMonotone(less: nat, more: nat, target: nat, max: nat)
    requires target <= max && 0 < max && less <= more
    ensures Scaled(less, target, max) <= Scaled(more, target, max)
  {
    MulAtMost(less, more, max - target);
    DivMonotone(less * (max - target), more * (max - target), max);
  }

  /** More blob gas in the parent never lowers the excess. */
  lemma MonotoneInUsed(params: BlobParams, excess: nat, less: nat, more: nat, baseFee: nat)
    requires 0 < params.updateFraction && params.Checked() && less <= more
    ensures NextExcess(params, excess, less, baseFee) <= NextExcess(params, excess, more, baseFee)
  {
    ScaledMonotone(less, more, params.targetBlobCount, params.maxBlobCount);
  }

  lemma NoLowerWithinMax(used: nat, target: nat, max: nat, gas: nat)
    requires target <= max && 0 < max && (target == 0 || used <= max * gas)
    ensures Scaled(used, target, max) >= used - target * gas
  {
    var kept := used * (max - target);
    assert kept == used * max - used * target;
    if used >= target * gas {
      var q := used - target * gas;
      assert q * max == used * max - (target * gas) * max;
      if target > 0 {
        MulAtMost(used, max * gas, target);
        assert (max * gas) * target == (target * gas) * max;
      }
      FloorAtLeast(kept, max, q);
    }
  }

  lemma LowerBeyondMax(used: nat, target: nat, max: nat, gas: nat)
    requires target <= max && 0 < target && max * gas < used
    ensures Scaled(used, target, max) < used - target * gas
  {
    var kept := used * (max - target);
    assert kept == used * max - used * target;
    MulAtMost(target, max, gas);
    var q := used - target * gas;
    assert q * max == used * max - (target * gas) * max;
    MulLess(max * gas, used, target);
    assert (max * gas) * target == (target * gas) * max;
    DivLess(kept, max, q);
  }

  /**
   The reserve branch yields at least as much as the target subtraction exactly when the parent
   used no more blob gas than its maximum, or the target is zero.
   */
  lemma ReserveBranchIsNoLower(params: BlobParams, excess: nat, used: nat)
    requires params.Checked()
    ensures var target := params.targetBlobCount * DATA_GAS_PER_BLOB;
            excess + Scaled(used, params.targetBlobCount, params.maxBlobCount) >= excess + used - target <==>
            used <= params.maxBlobCount * DATA_GAS_PER_BLOB || params.targetBlobCount == 0
  {
    var t, max := params.targetBlobCount, params.maxBlobCount;
    if t == 0 || used <= max * DATA_GAS_PER_BLOB {
      NoLowerWithinMax(used, t, max, DATA_GAS_PER_BLOB);
    } else {
      LowerBeyondMax(used, t, max, DATA_GAS_PER_BLOB);
    }
  }
}
