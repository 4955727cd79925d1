/** Fee planning: the gas limit, the maximum fee that outlasts the coming blocks, and replacements. Amounts are exact wei. */
module Fees {
  import opened Prelude

  /** A policy that the constructor accepts. */
  datatype Policy = Policy(numerator: int, denominator: int, maxGasLimit: int, horizon: nat, minimumTip: nat) {
    predicate Valid() {
      0 < denominator <= numerator && 0 < maxGasLimit
    }
  }

  const DEFAULT_POLICY := Policy(12, 10, 30_000_000, 2, 0)

  /** What a request already says about fees. */
  datatype Request = Request(maxFee: Option<nat>, tip: Option<nat>, gasPrice: Option<nat>)

  /** What the providers answer: `suggestedTip` is `None` when only `eth_gasPrice` is left, and `l1Fee` when it cannot be had. */
  datatype Answers = Answers(estimate: nat, baseFee: Option<nat>, suggestedTip: Option<nat>, gasPrice: nat, l1Fee: Option<nat>)

  /** `tip` is `None` for a legacy transaction, whose `maxFee` is its gas price. */
  datatype Planned = Planned(gasLimit: int, maxFee: int, tip: Option<int>, l1Fee: nat)

  datatype Error = InvalidCap | InvalidEstimate | GasLimitTooHigh | InvalidGasPrice | FeeQuoteMissing | L1FeeUnavailable | CapExceeded

  function NextProjected(base: int): int {
    (base * 9 + 7) / 8
  }

  function Projected(base: int, blocks: nat): int {
    if blocks == 0 then base else NextProjected(Projected(base, blocks - 1))
  }

  function ReplacementFloor(previous: int): int {
    Max(1, (previous * 9 + 7) / 8)
  }

  /** `None` when the replaced transaction has no fee at all. */
  function OldMaxFee(replaced: Request): Option<nat> {
    if replaced.maxFee.Some? then replaced.maxFee else replaced.gasPrice
  }

  function OldTip(replaced: Request): nat {
    if replaced.tip.Some? then replaced.tip.value else replaced.gasPrice.GetOr(0)
  }

  function GasLimit(policy: Policy, estimate: int): int
    requires policy.Valid()
  {
    estimate * policy.numerator / policy.denominator + 1
  }

  function Total(p: Planned): int {
    p.gasLimit * p.maxFee + p.l1Fee
  }

  /** The maximum fee and tip before any replacement. */
  function Quoted(policy: Policy, chainId: int, a: Answers): Result<(int, Option<int>), Error> {
    if a.baseFee == None || a.baseFee == Some(0) then
      if a.gasPrice == 0 then Err(InvalidGasPrice) else Ok((a.gasPrice, None))
    else if a.suggestedTip.None? && a.gasPrice == 0 then Err(InvalidGasPrice)
    else
      var base := a.baseFee.value;
      var tip := if a.suggestedTip.Some? then Max(policy.minimumTip, a.suggestedTip.value) else a.gasPrice;
      if chainId == 1 then
        var maxFee := (base * 13 + 9) / 10;
        Ok((maxFee, Some(Min(tip, maxFee - base))))
      else if a.suggestedTip.None? then Ok((tip, None))
      else Ok((Projected(base, policy.horizon) + tip, Some(tip)))
  }

  /** The same fees, raised to replace another transaction. */
  function Raised(maxFee: int, tip: Option<int>, replaced: Option<Request>): Result<(int, Option<int>), Error> {
    if replaced.None? then Ok((maxFee, tip))
    else if OldMaxFee(replaced.value).None? then Err(FeeQuoteMissing)
    else
      var raisedFee := Max(maxFee, ReplacementFloor(OldMaxFee(replaced.value).value));
      if tip.None? then Ok((raisedFee, None))
      else
        var raisedTip := Max(tip.value, ReplacementFloor(OldTip(replaced.value)));
        Ok((Max(raisedFee, raisedTip), Some(raisedTip)))
  }

  function Plan(policy: Policy, chainId: int, a: Answers, replaced: Option<Request>,
        cap: Option<int>): Result<Planned, Error>
    requires policy.Valid()
  {
    if cap.Some? && cap.value <= 0 then Err(InvalidCap)
    else if a.estimate == 0 then Err(InvalidEstimate)
    else if GasLimit(policy, a.estimate) > policy.maxGasLimit then Err(GasLimitTooHigh)
    else match Quoted(policy, chainId, a)
      case Err(e) => Err(e)
      case Ok((maxFee, tip)) =>
        match Raised(maxFee, tip, replaced)
        case Err(e) => Err(e)
        case Ok((maxFee, tip)) =>
          if a.l1Fee.None? then Err(L1FeeUnavailable)
          else
            var planned := Planned(GasLimit(policy, a.estimate), maxFee, tip, a.l1Fee.value);
            if cap.Some? && Total(planned) > cap.value then Err(CapExceeded) else Ok(planned)
  }

  /** The planner's own steps: fees are set and then raised in place. */
  method PlanFees(policy: Policy, chainId: int, a: Answers, replaced: Option<Request>,
        cap: Option<int>) returns (r: Result<Planned, Error>)
    requires policy.Valid()
    ensures r == Plan(policy, chainId, a, replaced, cap)
  {
    if cap.Some? && cap.value <= 0 { return Err(InvalidCap); }
    if a.estimate == 0 { return Err(InvalidEstimate); }
    var gasLimit := a.estimate * policy.numerator / policy.denominator + 1;
    if gasLimit > policy.maxGasLimit { return Err(GasLimitTooHigh); }
    var maxFee, tip, eip1559 := 0, 0, false;
    if a.baseFee == None || a.baseFee == Some(0) {
      if a.gasPrice == 0 { return Err(InvalidGasPrice); }
      maxFee := a.gasPrice;
    } else {
      if a.suggestedTip.Some? {
        tip := Max(policy.minimumTip, a.suggestedTip.value);
      } else {
        if a.gasPrice == 0 { return Err(InvalidGasPrice); }
        tip := a.gasPrice;
      }
      if chainId == 1 {
        maxFee := (a.baseFee.value * 13 + 9) / 10;
        tip := Min(tip, maxFee - a.baseFee.value);
        eip1559 := true;
      } else if a.suggestedTip.None? {
        maxFee := tip;
      } else {
        var projected: int := a.baseFee.value;
        for block := 0 to policy.horizon
          invariant projected == Projected(a.baseFee.value, block)
        {
          projected := (projected * 9 + 7) / 8;
        }
        maxFee := projected + tip;
        eip1559 := true;
      }
    }
    if replaced.Some? {
      if OldMaxFee(replaced.value).None? { return Err(FeeQuoteMissing); }
      maxFee := Max(maxFee, ReplacementFloor(OldMaxFee(replaced.value).value));
      if eip1559 {
        tip := Max(tip, ReplacementFloor(OldTip(replaced.value)));
        maxFee := Max(maxFee, tip);
      }
    }
    if a.l1Fee.None? { return Err(L1FeeUnavailable); }
    var planned := Planned(gasLimit, maxFee, if eip1559 then Some(tip) else None, a.l1Fee.value);
    if cap.Some? && Total(planned) > cap.value { return Err(CapExceeded); }
    r := Ok(planned);
  }

  // ---------------------------------------------------------------- base fees of the coming blocks

  /** A block's gas target, and the gas it uses: at most twice the target. */
  datatype Block = Block(target: nat, used: nat) {
    predicate Valid() {
      0 < target && used <= 2 * target
    }
  }

  /** The update rule in the Specification section of EIP-1559. */
  function NextBaseFee(base: int, b: Block): int
    requires b.Valid()
  {
    if b.used == b.target then base
    else if b.used > b.target then base + Max(base * (b.used - b.target) / b.target / 8, 1)
    else base - base * (b.target - b.used) / b.target / 8
  }

  ghost predicate ValidBlocks(blocks: seq<Block>) {
    forall i | 0 <= i < |blocks| :: blocks[i].Valid()
  }

  function BaseFeeAfter(base: int, blocks: seq<Block>): int
    requires ValidBlocks(blocks)
  {
    if blocks == [] then base else NextBaseFee(BaseFeeAfter(base, blocks[..|blocks| - 1]), blocks[|blocks| - 1])
  }

  /** The base fee after full blocks only. */
  function WorstBaseFee(base: int, blocks: nat): int {
    if blocks == 0 then base
    else
      var before := WorstBaseFee(base, blocks - 1);
      before + Max(before / 8, 1)
  }

  lemma {:induction false} ShareBound(base: int, part: nat, target: nat)
    requires 1 <= base && part <= target && 0 < target
    ensures 0 <= base * part / target <= base
  {
    assert 0 <= base * part <= base * target by {
      MulMonotone(base, part, target);
    }
    DivMonotone(base * part, base * target, target);
    DivCancels(base, target);
  }

  lemma {:induction false} DivCancels(a: int, d: int)
    requires 0 <= a && 0 < d
    ensures a * d / d == a
  {
    var product := a * d;
    var q, r := product / d, product % d;
    assert d * (a - q) == r;
    if a > q {
      MulMonotone(d, 1, a - q);
    } else if a < q {
      MulMonotone(d, 1, q - a);
    }
  }

  lemma {:induction false} MulMonotone(a: int, b: int, c: int)
    requires 0 <= a && 0 <= b <= c
    ensures 0 <= a * b <= a * c
  {
    assert a * c == a * b + a * (c - b);
  }

  lemma {:induction false} DivParts(a: int, d: int)
    requires 0 < d
    ensures d * (a / d) <= a < d * (a / d) + d
  {
    var q, r := a / d, a % d;
    assert a == d * q + r;
  }

  lemma {:induction false} DivMonotone(a: int, b: int, d: int)
    requires 0 <= a <= b && 0 < d
    ensures 0 <= a / d <= b / d
  {
    DivParts(a, d);
    DivParts(b, d);
    var p, q := a / d, b / d;
    if p > q {
      MulMonotone(d, 1, p - q);
    }
    if p < 0 {
      MulMonotone(d, 1, -p);
    }
  }

  /** One block: the base fee stays positive and rises by at most an eighth, or one wei. */
  lemma {:induction false} NextBounded(base: int, b: Block)
    requires 1 <= base && b.Valid()
    ensures 1 <= NextBaseFee(base, b) <= base + Max(base / 8, 1)
  {
    if b.used > b.target {
      ShareBound(base, b.used - b.target, b.target);
    } else if b.used < b.target {
      ShareBound(base, b.target - b.used, b.target);
    }
  }

  lemma {:induction false} WorstGrows(base: int, fewer: nat, more: nat)
    requires 1 <= base && fewer <= more
    ensures 1 <= WorstBaseFee(base, fewer) <= WorstBaseFee(base, more)
    decreases more
  {
    if fewer < more {
      WorstGrows(base, fewer, more - 1);
    } else if more > 0 {
      WorstGrows(base, more - 1, more - 1);
    }
  }

  lemma {:induction false} NoBlocksExceedWorst(base: int, blocks: seq<Block>)
    requires 1 <= base && ValidBlocks(blocks)
    ensures 1 <= BaseFeeAfter(base, blocks) <= WorstBaseFee(base, |blocks|)
    decreases |blocks|
  {
    if blocks != [] {
      var n := |blocks| - 1;
      NoBlocksExceedWorst(base, blocks[..n]);
      NextBounded(BaseFeeAfter(base, blocks[..n]), blocks[n]);
    }
  }

  /** Full blocks reach it. */
  lemma {:induction false} FullBlocksReachWorst(base: int, n: nat) returns (blocks: seq<Block>)
    requires 1 <= base
    ensures |blocks| == n && ValidBlocks(blocks) && BaseFeeAfter(base, blocks) == WorstBaseFee(base, n)
  {
    if n == 0 {
      blocks := [];
    } else {
      var before := FullBlocksReachWorst(base, n - 1);
      blocks := before + [Block(1, 2)];
      assert blocks[..n - 1] == before;
    }
  }

  lemma {:induction false} ProjectionCoversWorst(base: int, n: nat)
    requires 1 <= base
    ensures WorstBaseFee(base, n) <= Projected(base, n)
  {
    if n > 0 {
      ProjectionCoversWorst(base, n - 1);
      WorstGrows(base, 0, n - 1);
    }
  }

  /** A fee pays the whole tip whichever blocks come first, as long as there are at most `n`. */
  ghost predicate OutlastsBlocks(base: int, n: nat, maxFee: int, tip: int) {
    forall blocks: seq<Block> | |blocks| <= n && ValidBlocks(blocks) :: BaseFeeAfter(base, blocks) + tip <= maxFee
  }

  lemma {:induction false} OutlastsIff(base: int, n: nat, maxFee: int, tip: int)
    requires 1 <= base
    ensures OutlastsBlocks(base, n, maxFee, tip) <==> WorstBaseFee(base, n) + tip <= maxFee
  {
    if WorstBaseFee(base, n) + tip <= maxFee {
      forall blocks: seq<Block> | |blocks| <= n && ValidBlocks(blocks) ensures BaseFeeAfter(base, blocks) + tip <= maxFee {
        NoBlocksExceedWorst(base, blocks);
        WorstGrows(base, |blocks|, n);
      }
    }
    if OutlastsBlocks(base, n, maxFee, tip) {
      var full := FullBlocksReachWorst(base, n);
      assert BaseFeeAfter(base, full) + tip <= maxFee;
    }
  }

  // ---------------------------------------------------------------- what a plan promises

  /** A new plan with a projected fee pays the base fee and the whole tip in any of the next blocks up to the horizon. */
  lemma {:induction false} HorizonIsCovered(policy: Policy, chainId: int, a: Answers, cap: Option<int>)
    requires policy.Valid() && chainId != 1
    requires var r := Plan(policy, chainId, a, None, cap); r.Ok? && r.value.tip.Some?
    ensures var p := Plan(policy, chainId, a, None, cap).value;
            && a.baseFee.Some? && OutlastsBlocks(a.baseFee.value, policy.horizon, p.maxFee, p.tip.value)
            && p.tip.value >= a.suggestedTip.value
  {
    ProjectionCoversWorst(a.baseFee.value, policy.horizon);
    var p := Plan(policy, chainId, a, None, cap).value;
    OutlastsIff(a.baseFee.value, policy.horizon, p.maxFee, p.tip.value);
  }

  /** A replacement does so exactly when its raised fee reaches the worst base fee plus the raised tip: the tip is raised after
      the projection was added up. */
  lemma {:induction false} ReplacementCoversIff(policy: Policy, chainId: int, a: Answers, replaced: Request,
        cap: Option<int>)
    requires policy.Valid() && chainId != 1
    requires var r := Plan(policy, chainId, a, Some(replaced), cap); r.Ok? && r.value.tip.Some?
    ensures var p := Plan(policy, chainId, a, Some(replaced), cap).value;
            var base := a.baseFee.value;
            OutlastsBlocks(base, policy.horizon, p.maxFee, p.tip.value) <==>
              var raisedTip := ReplacementFloor(OldTip(replaced));
              || raisedTip <= Max(policy.minimumTip, a.suggestedTip.value)
              || WorstBaseFee(base, policy.horizon) + raisedTip <=
                   Max(Projected(base, policy.horizon) + Max(policy.minimumTip, a.suggestedTip.value),
                       ReplacementFloor(OldMaxFee(replaced).value))
  {
    var p := Plan(policy, chainId, a, Some(replaced), cap).value;
    var base := a.baseFee.value;
    ProjectionCoversWorst(base, policy.horizon);
    WorstGrows(base, 0, policy.horizon);
    OutlastsIff(base, policy.horizon, p.maxFee, p.tip.value);
  }

  lemma {:induction false} ReplacementCanFallShort()
    ensures var a := Answers(21000, Some(100), Some(1), 0, Some(0));
            var r := Plan(DEFAULT_POLICY, 10, a, Some(Request(Some(1001), Some(1000), None)), None);
            r.Ok? && r.value.tip.Some? && !OutlastsBlocks(100, DEFAULT_POLICY.horizon, r.value.maxFee, r.value.tip.value)
  {
    var a := Answers(21000, Some(100), Some(1), 0, Some(0));
    var replaced := Request(Some(1001), Some(1000), None);
    assert Projected(100, 1) == 113 && Projected(100, 2) == 128;
    assert WorstBaseFee(100, 1) == 112 && WorstBaseFee(100, 2) == 126;
    var r := Plan(DEFAULT_POLICY, 10, a, Some(replaced), None);
    assert r == Ok(Planned(25201, 1127, Some(1125), 0));
    OutlastsIff(100, 2, 1127, 1125);
  }

  /** On Ethereum the fee is 1.3 times the base fee instead: it outlasts two full blocks exactly from a base fee of 4 wei, and
      the tip is what the fee leaves above the current base fee. */
  lemma {:induction false} MainnetOutlastsTwoIff(policy: Policy, a: Answers, cap: Option<int>)
    requires policy.Valid()
    requires var r := Plan(policy, 1, a, None, cap); r.Ok? && r.value.tip.Some?
    ensures var p := Plan(policy, 1, a, None, cap).value;
            && a.baseFee.value + p.tip.value <= p.maxFee
            && OutlastsBlocks(a.baseFee.value, 1, p.maxFee, 0)
            && (OutlastsBlocks(a.baseFee.value, 2, p.maxFee, 0) <==> a.baseFee.value >= 4)
  {
    var p := Plan(policy, 1, a, None, cap).value;
    var base := a.baseFee.value;
    OutlastsIff(base, 1, p.maxFee, 0);
    OutlastsIff(base, 2, p.maxFee, 0);
    assert WorstBaseFee(base, 1) == base + Max(base / 8, 1);
    var once := WorstBaseFee(base, 1);
    assert WorstBaseFee(base, 2) == once + Max(once / 8, 1);
  }

  /** What the transaction offers the block producer at most. */
  function OfferedTip(p: Planned): int {
    p.tip.GetOr(p.maxFee)
  }

  /** A replacement raises both fees by at least an eighth. */
  lemma {:induction false} ReplacementRaisesBoth(policy: Policy, chainId: int, a: Answers, replaced: Request,
        cap: Option<int>)
    requires policy.Valid() && Plan(policy, chainId, a, Some(replaced), cap).Ok?
    ensures var p := Plan(policy, chainId, a, Some(replaced), cap).value;
            && OldMaxFee(replaced).Some?
            && 8 * p.maxFee >= 9 * OldMaxFee(replaced).value && p.maxFee > OldMaxFee(replaced).value
            && (p.tip.Some? || OldTip(replaced) <= OldMaxFee(replaced).value ==> 8 * OfferedTip(p) >= 9 * OldTip(replaced) && OfferedTip(p) > OldTip(replaced))
  {
  }

  /** The limit is above the estimate and within the network's ceiling, the fee is at least the tip, and the whole fee is
      within the cap. */
  lemma {:induction false} PlanIsAffordable(policy: Policy, chainId: int, a: Answers, replaced: Option<Request>,
        cap: Option<int>)
    requires policy.Valid() && Plan(policy, chainId, a, replaced, cap).Ok?
    ensures var p := Plan(policy, chainId, a, replaced, cap).value;
            && a.estimate < p.gasLimit <= policy.maxGasLimit && 0 < p.maxFee && OfferedTip(p) <= p.maxFee
            && (cap.Some? ==> Total(p) <= cap.value)
  {
    GasLimitExceedsEstimate(policy, a.estimate);
    if a.baseFee.Some? && a.baseFee.value > 0 {
      ProjectionCoversWorst(a.baseFee.value, policy.horizon);
      WorstGrows(a.baseFee.value, 0, policy.horizon);
    }
  }

  lemma {:induction false} GasLimitExceedsEstimate(policy: Policy, estimate: nat)
    requires policy.Valid()
    ensures GasLimit(policy, estimate) > estimate
  {
    MulMonotone(estimate, policy.denominator, policy.numerator);
    DivMonotone(estimate * policy.denominator, estimate * policy.numerator, policy.denominator);
    DivCancels(estimate, policy.denominator);
  }
}
