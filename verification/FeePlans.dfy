/** What a fee plan says, told by inequalities, and exactly when there is one. */
module FeePlans {
  import opened Prelude
  import opened Fees

  // ---------------------------------------------------------------- roundings

  /** The gas limit is the buffered estimate, rounded down, and one more. */
  lemma {:induction false} GasLimitIs(policy: Policy, estimate: nat)
    requires policy.Valid()
    ensures policy.denominator * (GasLimit(policy, estimate) - 1) <= estimate * policy.numerator < policy.denominator * GasLimit(policy, estimate)
  {
    DivParts(estimate * policy.numerator, policy.denominator);
  }

  /** A replacement's floor is the least whole fee that is positive and an eighth higher. */
  lemma {:induction false} FloorIsLeast(previous: nat, fee: int)
    ensures fee >= ReplacementFloor(previous) <==> fee >= 1 && 8 * fee >= 9 * previous
  {
  }

  /** Each projected block raises the base fee by the least whole amount that is at least an eighth. */
  lemma {:induction false} ProjectionRises(base: int, blocks: nat, fee: int)
    ensures Projected(base, 0) == base
    ensures fee >= Projected(base, blocks + 1) <==> 8 * fee >= 9 * Projected(base, blocks)
  {
  }

  /** The update rule at its corners: a block at its target keeps the base fee, a full one raises it by an eighth or one wei, an
      empty one lowers it by an eighth; and only a block above its target raises it. */
  lemma {:induction false} BaseFeeCorners(base: int, b: Block)
    requires 1 <= base && b.Valid()
    ensures b.used == b.target ==> NextBaseFee(base, b) == base
    ensures b.used == 2 * b.target ==> NextBaseFee(base, b) == base + Max(base / 8, 1)
    ensures b.used == 0 ==> NextBaseFee(base, b) == base - base / 8
    ensures NextBaseFee(base, b) > base <==> b.used > b.target
  {
    DivCancels(base, b.target);
    if b.used > b.target {
      ShareBound(base, b.used - b.target, b.target);
    } else if b.used < b.target {
      ShareBound(base, b.target - b.used, b.target);
    }
  }

  // ---------------------------------------------------------------- the fees of a plan

  /** The chain tells a base fee. */
  predicate HasBaseFee(a: Answers) {
    a.baseFee.Some? && a.baseFee.value != 0
  }

  /** The transaction offers a tip of its own: Ethereum always, other chains when a tip was suggested. */
  predicate HasTip(chainId: int, a: Answers) {
    HasBaseFee(a) && (chainId == 1 || a.suggestedTip.Some?)
  }

  /** What the tip would be: the suggestion, at least the policy's minimum; without one the gas price. */
  function FirstTip(policy: Policy, a: Answers): int {
    match a.suggestedTip
    case Some(tip) => if tip >= policy.minimumTip then tip else policy.minimumTip
    case None => a.gasPrice
  }

  /** The fees of a new transaction: the gas price where there is no tip; on Ethereum the least fee that is 1.3 times the base fee,
      with the tip cut to what that leaves; elsewhere the projected base fee and the whole tip. */
  lemma {:induction false} NewFees(policy: Policy, chainId: int, a: Answers, cap: Option<int>)
    requires policy.Valid() && Plan(policy, chainId, a, None, cap).Ok?
    ensures var p := Plan(policy, chainId, a, None, cap).value;
            && (p.tip.Some? <==> HasTip(chainId, a))
            && p.gasLimit == GasLimit(policy, a.estimate) && a.l1Fee == Some(p.l1Fee)
            && (!HasTip(chainId, a) ==> p.maxFee == a.gasPrice)
            && (HasTip(chainId, a) && chainId == 1 ==>
                  && 10 * (p.maxFee - 1) < 13 * a.baseFee.value <= 10 * p.maxFee
                  && p.tip.value == Min(FirstTip(policy, a), p.maxFee - a.baseFee.value))
            && (HasTip(chainId, a) && chainId != 1 ==>
                  p.tip.value == FirstTip(policy, a) && p.maxFee == Projected(a.baseFee.value, policy.horizon) + p.tip.value)
  {
  }

  /** The replaced transaction's own maximum: its fee, or its gas price when it is a legacy one. */
  ghost predicate Offered(replaced: Request, fee: nat) {
    replaced.maxFee == Some(fee) || (replaced.maxFee.None? && replaced.gasPrice == Some(fee))
  }

  ghost predicate OfferedAsTip(replaced: Request, tip: nat) {
    || replaced.tip == Some(tip)
    || (replaced.tip.None? && replaced.gasPrice == Some(tip))
    || (replaced.tip.None? && replaced.gasPrice.None? && tip == 0)
  }

  /** A replacement's fees: those of a new transaction, unless an eighth above the replaced ones is more; never less than the tip. */
  lemma {:induction false} ReplacementFees(policy: Policy, chainId: int, a: Answers, replaced: Request, fee: nat, tip: nat)
    requires policy.Valid() && Offered(replaced, fee) && OfferedAsTip(replaced, tip)
    requires Plan(policy, chainId, a, None, None).Ok?
    ensures var r := Plan(policy, chainId, a, Some(replaced), None);
            var unraised := Plan(policy, chainId, a, None, None).value;
            && r.Ok? && r.value.gasLimit == unraised.gasLimit && r.value.l1Fee == unraised.l1Fee
            && (match unraised.tip
                case None => r.value.tip.None? && r.value.maxFee == Max(unraised.maxFee, ReplacementFloor(fee))
                case Some(t) =>
                  && r.value.tip == Some(Max(t, ReplacementFloor(tip)))
                  && r.value.maxFee == Max(Max(unraised.maxFee, ReplacementFloor(fee)), r.value.tip.value))
  {
  }

  /** Exactly when there is a plan: a sensible cap, an estimate within the ceiling, a price, a known fee to replace, a known
      layer-one fee, and a total within the cap. */
  lemma {:induction false} PlanIff(policy: Policy, chainId: int, a: Answers, replaced: Option<Request>, cap: Option<int>)
    requires policy.Valid()
    ensures Plan(policy, chainId, a, replaced, cap).Ok?
            <==> && (cap.Some? ==> cap.value > 0)
                 && a.estimate > 0 && GasLimit(policy, a.estimate) <= policy.maxGasLimit
                 && (a.gasPrice > 0 || (HasBaseFee(a) && a.suggestedTip.Some?))
                 && (replaced.Some? ==> exists fee :: Offered(replaced.value, fee))
                 && a.l1Fee.Some?
                 && (cap.Some? ==> Plan(policy, chainId, a, replaced, None).Ok?
                                   && (var p := Plan(policy, chainId, a, replaced, None).value;
                                       p.gasLimit * p.maxFee + p.l1Fee <= cap.value))
    ensures Plan(policy, chainId, a, replaced, cap).Ok? ==>
              Plan(policy, chainId, a, replaced, None) == Plan(policy, chainId, a, replaced, cap)
  {
    if replaced.Some? && OldMaxFee(replaced.value).Some? {
      assert Offered(replaced.value, OldMaxFee(replaced.value).value);
    }
  }
}
