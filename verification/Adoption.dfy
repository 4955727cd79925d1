/** The adoption of an old swap cost, told in rows: what each member of the group is proved to have cost, what the position's own
    cost may have been, and when the group's total has exactly one explanation. */
module Adoptions {
  import opened Prelude
  import opened JournalTables
  import opened LossLedger
  import opened Reactivations

  // ---------------------------------------------------------------- what one row proves

  /** The recorded swap of the position lost so much. */
  ghost predicate SwapLost(db: Db, q: nat, loss: real) {
    && (q, "swap_result") in db.checkpoints && db.checkpoints[(q, "swap_result")].SwapResult?
    && var c := db.checkpoints[(q, "swap_result")].conversion.loss; c.Some? && c.value.amount == loss && loss >= 0.0
  }

  ghost predicate NoSwap(db: Db, q: nat) {
    (q, "swap_result") in db.checkpoints ==> !db.checkpoints[(q, "swap_result")].SwapResult?
  }

  ghost predicate NoDeposit(db: Db, q: nat) {
    (q, "route_deposit") in db.checkpoints ==> !db.checkpoints[(q, "route_deposit")].RouteDeposit?
  }

  ghost predicate HasProvenance(db: Db, q: nat) {
    (q, "source_cost_provenance") in db.checkpoints && db.checkpoints[(q, "source_cost_provenance")].SourceCost?
  }

  ghost predicate DepositLost(db: Db, q: nat, loss: real) {
    && (q, "route_deposit") in db.checkpoints && db.checkpoints[(q, "route_deposit")].RouteDeposit?
    && var c := db.checkpoints[(q, "route_deposit")].loss; c.Some? && c.value.amount == loss && loss >= 0.0
  }

  /** The saved deposit is the one that the position's route was prepared for. */
  ghost predicate PreparedFor(db: Db, q: nat)
    requires q < |db.positions|
  {
    var key := if (q, "bridge_prepared") in db.checkpoints then "bridge_prepared" else "prepared";
    && (q, "route_deposit") in db.checkpoints && db.checkpoints[(q, "route_deposit")].RouteDeposit?
    && (q, key) in db.checkpoints && db.checkpoints[(q, key)].Prepared?
    && var deposit, prepared := db.checkpoints[(q, "route_deposit")], db.checkpoints[(q, key)];
       && deposit.target.Some? && deposit.target.value.assetId != "" && deposit.target.value.chainId.Some?
       && prepared.preparedTarget == deposit.target && prepared.depositAddress == deposit.recipient
       && Lower(prepared.wallet) == db.positions[q].wallet
  }

  /** Accounted for as a whole: no swap, or one whose cost is included. */
  ghost predicate Accounted(db: Db, q: nat, cost: real)
    requires q < |db.positions|
  {
    db.positions[q].accounted == Some(cost) && cost >= 0.0 && (NoSwap(db, q) || HasProvenance(db, q))
  }

  /** Accounted for by an old version, which left the swap out; only a finished row says so. */
  ghost predicate AccountedWithoutSwap(db: Db, q: nat, cost: real)
    requires q < |db.positions|
  {
    && db.positions[q].state == Completed && !HasProvenance(db, q)
    && exists rest, swap {:trigger SwapLost(db, q, swap), Accounts(db, q, rest)} ::
         Accounts(db, q, rest) && SwapLost(db, q, swap) && cost == rest + swap
  }

  ghost predicate Accounts(db: Db, q: nat, amount: real)
    requires q < |db.positions|
  {
    db.positions[q].accounted == Some(amount) && amount >= 0.0
  }

  ghost predicate Untouched(db: Db, q: nat, cost: real)
    requires q < |db.positions|
  {
    && db.positions[q].accounted.None? && db.positions[q].state == Planned && NoSwap(db, q) && NoDeposit(db, q)
    && (forall i | 0 <= i < |db.steps| :: db.steps[i].position != q)
    && cost == 0.0
  }

  /** Finished before it was accounted for: the loss of its credited deposit, and the swap's when there was one. */
  ghost predicate Finished(db: Db, q: nat, cost: real)
    requires q < |db.positions|
  {
    && db.positions[q].accounted.None? && db.positions[q].state == Completed
    && CreditBound(db, q) && PreparedFor(db, q)
    && exists route, swap {:trigger DepositLost(db, q, route), SwapCost(db, q, swap)} ::
         DepositLost(db, q, route) && SwapCost(db, q, swap) && cost == route + swap
  }

  ghost predicate SwapCost(db: Db, q: nat, cost: real) {
    (NoSwap(db, q) && cost == 0.0) || SwapLost(db, q, cost)
  }

  /** The rows of a member prove that it has cost so much. */
  ghost predicate RowsProve(db: Db, q: nat, cost: real)
    requires q < |db.positions|
  {
    Accounted(db, q, cost) || AccountedWithoutSwap(db, q, cost) || Untouched(db, q, cost) || Finished(db, q, cost)
  }

  lemma {:induction false} SwapLostIff(db: Db, q: nat, loss: real)
    ensures SwapLost(db, q, loss) <==> SwapOf(db, q).Some? && Money(SwapOf(db, q).value.loss) == Some(loss)
    ensures NoSwap(db, q) <==> SwapOf(db, q).None?
    ensures NoDeposit(db, q) <==> DepositOf(db, q).None?
    ensures HasProvenance(db, q) <==> ProvenanceOf(db, q).Some?
  {
  }

  lemma {:induction false} TerminalCostIff(db: Db, q: nat, cost: real)
    requires q < |db.positions|
    ensures TerminalRemainingCost(db, q) == Some(cost)
            <==> db.positions[q].state == Completed && CreditBound(db, q) && PreparedFor(db, q) && DepositLost(db, q, cost)
  {
    CreditVerifiedIff(db, q);
  }

  /** The program's cost of a sibling is the one that the rows prove, and it refuses exactly when they prove none. */
  lemma {:induction false} SiblingCostIff(db: Db, q: nat, cost: real)
    requires q < |db.positions|
    ensures SiblingCost(db, q) == Some(cost) <==> RowsProve(db, q, cost)
  {
    forall loss { SwapLostIff(db, q, loss); }
    if db.positions[q].accounted.Some? {
      AccountedIff(db, q, cost);
    } else {
      UnaccountedIff(db, q, cost);
    }
  }

  lemma {:induction false} AccountedIff(db: Db, q: nat, cost: real)
    requires q < |db.positions| && db.positions[q].accounted.Some?
    ensures SiblingCost(db, q) == Some(cost) <==> Accounted(db, q, cost) || AccountedWithoutSwap(db, q, cost)
  {
    var amount := db.positions[q].accounted.value;
    forall loss { SwapLostIff(db, q, loss); }
    if SwapOf(db, q).Some? && ProvenanceOf(db, q).None? && SiblingCost(db, q) == Some(cost) {
      var swap := Money(SwapOf(db, q).value.loss).value;
      assert Accounts(db, q, amount) && SwapLost(db, q, swap);
    }
  }

  lemma {:induction false} UnaccountedIff(db: Db, q: nat, cost: real)
    requires q < |db.positions| && db.positions[q].accounted.None?
    ensures SiblingCost(db, q) == Some(cost) <==> Untouched(db, q, cost) || Finished(db, q, cost)
  {
    forall loss { SwapLostIff(db, q, loss); }
    forall loss: real
      ensures TerminalRemainingCost(db, q) == Some(loss)
              <==> db.positions[q].state == Completed && CreditBound(db, q) && PreparedFor(db, q) && DepositLost(db, q, loss)
    {
      TerminalCostIff(db, q, loss);
    }
    assert HasStep(db.steps, q) <==> !(forall i | 0 <= i < |db.steps| :: db.steps[i].position != q);
    var route := TerminalRemainingCost(db, q);
    var source := SwapOf(db, q);
    if route.Some? && (source.Some? ==> Money(source.value.loss).Some?) {
      var swap := if source.Some? then Money(source.value.loss).value else 0.0;
      assert DepositLost(db, q, route.value) && SwapCost(db, q, swap);
    }
  }

  // ---------------------------------------------------------------- the whole group

  function Sum(costs: seq<real>): real {
    if costs == [] then 0.0 else Sum(costs[..|costs| - 1]) + costs[|costs| - 1]
  }

  /** What the rows prove for each member among the first positions; p and other groups count nothing. */
  ghost predicate MembersProve(db: Db, g: nat, p: nat, costs: seq<real>) {
    && |costs| <= |db.positions|
    && forall q | 0 <= q < |costs| ::
         if db.positions[q].group == Some(g) && q != p then RowsProve(db, q, costs[q]) else costs[q] == 0.0
  }

  lemma {:induction false} OthersCostIff(db: Db, g: nat, p: nat, n: nat, total: real)
    requires n <= |db.positions|
    ensures OthersCost(db, g, p, n) == Some(total)
            <==> exists costs :: |costs| == n && MembersProve(db, g, p, costs) && Sum(costs) == total
  {
    if OthersCost(db, g, p, n) == Some(total) {
      var costs := ProvedCosts(db, g, p, n);
    } else {
      forall costs | |costs| == n && MembersProve(db, g, p, costs) ensures Sum(costs) != total {
        CostsProved(db, g, p, costs);
      }
    }
  }

  lemma {:induction false} CostsProved(db: Db, g: nat, p: nat, costs: seq<real>)
    requires MembersProve(db, g, p, costs)
    ensures OthersCost(db, g, p, |costs|) == Some(Sum(costs))
  {
    if costs != [] {
      var n := |costs| - 1;
      CostsProved(db, g, p, costs[..n]);
      if db.positions[n].group == Some(g) && n != p {
        SiblingCostIff(db, n, costs[n]);
      }
    }
  }

  lemma {:induction false} OneMoreProved(db: Db, g: nat, p: nat, costs: seq<real>, own: real)
    requires MembersProve(db, g, p, costs) && |costs| < |db.positions|
    requires if db.positions[|costs|].group == Some(g) && |costs| != p then RowsProve(db, |costs|, own) else own == 0.0
    ensures MembersProve(db, g, p, costs + [own]) && Sum(costs + [own]) == Sum(costs) + own
  {
    assert (costs + [own])[..|costs|] == costs;
  }

  lemma {:induction false} ProvedCosts(db: Db, g: nat, p: nat, n: nat) returns (costs: seq<real>)
    requires n <= |db.positions| && OthersCost(db, g, p, n).Some?
    ensures |costs| == n && MembersProve(db, g, p, costs) && Sum(costs) == OthersCost(db, g, p, n).value
  {
    costs := [];
    if n > 0 {
      var before := ProvedCosts(db, g, p, n - 1);
      var own := 0.0;
      if db.positions[n - 1].group == Some(g) && n - 1 != p {
        own := SiblingCost(db, n - 1).value;
        SiblingCostIff(db, n - 1, own);
      }
      OneMoreProved(db, g, p, before, own);
      costs := before + [own];
    }
  }

  // ---------------------------------------------------------------- the position's own rows

  /** What the position may have cost after its swap: what it accounted for; or its saved deposit, paid or not; or nothing, when
      it never got past the swap. */
  ghost predicate OwnRest(db: Db, p: nat, rest: real)
    requires p < |db.positions|
  {
    if db.positions[p].accounted.Some? then Accounts(db, p, rest)
    else if !NoDeposit(db, p) then exists loss :: DepositLost(db, p, loss) && (rest == 0.0 || rest == loss)
    else
      rest == 0.0 && forall i | 0 <= i < |db.steps| && db.steps[i].position == p :: LikePrefix("swap_to_native:", db.steps[i].key)
  }

  /** The rows show that the group already paid for the swap. */
  ghost predicate SwapCharged(db: Db, p: nat, result: Conversion)
    requires p < |db.positions|
  {
    var row := db.positions[p];
    || (row.state == Converted && row.actualAsset == Some(result.asset) && row.actualBalance == Some(result.balance) && result.asText)
    || exists e | e in db.events :: e.position == p && e.kind == RequoteAfterSwap && e.asset == result.asset
  }

  lemma {:induction false} OwnRestIff(db: Db, p: nat, rest: real)
    requires p < |db.positions|
    ensures RemainingOptions(db, p).Some? && rest in RemainingOptions(db, p).value <==> OwnRest(db, p, rest)
  {
    SwapLostIff(db, p, 0.0);
    if !NoDeposit(db, p) {
      var loss := Money(DepositOf(db, p).value.loss);
      if loss.Some? { assert DepositLost(db, p, loss.value); }
    }
  }

  lemma {:induction false} OptionsAre(db: Db, p: nat)
    requires p < |db.positions|
    ensures RemainingOptions(db, p).Some? <==> exists rest :: OwnRest(db, p, rest)
    ensures RemainingOptions(db, p).Some? ==>
              Distinct(RemainingOptions(db, p).value)
              && forall rest: real :: rest in RemainingOptions(db, p).value <==> OwnRest(db, p, rest)
  {
    forall rest: real ensures RemainingOptions(db, p).Some? && rest in RemainingOptions(db, p).value <==> OwnRest(db, p, rest) {
      OwnRestIff(db, p, rest);
    }
    if RemainingOptions(db, p).Some? {
      assert RemainingOptions(db, p).value[0] in RemainingOptions(db, p).value;
    }
  }

  lemma {:induction false} SwapChargedIff(db: Db, p: nat, result: Conversion)
    requires p < |db.positions|
    ensures ChargedProof(db, p, result) <==> SwapCharged(db, p, result)
  {
    if i :| 0 <= i < |db.events| && db.events[i].position == p && db.events[i].kind == RequoteAfterSwap && db.events[i].asset == result.asset {
      assert db.events[i] in db.events;
    }
  }

  // ---------------------------------------------------------------- adoption

  /** The others, the swap when it was charged, and the rest make up what the group has paid. */
  ghost predicate Explains(db: Db, p: nat, result: Conversion, others: real, paid: real, charged: bool, rest: real)
    requires p < |db.positions| && result.loss.Some?
  {
    && OwnRest(db, p, rest) && (SwapCharged(db, p, result) ==> charged)
    && paid == others + rest + if charged then result.loss.value.amount else 0.0
  }

  ghost predicate OnlyExplanation(db: Db, p: nat, result: Conversion, others: real, paid: real, charged: bool, rest: real)
    requires p < |db.positions| && result.loss.Some?
  {
    && Explains(db, p, result, others, paid, charged, rest)
    && forall c, r | Explains(db, p, result, others, paid, c, r) :: c == charged && r == rest
  }

  /** The rows can be read: the position has a group of one wallet, and no amount is negative or missing. */
  ghost predicate Readable(db: Db, p: nat, result: Conversion, g: nat) {
    && p < |db.positions| && g < |db.groups| && db.positions[p].group == Some(g)
    && (forall q: nat | Member(db, g, q) :: db.positions[q].wallet == db.positions[p].wallet)
    && result.loss.Some? && result.loss.value.amount >= 0.0 && db.groups[g].realized >= 0.0
    && (!NoDeposit(db, p) ==> db.checkpoints[(p, "route_deposit")].loss.Some?)
  }

  /** One decomposition of the group's total into the proved costs of the others, the swap and the rest. */
  ghost predicate Explanation(db: Db, p: nat, result: Conversion, g: nat, costs: seq<real>, charged: bool, rest: real)
    requires Readable(db, p, result, g)
  {
    && |costs| == |db.positions| && MembersProve(db, g, p, costs)
    && OnlyExplanation(db, p, result, Sum(costs), db.groups[g].realized, charged, rest)
  }

  lemma {:induction false} OnlyFitIff(db: Db, p: nat, result: Conversion, others: real, paid: real, charged: bool, rest: real)
    requires p < |db.positions| && result.loss.Some? && RemainingOptions(db, p).Some?
    ensures OnlyFit(RemainingOptions(db, p).value, others, result.loss.value.amount, paid, ChargedProof(db, p, result), charged, rest)
            <==> OnlyExplanation(db, p, result, others, paid, charged, rest)
  {
    OptionsAre(db, p);
    SwapChargedIff(db, p, result);
    var options, source, must := RemainingOptions(db, p).value, result.loss.value.amount, ChargedProof(db, p, result);
    forall c: bool, r: real
      ensures r in options && LossLedger.Fits(c, r, others, source, paid, must) <==> Explains(db, p, result, others, paid, c, r)
    {
    }
  }

  /** An old swap cost is adopted exactly when the rows can be read, prove the cost of every other member, and leave one and only
      one explanation of what the group has paid. */
  lemma {:induction false} AdoptIff(db: Db, p: nat, result: Conversion)
    ensures Adopt(db, p, result).Some?
            <==> exists g, costs, charged, rest :: Readable(db, p, result, g) && Explanation(db, p, result, g, costs, charged, rest)
  {
    if p < |db.positions| && db.positions[p].group.Some? && Readable(db, p, result, db.positions[p].group.value) {
      var g := db.positions[p].group.value;
      AdoptReadableIff(db, p, result, g);
    } else if p < |db.positions| && db.positions[p].group.Some? && db.positions[p].group.value < |db.groups| {
      var g := db.positions[p].group.value;
      SwapLostIff(db, p, 0.0);
      assert forall q: nat :: q in Members(db.positions, g) <==> Member(db, g, q);
    }
  }

  lemma {:induction false} AdoptReadableIff(db: Db, p: nat, result: Conversion, g: nat)
    requires Readable(db, p, result, g)
    ensures Adopt(db, p, result).Some? <==> exists costs, charged, rest :: Explanation(db, p, result, g, costs, charged, rest)
  {
    var others, options := OthersCost(db, g, p, |db.positions|), RemainingOptions(db, p);
    SwapLostIff(db, p, 0.0);
    OptionsAre(db, p);
    forall costs | |costs| == |db.positions| && MembersProve(db, g, p, costs) ensures others == Some(Sum(costs)) {
      CostsProved(db, g, p, costs);
    }
    if others.Some? && options.Some? {
      var costs := ProvedCosts(db, g, p, |db.positions|);
      AdoptedIffUnambiguous(db, p, result);
      forall c: bool, r: real
        ensures OnlyFit(options.value, others.value, result.loss.value.amount, db.groups[g].realized, ChargedProof(db, p, result), c, r)
                <==> OnlyExplanation(db, p, result, Sum(costs), db.groups[g].realized, c, r)
      {
        OnlyFitIff(db, p, result, others.value, db.groups[g].realized, c, r);
      }
      if Adopt(db, p, result).Some? {
        var c, r :| OnlyFit(options.value, others.value, result.loss.value.amount, db.groups[g].realized, ChargedProof(db, p, result), c, r);
        assert Explanation(db, p, result, g, costs, c, r);
      }
    }
  }

  lemma {:induction false} BaselineIs(db: Db, p: nat, result: Conversion, g: nat, costs: seq<real>, charged: bool, rest: real)
    requires Readable(db, p, result, g) && Explanation(db, p, result, g, costs, charged, rest)
    ensures LegacyBaseline(db, p, result)
            == Some(Baseline(g, db.groups[g].realized, Sum(costs), result.loss.value.amount, charged, rest))
  {
    AdoptReadableIff(db, p, result, g);
    OptionsAre(db, p);
    CostsProved(db, g, p, costs);
    OnlyFitIff(db, p, result, Sum(costs), db.groups[g].realized, charged, rest);
    var b := LegacyBaseline(db, p, result).value;
    var ds := Decompositions(RemainingOptions(db, p).value, b.others, b.source, b.paid, ChargedProof(db, p, result));
    assert (charged, rest) in ds && ds[0] == (charged, rest);
  }

  /** The saved loss of the position's deposit. */
  function SavedLoss(db: Db, p: nat): Option<Cost> {
    if (p, "route_deposit") in db.checkpoints && db.checkpoints[(p, "route_deposit")].RouteDeposit?
    then db.checkpoints[(p, "route_deposit")].loss else None
  }

  /** The saved deposit restated to include the swap. */
  function Restated(db: Db, p: nat, source: real): map<(nat, string), Payload> {
    if SavedLoss(db, p).None? then db.checkpoints
    else db.checkpoints[(p, "route_deposit") :=
                          db.checkpoints[(p, "route_deposit")].(loss := Some(Cost(SavedLoss(db, p).value.amount + source, false)))]
  }

  lemma {:induction false} AdoptFrom(db: Db, p: nat, result: Conversion, b: Baseline)
    requires LegacyBaseline(db, p, result) == Some(b) && (!NoDeposit(db, p) ==> SavedLoss(db, p).Some?)
    ensures var paid := b.paid + if b.charged then 0.0 else b.source;
            Adopt(db, p, result) == Some(db.(
              positions := db.positions[p := db.positions[p].(accounted := Some(b.source + b.remaining))],
              groups := db.groups[b.group := db.groups[b.group].(realized := paid)],
              checkpoints := Restated(db, p, b.source)[(p, "source_cost_provenance") :=
                               SourceCost(Provenance(LegacyAdoption, b.source, b.source + b.remaining, paid, SavedLoss(db, p)))]))
  {
    SwapLostIff(db, p, 0.0);
  }

  /** The tables after adoption: the position accounts for swap and rest, the group pays for the swap if it had not, the saved
      deposit is restated to include it, and the proof is kept. */
  lemma {:induction false} AdoptedRows(db: Db, p: nat, result: Conversion, g: nat, costs: seq<real>, charged: bool, rest: real)
    requires Readable(db, p, result, g) && Explanation(db, p, result, g, costs, charged, rest)
    ensures var source := result.loss.value.amount;
            var paid := Sum(costs) + source + rest;
            && paid == db.groups[g].realized + (if charged then 0.0 else source)
            && Adopt(db, p, result) == Some(db.(
                 positions := db.positions[p := db.positions[p].(accounted := Some(source + rest))],
                 groups := db.groups[g := db.groups[g].(realized := paid)],
                 checkpoints := Restated(db, p, source)[(p, "source_cost_provenance") :=
                                  SourceCost(Provenance(LegacyAdoption, source, source + rest, paid, SavedLoss(db, p)))]))
  {
    BaselineIs(db, p, result, g, costs, charged, rest);
    AdoptFrom(db, p, result, LegacyBaseline(db, p, result).value);
    assert Explains(db, p, result, Sum(costs), db.groups[g].realized, charged, rest);
  }

  lemma {:induction false} SumAfterSet(costs: seq<real>, p: nat, cost: real)
    requires p < |costs|
    ensures Sum(costs[p := cost]) == Sum(costs) - costs[p] + cost
  {
    var n := |costs| - 1;
    if p < n {
      assert costs[p := cost][..n] == costs[..n][p := cost];
      SumAfterSet(costs[..n], p, cost);
    } else {
      assert costs[p := cost][..n] == costs[..n];
    }
  }

  /** Adoption balances the group row by row: afterwards the rows of every member, the adopted one included, prove a cost, and
      together they are exactly what the group has paid. */
  lemma {:induction false} AdoptionBalancesRows(db: Db, p: nat, result: Conversion, g: nat, costs: seq<real>, charged: bool, rest: real)
    requires Readable(db, p, result, g) && Explanation(db, p, result, g, costs, charged, rest)
    ensures Adopt(db, p, result).Some?
    ensures var after := Adopt(db, p, result).value;
            var all := costs[p := result.loss.value.amount + rest];
            && |after.positions| == |all| && g < |after.groups|
            && MembersProve(after, g, |all|, all) && Sum(all) == after.groups[g].realized
  {
    AdoptedRows(db, p, result, g, costs, charged, rest);
    var after := Adopt(db, p, result).value;
    var all := costs[p := result.loss.value.amount + rest];
    assert Accounted(after, p, all[p]);
    forall q | 0 <= q < |all|
      ensures if after.positions[q].group == Some(g) && q != |all| then RowsProve(after, q, all[q]) else all[q] == 0.0
    {
      if q != p && db.positions[q].group == Some(g) {
        AgreeingCost(after, db, q);
        SiblingCostIff(db, q, costs[q]);
        SiblingCostIff(after, q, costs[q]);
      }
    }
    SumAfterSet(costs, p, all[p]);
  }

  // ---------------------------------------------------------------- reports without a swap, and conversions

  /** Reports for positions that never swapped. */
  ghost predicate Unswapped(db: Db, rs: seq<Report>) {
    forall r | r in rs ::
      NoSwap(db, r.p) && r.loss >= 0.0 && r.p < |db.positions| && db.positions[r.p].group.Some? && db.positions[r.p].group.value < |db.groups|
  }

  /** The first reported loss of the position. */
  function FirstReport(rs: seq<Report>, q: nat): Option<real> {
    if rs == [] then None else if rs[0].p == q then Some(rs[0].loss) else FirstReport(rs[1..], q)
  }

  /** Without a swap the first cost stands: however often and with whatever values a position is reported, it accounts for what it
      had, or else for the first report, and its group pays for that once. */
  lemma {:induction false} FirstReportStands(db: Db, rs: seq<Report>)
    requires Unswapped(db, rs)
    ensures var after := RunReports(db, rs);
            && SameRest(after, db)
            && (forall q | 0 <= q < |db.positions| ::
                  after.positions[q].accounted == Coalesce(db.positions[q].accounted, FirstReport(rs, q)))
            && (forall g | 0 <= g < |db.groups| :: Unattributed(after, g) == Unattributed(db, g))
    decreases |rs|
  {
    if rs != [] {
      var r := rs[0];
      assert r in rs && forall x | x in rs[1..] :: x in rs;
      FirstReportCounts(db, r);
      var next := AccountPositionLoss(db, r.p, r.loss).value;
      FirstReportStands(next, rs[1..]);
    }
  }

  /** One report: the position accounts for it unless it had a cost, and its group pays the difference. */
  lemma {:induction false} FirstReportCounts(db: Db, r: Report)
    requires NoSwap(db, r.p) && r.loss >= 0.0
    requires r.p < |db.positions| && db.positions[r.p].group.Some? && db.positions[r.p].group.value < |db.groups|
    ensures AccountPositionLoss(db, r.p, r.loss).Some?
    ensures var after := AccountPositionLoss(db, r.p, r.loss).value;
            && SameRest(after, db)
            && (forall q | 0 <= q < |db.positions| ::
                  after.positions[q].accounted == if q == r.p then Coalesce(db.positions[q].accounted, Some(r.loss)) else db.positions[q].accounted)
            && (forall g | 0 <= g < |db.groups| :: Unattributed(after, g) == Unattributed(db, g))
  {
    SwapLostIff(db, r.p, 0.0);
    forall g | 0 <= g < |db.groups| ensures Unattributed(AccountPositionLoss(db, r.p, r.loss).value, g) == Unattributed(db, g) {
      LedgerStepConserves(db, Account(r.p, r.loss), g);
    }
  }

  /** A first conversion: the swap, its cost on top of nothing, its provenance and the converted asset are stored together. */
  lemma {:induction false} FirstConversionRows(db: Db, p: nat, result: Conversion, g: nat)
    requires NoSwap(db, p) && p < |db.positions| && db.positions[p].group == Some(g) && g < |db.groups|
    requires result.confirmed && result.asset == "native" && result.balance > 0 && result.loss.Some? && result.loss.value.amount >= 0.0
    ensures var loss, had := result.loss.value.amount, db.positions[p].accounted.GetOr(0.0);
            var rise := if loss > had then loss - had else 0.0;
            CheckpointSourceConversion(db, p, result) == Some(db.(
              positions := db.positions[p := db.positions[p].(accounted := Some(had + rise), state := Converted,
                                                              actualAsset := Some("native"), actualBalance := Some(result.balance))],
              groups := db.groups[g := db.groups[g].(realized := db.groups[g].realized + rise)],
              checkpoints := db.checkpoints[(p, "swap_result") := SwapResult(result)][(p, "source_cost_provenance") :=
                               SourceCost(Provenance(AtomicConversion, loss, loss, db.groups[g].realized + rise, None))]))
  {
    SwapLostIff(db, p, 0.0);
    var loss := result.loss.value.amount;
    var db1 := SaveCheckpoint(db, p, "swap_result", SwapResult(result));
    var db2 := AccountCumulative(db1, p, loss).value;
    var had := db.positions[p].accounted.GetOr(0.0);
    var now := if loss > had then loss else had;
    assert db2.positions == db.positions[p := db.positions[p].(accounted := Some(now))];
    assert db2.groups[g].realized == db.groups[g].realized + now - had;
    var after := CheckpointSourceConversion(db, p, result).value;
    assert after.positions == db.positions[p := db.positions[p].(accounted := Some(now), state := Converted,
                                                                 actualAsset := Some("native"), actualBalance := Some(result.balance))];
  }

  /** Storing it again changes nothing, and a different one is refused. */
  lemma {:induction false} ConversionIsFinal(db: Db, p: nat, result: Conversion, g: nat, other: Conversion)
    requires NoSwap(db, p) && p < |db.positions| && db.positions[p].group == Some(g) && g < |db.groups|
    requires result.confirmed && result.asset == "native" && result.balance > 0 && result.loss.Some? && result.loss.value.amount >= 0.0
    ensures CheckpointSourceConversion(db, p, result).Some?
    ensures CheckpointSourceConversion(CheckpointSourceConversion(db, p, result).value, p, other)
            == if other == result then CheckpointSourceConversion(db, p, result) else None
  {
    FirstConversionRows(db, p, result, g);
    var after := CheckpointSourceConversion(db, p, result).value;
    assert SwapOf(after, p) == Some(result) && ProvenanceOf(after, p).Some?;
    assert after.positions[p := after.positions[p]] == after.positions && after.groups[g := after.groups[g]] == after.groups;
  }

  /** A conversion that is not confirmed, of another asset, empty or without a readable loss is refused. */
  lemma {:induction false} UnprovenConversionRefused(db: Db, p: nat, result: Conversion)
    requires !result.confirmed || result.asset != "native" || result.balance == 0 || result.loss.None? || result.loss.value.amount < 0.0
    ensures CheckpointSourceConversion(db, p, result).None?
  {
  }
}
