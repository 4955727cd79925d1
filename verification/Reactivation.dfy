/** When a halted group may be taken up again, told in rows, and what that never does to a position whose transaction may already
    be on its way. */
module Reactivations {
  import opened Prelude
  import opened JournalTables
  import opened LossLedger
  import opened JournalRuns

  // ---------------------------------------------------------------- members and rows

  ghost predicate Member(db: Db, g: nat, p: nat) {
    p < |db.positions| && db.positions[p].group == Some(g)
  }

  ghost predicate SoleMember(db: Db, g: nat, p: nat) {
    Member(db, g, p) && forall q: nat | Member(db, g, q) :: q == p
  }

  /** Nothing but approvals was ever intended for the position. */
  ghost predicate OnlyApprovals(steps: seq<Step>, p: nat) {
    forall i | 0 <= i < |steps| && steps[i].position == p :: LikePrefix("approval:", steps[i].key)
  }

  ghost predicate NoHash(steps: seq<Step>, p: nat) {
    forall i | 0 <= i < |steps| && steps[i].position == p :: steps[i].txHash.None?
  }

  ghost predicate NewestStep(steps: seq<Step>, p: nat, key: string, id: nat) {
    && id < |steps| && steps[id].position == p && steps[id].key == key
    && forall i | id < i < |steps| :: steps[i].position != p || steps[i].key != key
  }

  /** The exchange credited exactly the deposit that the position's route made: hash, recipient, coin and chain are those of the
      saved deposit, and its source transaction is the newest of its step. */
  ghost predicate CreditBound(db: Db, p: nat) {
    && (p, "route_deposit") in db.checkpoints && (p, "bitget_credit") in db.checkpoints
    && var deposit, credit := db.checkpoints[(p, "route_deposit")], db.checkpoints[(p, "bitget_credit")];
       && deposit.RouteDeposit? && credit.BitgetCredit? && credit.success
       && deposit.txHash != "" && Lower(credit.creditHash) == Lower(deposit.txHash)
       && deposit.recipient != "" && Lower(credit.creditRecipient) == Lower(deposit.recipient)
       && deposit.target.Some? && deposit.target.value.coin != "" && deposit.target.value.chain != ""
       && credit.coin == deposit.target.value.coin && credit.chain == deposit.target.value.chain
       && deposit.stepKey.Some? && deposit.sourceHash != ""
       && exists id: nat {:trigger NewestStep(db.steps, p, deposit.stepKey.value, id)} ::
            NewestStep(db.steps, p, deposit.stepKey.value, id)
            && db.steps[id].txHash.Some? && Lower(db.steps[id].txHash.value) == Lower(deposit.sourceHash)
  }

  lemma {:induction false} LatestIsNewest(steps: seq<Step>, p: nat, key: string, id: nat)
    ensures LatestStep(steps, p, key) == Some(id) <==> NewestStep(steps, p, key, id)
  {
    var found := LatestStep(steps, p, key);
  }

  lemma {:induction false} CreditVerifiedIff(db: Db, p: nat)
    ensures CreditVerified(db, p) <==> CreditBound(db, p)
  {
    if DepositOf(db, p).Some? && DepositOf(db, p).value.stepKey.Some? {
      var key := DepositOf(db, p).value.stepKey.value;
      forall id: nat ensures LatestStep(db.steps, p, key) == Some(id) <==> NewestStep(db.steps, p, key, id) {
        LatestIsNewest(db.steps, p, key, id);
      }
      if LatestStep(db.steps, p, key).Some? { assert NewestStep(db.steps, p, key, LatestStep(db.steps, p, key).value); }
    }
  }

  lemma {:induction false} SoleMemberIff(db: Db, g: nat, p: nat)
    ensures Members(db.positions, g) == [p] <==> SoleMember(db, g, p)
  {
    var members := Members(db.positions, g);
    assert forall q: nat :: q in members <==> Member(db, g, q);
    if SoleMember(db, g, p) {
      MembersDistinct(db.positions, g);
      forall i | 0 <= i < |members| ensures members[i] == p {
        assert members[i] in members;
      }
      assert p in members;
      Spread(members);
    }
    if members == [p] {
      assert p in members;
    }
  }

  ghost predicate Increasing(ns: seq<nat>) {
    forall i, j | 0 <= i < j < |ns| :: ns[i] < ns[j]
  }

  lemma {:induction false} Spread(ns: seq<nat>)
    requires ns != [] && Increasing(ns)
    ensures ns[|ns| - 1] >= ns[0] + |ns| - 1
  {
    if |ns| > 1 {
      Spread(ns[..|ns| - 1]);
    }
  }

  lemma {:induction false} MembersDistinct(positions: seq<Position>, g: nat)
    ensures Increasing(Members(positions, g))
  {
    if positions != [] {
      var n := |positions| - 1;
      MembersDistinct(positions[..n], g);
      var rest: seq<nat> := Members(positions[..n], g);
      forall i | 0 <= i < |rest| ensures rest[i] < n {
        assert rest[i] in rest;
      }
      assert Increasing(rest + [n]);
    }
  }

  // ---------------------------------------------------------------- a group that was never sent

  const RETRYABLE: set<string> :=
    {"requote_required:stale_price", "native_gas_reserve_unstable", "requote_required:fee_cap_changed",
     "requote_required:target_minimum_changed", "requote_required:missing_gas_estimate", "route_preparation_rejected",
     LEGACY_PREPARATION_REJECTION}

  /** The group was halted for a passing reason; a lone position's plain error needs the saved proof that it was one. */
  ghost predicate PassingReason(db: Db, g: nat)
    requires g < |db.groups|
  {
    var reason := db.groups[g].reason;
    || (reason.Some? && reason.value in RETRYABLE)
    || (reason == Some("execution_error:ValueError")
        && exists p: nat :: SoleMember(db, g, p) && (p, "execution_failure") in db.checkpoints
             && db.checkpoints[(p, "execution_failure")]
                == ExecutionFailure("legacy_fee_cap_revalidation", "requote_required:fee_cap_changed"))
  }

  /** A finished member's credit is bound to its deposit; an unfinished one was halted with the group and never intended
      anything but approvals. */
  ghost predicate MayRetry(db: Db, g: nat, p: nat)
    requires g < |db.groups| && p < |db.positions|
  {
    var row := db.positions[p];
    if row.state == Completed then CreditBound(db, p)
    else row.state in {ManualReview, ReviewHalted} && row.reason == db.groups[g].reason && OnlyApprovals(db.steps, p)
  }

  ghost predicate NamesMembers(db: Db, g: nat, keys: set<string>) {
    && (forall p: nat | Member(db, g, p) :: db.positions[p].key in keys)
    && (forall key | key in keys :: exists p: nat :: Member(db, g, p) && db.positions[p].key == key)
  }

  lemma {:induction false} NamesMembersIff(db: Db, g: nat, keys: set<string>)
    ensures (set p | p in Members(db.positions, g) :: db.positions[p].key) == keys <==> NamesMembers(db, g, keys)
  {
    var rows := Members(db.positions, g);
    assert forall p: nat :: p in rows <==> Member(db, g, p);
    var named := set p | p in rows :: db.positions[p].key;
    if NamesMembers(db, g, keys) {
      forall key ensures key in named <==> key in keys {
        if key in keys {
          var p: nat :| Member(db, g, p) && db.positions[p].key == key;
          assert p in rows;
        }
      }
    } else if named == keys {
      forall p: nat | Member(db, g, p) ensures db.positions[p].key in keys { assert p in rows; }
      forall key | key in keys ensures exists p: nat :: Member(db, g, p) && db.positions[p].key == key {
        var p :| p in rows && db.positions[p].key == key;
        assert Member(db, g, p);
      }
    }
  }

  lemma {:induction false} RetryReasonIff(db: Db, g: nat)
    requires g < |db.groups|
    ensures RetryReason(db, g, Members(db.positions, g)) <==> PassingReason(db, g)
  {
    var rows := Members(db.positions, g);
    forall p: nat ensures rows == [p] <==> SoleMember(db, g, p) {
      SoleMemberIff(db, g, p);
    }
    assert "execution_error:ValueError" !in RETRYABLE;
    assert RETRYABLE == UNSIGNED_RETRY_REASONS;
    if |rows| == 1 { assert rows == [rows[0]]; }
  }

  /** Exactly when a halted group is taken up again as unsent. */
  lemma {:induction false} UnsignedRetryIff(db: Db, g: nat, keys: set<string>)
    ensures ReactivateUnsignedRetry(db, g, keys).Some?
            <==> && g < |db.groups| && db.groups[g].state == GReviewHalted && PassingReason(db, g)
                 && NamesMembers(db, g, keys)
                 && (exists p: nat :: Member(db, g, p) && db.positions[p].state != Completed)
                 && (forall p: nat | Member(db, g, p) :: MayRetry(db, g, p))
  {
    if g < |db.groups| {
      var rows := Members(db.positions, g);
      assert forall p: nat :: p in rows <==> Member(db, g, p);
      RetryReasonIff(db, g);
      NamesMembersIff(db, g, keys);
      forall p: nat | p < |db.positions| ensures RetryMember(db, p, db.groups[g].reason) <==> MayRetry(db, g, p) {
        CreditVerifiedIff(db, p);
      }
    }
  }

  /** What it does: every unfinished member is planned again, with a note, and the group is active; nothing else changes. */
  lemma {:induction false} UnsignedRetryRows(db: Db, g: nat, keys: set<string>, p: nat)
    requires ReactivateUnsignedRetry(db, g, keys).Some? && p < |db.positions|
    ensures var after := ReactivateUnsignedRetry(db, g, keys).value;
            var retried := db.positions[p].group == Some(g) && db.positions[p].state != Completed;
            && |after.positions| == |db.positions| && after.steps == db.steps && after.events == db.events
            && after.positions[p] == (if retried then db.positions[p].(state := Planned, reason := None) else db.positions[p])
            && after.groups == db.groups[g := db.groups[g].(state := GActive, reason := None)]
            && (forall key: string :: (p, key) in after.checkpoints
                  <==> (p, key) in db.checkpoints || (retried && key == "automatic_retry"))
            && (forall key: string | (p, key) in db.checkpoints && (key != "automatic_retry" || !retried) ::
                  after.checkpoints[(p, key)] == db.checkpoints[(p, key)])
  {
    NotesOf(db.positions, g, |db.positions|);
  }

  lemma {:induction false} NotesOf(positions: seq<Position>, g: nat, n: nat)
    requires n <= |positions|
    ensures forall p: nat, key: string :: (p, key) in RetryNotes(positions, g, n)
              <==> p < n && positions[p].group == Some(g) && positions[p].state != Completed && key == "automatic_retry"
  {
    if n > 0 {
      NotesOf(positions, g, n - 1);
    }
  }

  // ---------------------------------------------------------------- the repairs of a single member

  /** A known direct deposit: the only member, under that key, open to repair, with a hash that has not failed. */
  ghost predicate LiveDeposit(db: Db, g: nat, key: string, p: nat) {
    && SoleMember(db, g, p) && db.positions[p].key == key && db.positions[p].state in {ManualReview, DepositPending}
    && exists id: nat {:trigger NewestStep(db.steps, p, "direct_deposit", id)} ::
         NewestStep(db.steps, p, "direct_deposit", id)
         && db.steps[id].txHash.Some? && db.steps[id].txHash.value != "" && db.steps[id].state !in {SFailed, SReverted}
  }

  lemma {:induction false} OnlyOne(db: Db, g: nat)
    ensures |Members(db.positions, g)| == 1 <==> exists p: nat :: SoleMember(db, g, p)
    ensures forall p: nat | SoleMember(db, g, p) :: Members(db.positions, g) == [p]
    ensures |Members(db.positions, g)| == 1 ==> SoleMember(db, g, Members(db.positions, g)[0])
  {
    var rows := Members(db.positions, g);
    forall p: nat ensures rows == [p] <==> SoleMember(db, g, p) {
      SoleMemberIff(db, g, p);
    }
    if |rows| == 1 { assert rows == [rows[0]]; }
  }

  lemma {:induction false} DirectDepositIff(db: Db, g: nat, key: string)
    ensures ReactivateDirectDeposit(db, g, key).Some? <==> exists p: nat :: LiveDeposit(db, g, key, p)
    ensures forall p: nat | LiveDeposit(db, g, key, p) ::
              ReactivateDirectDeposit(db, g, key)
              == Some(db.(positions := db.positions[p := db.positions[p].(state := DepositPending)],
                          groups := if g < |db.groups| then db.groups[g := db.groups[g].(state := GDepositPending)] else db.groups))
  {
    OnlyOne(db, g);
    var rows := Members(db.positions, g);
    if |rows| == 1 {
      var p := rows[0];
      forall id: nat
        ensures LatestStep(db.steps, p, "direct_deposit") == Some(id) <==> NewestStep(db.steps, p, "direct_deposit", id)
      {
        LatestIsNewest(db.steps, p, "direct_deposit", id);
      }
      if LatestStep(db.steps, p, "direct_deposit").Some? {
        assert NewestStep(db.steps, p, "direct_deposit", LatestStep(db.steps, p, "direct_deposit").value);
      }
      assert LiveDeposit(db, g, key, p) <==> ReactivateDirectDeposit(db, g, key).Some?;
    }
  }

  /** An old gas deferral: the only member, under that key, deferred for gas, and nothing of it was broadcast. */
  ghost predicate UnsentDeferral(db: Db, g: nat, key: string, p: nat) {
    && SoleMember(db, g, p) && db.positions[p].key == key && db.positions[p].state == ManualReview
    && db.positions[p].reason.Some? && "ethereum_gas_deferred:" <= db.positions[p].reason.value && NoHash(db.steps, p)
  }

  lemma {:induction false} GasDeferralIff(db: Db, g: nat, key: string)
    ensures ReactivateGasDeferral(db, g, key).Some? <==> exists p: nat :: UnsentDeferral(db, g, key, p)
    ensures forall p: nat | UnsentDeferral(db, g, key, p) ::
              ReactivateGasDeferral(db, g, key)
              == Some(db.(positions := db.positions[p := db.positions[p].(state := GasDeferred)],
                          groups := if g < |db.groups| then db.groups[g := db.groups[g].(state := GGasDeferred)] else db.groups))
  {
    OnlyOne(db, g);
    forall p: nat ensures HasBroadcast(db.steps, p) <==> !NoHash(db.steps, p) {}
    if |Members(db.positions, g)| == 1 {
      assert UnsentDeferral(db, g, key, Members(db.positions, g)[0]) <==> ReactivateGasDeferral(db, g, key).Some?;
    }
  }

  /** One WETH member is left, halted for gas with the group and not accounted for, and what it has cost is proved to fit into
      the rest of the budget. */
  ghost predicate DeliveredMember(db: Db, g: nat, keys: set<string>, p: nat, accrued: Option<real>) {
    && g < |db.groups| && db.groups[g].state == GReviewHalted
    && db.groups[g].reason.Some? && "insufficient native balance for gas reserve:" <= db.groups[g].reason.value
    && NamesMembers(db, g, keys)
    && Member(db, g, p) && (forall q: nat | Member(db, g, q) && q != p :: db.positions[q].state == Completed)
    && db.positions[p].state == ManualReview && db.positions[p].reason == db.groups[g].reason && db.positions[p].accounted.None?
    && accrued.Some? && accrued.value >= 0.0
    && 100.0 * (db.groups[g].realized + accrued.value) <= db.groups[g].sourceUsd * db.groups[g].budgetPct
  }

  lemma {:induction false} WethContinuationIff(db: Db, g: nat, keys: set<string>, p: nat, accrued: Option<real>)
    ensures ReactivateWethContinuation(db, g, keys, p, accrued).Some? <==> DeliveredMember(db, g, keys, p, accrued)
    ensures DeliveredMember(db, g, keys, p, accrued) ==>
              ReactivateWethContinuation(db, g, keys, p, accrued)
              == Some(db.(positions := db.positions[p := db.positions[p].(state := BridgeSubmitted, reason := None)],
                          checkpoints := db.checkpoints[(p, "canonical_recovery") := Note],
                          groups := db.groups[g := db.groups[g].(state := GActive, reason := None)]))
  {
    if g < |db.groups| {
      var rows := Members(db.positions, g);
      assert forall q: nat :: q in rows <==> Member(db, g, q);
      NamesMembersIff(db, g, keys);
    }
  }

  /** The entry's position is the only member of a group that was halted for gas, without any step; position and group are still
      those of the entry, and part of the budget is left. */
  ghost predicate UntouchedSource(db: Db, b: Bootstrap, p: nat, g: nat) {
    && p < |db.positions| && db.positions[p].key == b.key && (forall q | 0 <= q < p :: db.positions[q].key != b.key)
    && g < |db.groups| && SoleMember(db, g, p) && b.eligible && b.amount > 0
    && var row, group := db.positions[p], db.groups[g];
       && group.state == GReviewHalted && row.state == ManualReview && row.reason == group.reason && group.reason.Some?
       && "insufficient native balance for gas reserve:" <= group.reason.value
       && row.wallet == b.wallet == group.wallet && row.sourceAsset == Some(b.asset) && row.sourceAmount == Some(b.amount)
       && row.actualAsset.None? && group.chain == b.chain && group.key == b.groupKey
       && group.sourceUsd == b.sourceUsd && group.budgetPct == b.budgetPct && b.budgetPct == 15.0
       && (forall i | 0 <= i < |db.steps| :: db.steps[i].position != p)
       && ((p, "prepared") in db.checkpoints ==> b.samePlan)
       && 0.0 <= row.accounted.GetOr(0.0) <= group.realized
       && 100.0 * group.realized < group.sourceUsd * group.budgetPct
  }

  lemma {:induction false} BootstrapIff(db: Db, b: Bootstrap)
    ensures BootstrapSource(db, b).Some? <==> exists p: nat, g: nat :: UntouchedSource(db, b, p, g)
    ensures forall p: nat, g: nat | UntouchedSource(db, b, p, g) ::
              BootstrapSource(db, b)
              == Some(db.(checkpoints := db.checkpoints[(p, "canonical_source_bootstrap") := Note],
                          positions := db.positions[p := db.positions[p].(state := Planned, reason := None)],
                          groups := db.groups[g := db.groups[g].(state := GActive, reason := None)]))
  {
    var found := PositionByKey(db.positions, b.key);
    if found.Some? && db.positions[found.value].group.Some? {
      var p, g := found.value, db.positions[found.value].group.value;
      OnlyOne(db, g);
      assert HasStep(db.steps, p) <==> !(forall i | 0 <= i < |db.steps| :: db.steps[i].position != p);
      assert UntouchedSource(db, b, p, g) <==> BootstrapSource(db, b).Some?;
    }
  }

  // ---------------------------------------------------------------- what is never planned again

  /** Only two operations put a position back to planned; whatever they are given, the position was under review and nothing but
      approvals was ever intended for it. */
  lemma {:induction false} BackToPlannedIsUnsent(db: Db, op: Op, p: nat)
    requires p < |db.positions| && db.positions[p].state != Planned
    requires p < |Apply(db, op).positions| && Apply(db, op).positions[p].state == Planned
    ensures op.ReactivateUnsigned? || op.BootstrapOp?
    ensures db.positions[p].state in {ManualReview, ReviewHalted} && OnlyApprovals(db.steps, p)
  {
    if op.LedgerOperation? {
      LedgerNeverPlans(db, op.ledger, p);
    } else if op.ReactivateUnsigned? {
      RetryPlansUnsent(db, op.g, op.keys, p);
    } else if op.BootstrapOp? {
      BootstrapPlansUnsent(db, op.bootstrap, p);
    } else {
      OthersNeverPlan(db, op, p);
    }
  }

  lemma {:induction false} RetryPlansUnsent(db: Db, g: nat, keys: set<string>, p: nat)
    requires p < |db.positions| && db.positions[p].state != Planned
    ensures var after := ReactivateUnsignedRetry(db, g, keys).GetOr(db);
            && |after.positions| == |db.positions|
            && (after.positions[p].state == Planned ==> db.positions[p].state in {ManualReview, ReviewHalted} && OnlyApprovals(db.steps, p))
  {
    if ReactivateUnsignedRetry(db, g, keys).Some? {
      UnsignedRetryIff(db, g, keys);
      UnsignedRetryRows(db, g, keys, p);
      assert db.positions[p].group == Some(g) ==> Member(db, g, p);
    }
  }

  lemma {:induction false} BootstrapPlansUnsent(db: Db, b: Bootstrap, p: nat)
    requires p < |db.positions| && db.positions[p].state != Planned
    ensures var after := BootstrapSource(db, b).GetOr(db);
            && |after.positions| == |db.positions|
            && (after.positions[p].state == Planned ==> db.positions[p].state in {ManualReview, ReviewHalted} && OnlyApprovals(db.steps, p))
  {
    BootstrapIff(db, b);
    if q: nat, g: nat :| UntouchedSource(db, b, q, g) {
      assert BootstrapSource(db, b).value.positions == db.positions[q := db.positions[q].(state := Planned, reason := None)];
    }
  }

  lemma {:induction false} LedgerNeverPlans(db: Db, op: LedgerOp, p: nat)
    requires p < |db.positions|
    ensures |ApplyLedger(db, op).positions| == |db.positions|
    ensures ApplyLedger(db, op).positions[p].state in {db.positions[p].state, Converted}
  {
    match op
    case Account(q, loss) => AccountKeepsStates(db, q, loss, p);
    case Convert(q, result) => ConversionTaken(db, q, result);
  }

  lemma {:induction false} OthersNeverPlan(db: Db, op: Op, p: nat)
    requires !op.LedgerOperation? && !op.ReactivateUnsigned? && !op.BootstrapOp?
    requires p < |db.positions| && db.positions[p].state != Planned
    ensures p < |Apply(db, op).positions| && Apply(db, op).positions[p].state != Planned
  {
    if op.ReactivateDirect? || op.ReactivateGas? {
      RepairsNeverPlan(db, op.g, op.key, p);
    }
  }

  lemma {:induction false} RepairsNeverPlan(db: Db, g: nat, key: string, p: nat)
    requires p < |db.positions| && db.positions[p].state != Planned
    ensures forall after | after in {ReactivateDirectDeposit(db, g, key).GetOr(db), ReactivateGasDeferral(db, g, key).GetOr(db)} ::
              |after.positions| == |db.positions| && after.positions[p].state != Planned
  {
    var rows := Members(db.positions, g);
    if |rows| == 1 { assert rows[0] in rows; }
  }

  /** So a position that has left planned with a step of its own, signed or sent, is never planned again over any run: no retry
      prepares it a second time. */
  lemma {:induction false} IntendedIsNeverReplanned(db: Db, ops: seq<Op>, p: nat, id: nat)
    requires p < |db.positions| && db.positions[p].state != Planned
    requires id < |db.steps| && db.steps[id].position == p && !LikePrefix("approval:", db.steps[id].key)
    ensures p < |Run(db, ops).positions| && Run(db, ops).positions[p].state != Planned
  {
    if ops != [] {
      var n := |ops| - 1;
      IntendedIsNeverReplanned(db, ops[..n], p, id);
      StepsArePermanent(db, ops[..n], id);
      var before := Run(db, ops[..n]);
      PositionsStay(before, ops[n], p);
      if Apply(before, ops[n]).positions[p].state == Planned {
        BackToPlannedIsUnsent(before, ops[n], p);
      }
    }
  }

  lemma {:induction false} PositionsStay(db: Db, op: Op, p: nat)
    requires p < |db.positions|
    ensures p < |Apply(db, op).positions|
  {
    if op.LedgerOperation? {
      LedgerNeverPlans(db, op.ledger, p);
    }
  }
}
