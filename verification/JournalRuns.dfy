/** Whole runs of the journal: any sequence of its operations, by any callers, each one atomic. */
module JournalRuns {
  import opened Prelude
  import opened JournalTables
  import opened LossLedger

  datatype Op =
    | NewGroup(key: string, wallet: string, chain: int, budgetPct: real, sourceUsd: real)
    | NewPosition(key: string, wallet: string, group: Option<nat>, sourceAsset: Option<string>, sourceAmount: Option<nat>)
    | GroupStateOp(g: nat, groupState: GroupState, reason: Option<string>)
    | GroupLossOp(g: nat, total: real)
    | LedgerOperation(ledger: LedgerOp)
    | PositionStateOp(p: nat, state: PositionState, asset: Option<string>, balance: Option<nat>, reason: Option<string>)
    | RequoteSwap(p: nat, toAsset: string, amount: nat, reason: Option<string>)
    | RequoteBridge(p: nat, toAsset: string, amount: nat)
    | Intent(p: nat, stepKey: string, nonce: nat, calldata: string, payload: string, hash: Option<string>)
    | Attempt(step: nat, attemptHash: string)
    | StepStateOp(step: nat, stepState: StepState)
    | Checkpoint(p: nat, checkpointKey: string, content: Payload)
    | ReactivateDirect(g: nat, key: string)
    | ReactivateGas(g: nat, key: string)
    | ReactivateUnsigned(g: nat, keys: set<string>)
    | ReactivateWeth(g: nat, keys: set<string>, p: nat, accrued: Option<real>)
    | BootstrapOp(bootstrap: Bootstrap)

  /** The outcome, or None when the operation raises or refuses. */
  function Outcome(db: Db, op: Op): Option<Db> {
    match op
    case NewGroup(key, wallet, chain, budgetPct, sourceUsd) => GetOrCreateGroup(db, key, wallet, chain, budgetPct, sourceUsd)
    case NewPosition(key, wallet, group, asset, amount) => GetOrCreatePosition(db, key, wallet, group, asset, amount)
    case GroupStateOp(g, state, reason) => RecordGroupState(db, g, state, reason)
    case GroupLossOp(g, total) => RecordGroupRealizedLoss(db, g, total)
    case LedgerOperation(ledger) => Some(ApplyLedger(db, ledger))
    case PositionStateOp(p, state, asset, balance, reason) => RecordPositionState(db, p, state, asset, balance, reason)
    case RequoteSwap(p, asset, amount, reason) => RecordRequoteAfterSwap(db, p, asset, amount, reason)
    case RequoteBridge(p, asset, amount) => RecordRequoteAfterBridge(db, p, asset, amount)
    case Intent(p, key, nonce, calldata, payload, hash) => RecordStepIntent(db, p, key, nonce, calldata, payload, hash)
    case Attempt(step, hash) => RecordBroadcastAttempt(db, step, hash)
    case StepStateOp(step, state) => TransitionStep(db, step, state)
    case Checkpoint(p, key, content) => Some(SaveCheckpoint(db, p, key, content))
    case ReactivateDirect(g, key) => ReactivateDirectDeposit(db, g, key)
    case ReactivateGas(g, key) => ReactivateGasDeferral(db, g, key)
    case ReactivateUnsigned(g, keys) => ReactivateUnsignedRetry(db, g, keys)
    case ReactivateWeth(g, keys, p, accrued) => ReactivateWethContinuation(db, g, keys, p, accrued)
    case BootstrapOp(bootstrap) => BootstrapSource(db, bootstrap)
  }

  function Apply(db: Db, op: Op): Db {
    Outcome(db, op).GetOr(db)
  }

  function Run(db: Db, ops: seq<Op>): Db {
    if ops == [] then db else Apply(Run(db, ops[..|ops| - 1]), ops[|ops| - 1])
  }

  // ---------------------------------------------------------------- steps

  /** A step row keeps its identity, a hash once bound stays, and the state follows the table. */
  predicate Evolved(a: Step, b: Step) {
    && a.position == b.position && a.key == b.key && a.nonce == b.nonce
    && a.calldata == b.calldata && a.payload == b.payload
    && (a.txHash.Some? ==> b.txHash == a.txHash)
    && (a.state == b.state || b.state in StepTargets(a.state))
  }

  /** Rows are only added, and an added row is planned or already submitted. */
  ghost predicate StepsEvolved(a: seq<Step>, b: seq<Step>) {
    && |a| <= |b|
    && (forall i | 0 <= i < |a| :: Evolved(a[i], b[i]))
    && (forall i | |a| <= i < |b| :: b[i].state in {SPlanned, SSubmitted})
  }

  lemma {:induction false} LedgerKeepsSteps(db: Db, op: LedgerOp)
    ensures ApplyLedger(db, op).steps == db.steps
  {
    match op
    case Account(p, loss) =>
    case Convert(p, result) =>
  }

  lemma {:induction false} OthersKeepSteps(db: Db, op: Op)
    requires !op.Intent? && !op.Attempt? && !op.StepStateOp?
    ensures Apply(db, op).steps == db.steps
  {
    if op.LedgerOperation? {
      LedgerKeepsSteps(db, op.ledger);
    }
  }

  lemma {:induction false} OpEvolvesSteps(db: Db, op: Op)
    ensures StepsEvolved(db.steps, Apply(db, op).steps)
  {
    if !op.Intent? && !op.Attempt? && !op.StepStateOp? {
      OthersKeepSteps(db, op);
    }
  }

  /** Over every run: no step row disappears or changes its identity, a bound hash is never replaced, and a step in
      a terminal state stays in it. */
  lemma {:induction false} StepsArePermanent(db: Db, ops: seq<Op>, id: nat)
    requires id < |db.steps|
    ensures var a, b := db.steps, Run(db, ops).steps;
            && id < |b|
            && a[id].position == b[id].position && a[id].key == b[id].key && a[id].nonce == b[id].nonce
            && a[id].calldata == b[id].calldata && a[id].payload == b[id].payload
            && (a[id].txHash.Some? ==> b[id].txHash == a[id].txHash)
            && (StepTargets(a[id].state) == {} ==> b[id].state == a[id].state)
  {
    if ops != [] {
      var n := |ops| - 1;
      StepsArePermanent(db, ops[..n], id);
      OpEvolvesSteps(Run(db, ops[..n]), ops[n]);
    }
  }

  /** The states that lie behind a submission. */
  const UNSUBMITTED: set<StepState> := {SPlanned, SFailed, SManualReview}

  /** At some point of the run the step was in state submitted. */
  ghost predicate WasSubmitted(db: Db, ops: seq<Op>, id: nat) {
    exists k | 0 <= k <= |ops| ::
      id < |Run(db, ops[..k]).steps| && Run(db, ops[..k]).steps[id].state == SSubmitted
  }

  /** Every step that is credited (or confirmed, timed out, ...) at the end of a run passed through submitted. */
  lemma {:induction false} CreditedWasSubmitted(db: Db, ops: seq<Op>, id: nat)
    requires id < |Run(db, ops).steps|
    requires id < |db.steps| ==> db.steps[id].state in UNSUBMITTED
    requires Run(db, ops).steps[id].state !in UNSUBMITTED
    ensures WasSubmitted(db, ops, id)
  {
    if ops != [] {
      var n := |ops| - 1;
      var before, after := Run(db, ops[..n]), Run(db, ops);
      OpEvolvesSteps(before, ops[n]);
      if after.steps[id].state == SSubmitted {
        assert ops[..|ops|] == ops;
      } else {
        CreditedWasSubmitted(db, ops[..n], id);
        var k :| 0 <= k <= n && id < |Run(db, ops[..n][..k]).steps|
                 && Run(db, ops[..n][..k]).steps[id].state == SSubmitted;
        assert ops[..n][..k] == ops[..k];
      }
    }
  }

  // ---------------------------------------------------------------- group losses

  lemma {:induction false} AccountRaises(db: Db, p: nat, loss: real, g: nat)
    requires AccountCumulative(db, p, loss).Some? && g < |db.groups|
    ensures |AccountCumulative(db, p, loss).value.groups| == |db.groups|
    ensures db.groups[g].realized <= AccountCumulative(db, p, loss).value.groups[g].realized
  {
  }

  lemma {:induction false} AdoptRaises(db: Db, p: nat, result: Conversion, g: nat)
    requires Adopt(db, p, result).Some? && g < |db.groups|
    ensures |Adopt(db, p, result).value.groups| == |db.groups|
    ensures db.groups[g].realized <= Adopt(db, p, result).value.groups[g].realized
  {
    AdoptionSettlesTotal(db, p, result);
  }

  lemma {:induction false} LedgerRaises(db: Db, op: LedgerOp, g: nat)
    requires g < |db.groups|
    ensures |ApplyLedger(db, op).groups| == |db.groups|
    ensures db.groups[g].realized <= ApplyLedger(db, op).groups[g].realized
  {
    match op
    case Account(p, loss) =>
      if AccountPositionLoss(db, p, loss).Some? && SwapOf(db, p).Some? {
        var adopted := Adopted(db, p, Cost(loss, true)).value;
        if ProvenanceOf(db, p).None? {
          AdoptRaises(db, p, SwapOf(db, p).value, g);
        }
        AccountRaises(adopted.0, p, adopted.1, g);
      }
    case Convert(p, result) =>
      if CheckpointSourceConversion(db, p, result).Some? {
        var existing := SwapOf(db, p);
        var adopted := if existing.Some? && ProvenanceOf(db, p).None? then Adopt(db, p, existing.value) else Some(db);
        if existing.Some? && ProvenanceOf(db, p).None? {
          AdoptRaises(db, p, existing.value, g);
        }
        var db1 := if existing.Some? then adopted.value
                   else SaveCheckpoint(adopted.value, p, "swap_result", SwapResult(result));
        AccountRaises(db1, p, result.loss.value.amount, g);
      }
  }

  lemma {:induction false} OpRaises(db: Db, op: Op, g: nat)
    requires g < |db.groups|
    ensures g < |Apply(db, op).groups|
    ensures db.groups[g].realized <= Apply(db, op).groups[g].realized
  {
    if op.LedgerOperation? {
      LedgerRaises(db, op.ledger, g);
    }
  }

  /** Over every run, adoption included, a group's realised loss never decreases. */
  lemma {:induction false} LossNeverDecreases(db: Db, ops: seq<Op>, g: nat)
    requires g < |db.groups|
    ensures g < |Run(db, ops).groups|
    ensures db.groups[g].realized <= Run(db, ops).groups[g].realized
  {
    if ops != [] {
      var n := |ops| - 1;
      LossNeverDecreases(db, ops[..n], g);
      OpRaises(Run(db, ops[..n]), ops[n], g);
    }
  }

  // ---------------------------------------------------------------- completed positions

  /** A valid conversion that the position can still take: its first, or a repetition of the recorded one. */
  predicate TakesConversion(db: Db, p: nat, result: Conversion) {
    && ValidConversion(result)
    && p < |db.positions| && db.positions[p].group.Some? && db.positions[p].group.value < |db.groups|
    && (SwapOf(db, p).Some? ==>
          SwapOf(db, p).value == result && (ProvenanceOf(db, p).None? ==> Adopt(db, p, result).Some?))
  }

  lemma {:induction false} ConversionTaken(db: Db, p: nat, result: Conversion)
    ensures CheckpointSourceConversion(db, p, result).Some? <==> TakesConversion(db, p, result)
    ensures CheckpointSourceConversion(db, p, result).Some? ==>
              var after := CheckpointSourceConversion(db, p, result).value;
              && |after.positions| == |db.positions|
              && after.positions[p].state == Converted
              && forall q | 0 <= q < |db.positions| && q != p :: after.positions[q] == db.positions[q]
  {
  }

  lemma {:induction false} AccountKeepsStates(db: Db, p: nat, loss: real, q: nat)
    requires q < |db.positions|
    ensures var after := ApplyLedger(db, Account(p, loss));
            |after.positions| == |db.positions| && after.positions[q].state == db.positions[q].state
  {
  }

  /** A completed position is reopened by an operation exactly when that operation records a source conversion that
      the position can still take; nothing else, no requote and no reactivation, reopens it. */
  lemma {:induction false} CompletedReopenedIff(db: Db, op: Op, p: nat)
    requires p < |db.positions| && db.positions[p].state == Completed
    ensures p < |Apply(db, op).positions|
    ensures Apply(db, op).positions[p].state != Completed
            <==> op.LedgerOperation? && op.ledger.Convert? && op.ledger.p == p && TakesConversion(db, p, op.ledger.result)
  {
    if op.LedgerOperation? {
      match op.ledger
      case Account(q, loss) => AccountKeepsStates(db, q, loss, p);
      case Convert(q, result) => ConversionTaken(db, q, result);
    } else {
      OtherOperationsSpare(db, op, p);
    }
  }

  lemma {:induction false} OtherOperationsSpare(db: Db, op: Op, p: nat)
    requires !op.LedgerOperation?
    requires p < |db.positions| && db.positions[p].state == Completed
    ensures p < |Apply(db, op).positions| && Apply(db, op).positions[p].state == Completed
  {
    if op.ReactivateDirect? || op.ReactivateGas? {
      var rows := Members(db.positions, op.g);
      if |rows| == 1 {
        assert rows[0] in rows;
      }
    }
  }

  /** The family is not empty: a completed direct deposit takes a first conversion and goes back to pending. */
  lemma {:induction false} CompletedCanBeReopened()
    ensures exists db: Db, op: Op :: && |db.positions| == 1 && db.positions[0].state == Completed
                                     && |Apply(db, op).positions| == 1 && Apply(db, op).positions[0].state == Converted
  {
    var group := Group("g", "w", 1, 1.0, 100.0, 0.0, GActive, None);
    var position := Position("p", "w", Some(0), None, None, None, None, None, None, Completed);
    var db := Db([group], [position], [], [], map[]);
    var result := Conversion(true, "native", 5, true, Some(Cost(1.0, true)));
    ConversionTaken(db, 0, result);
    var after := Apply(db, LedgerOperation(Convert(0, result)));
    assert |after.positions| == 1 && after.positions[0].state == Converted;
  }

  ghost predicate NeverConverts(ops: seq<Op>, p: nat) {
    forall op | op in ops :: !(op.LedgerOperation? && op.ledger.Convert? && op.ledger.p == p)
  }

  /** So a completed position stays completed over every run that records no conversion for it. */
  lemma {:induction false} CompletedStaysCompleted(db: Db, ops: seq<Op>, p: nat)
    requires p < |db.positions| && db.positions[p].state == Completed && NeverConverts(ops, p)
    ensures p < |Run(db, ops).positions| && Run(db, ops).positions[p].state == Completed
  {
    if ops != [] {
      var n := |ops| - 1;
      assert ops[n] in ops && forall op | op in ops[..n] :: op in ops;
      CompletedStaysCompleted(db, ops[..n], p);
      CompletedReopenedIff(Run(db, ops[..n]), ops[n], p);
    }
  }

  /** A group leaves a terminal state only by a reactivation of its own or by the bootstrap of its only member; and it leaves a
      state other than halted only by the two reactivations that repair a single member. */
  lemma {:induction false} TerminalGroupReopened(db: Db, op: Op, g: nat)
    requires g < |db.groups| && GroupTargets(db.groups[g].state) == {}
    requires g < |Apply(db, op).groups| && Apply(db, op).groups[g].state != db.groups[g].state
    ensures if op.BootstrapOp? then exists p | p in Members(db.positions, g) :: db.positions[p].key == op.bootstrap.key
            else (op.ReactivateDirect? || op.ReactivateGas? || op.ReactivateUnsigned? || op.ReactivateWeth?) && op.g == g
    ensures db.groups[g].state != GReviewHalted ==> op.ReactivateDirect? || op.ReactivateGas?
  {
    if op.LedgerOperation? {
      LedgerKeepsGroupStates(db, op.ledger, g);
    } else if op.BootstrapOp? {
      var p := PositionByKey(db.positions, op.bootstrap.key).value;
      assert p in Members(db.positions, g);
    }
  }

  lemma {:induction false} LedgerKeepsGroupStates(db: Db, op: LedgerOp, g: nat)
    requires g < |db.groups|
    ensures |ApplyLedger(db, op).groups| == |db.groups|
    ensures ApplyLedger(db, op).groups[g].state == db.groups[g].state
  {
    match op
    case Account(p, loss) =>
    case Convert(p, result) =>
  }

  // ---------------------------------------------------------------- adoption over whole runs

  /** No checkpoint of the run is the position's cost provenance written by hand. */
  predicate ProvenanceLeftAlone(ops: seq<Op>, p: nat) {
    forall op | op in ops :: op.Checkpoint? ==> !(op.p == p && op.checkpointKey == "source_cost_provenance")
  }

  lemma {:induction false} NotesAreNotes(positions: seq<Position>, g: nat, n: nat)
    requires n <= |positions|
    ensures forall at | at in RetryNotes(positions, g, n) :: at.1 == "automatic_retry"
  {
    if n > 0 {
      NotesAreNotes(positions, g, n - 1);
    }
  }

  lemma {:induction false} OpKeepsProvenance(db: Db, op: Op, p: nat)
    requires ProvenanceOf(db, p).Some? && ProvenanceLeftAlone([op], p)
    ensures ProvenanceOf(Apply(db, op), p).Some?
  {
    assert op in [op];
    if op.LedgerOperation? {
      ProvenanceStays(db, op.ledger, p);
    } else if op.ReactivateUnsigned? {
      NotesAreNotes(db.positions, op.g, |db.positions|);
    }
  }

  lemma {:induction false} RunKeepsProvenance(db: Db, ops: seq<Op>, p: nat)
    requires ProvenanceOf(db, p).Some? && ProvenanceLeftAlone(ops, p)
    ensures ProvenanceOf(Run(db, ops), p).Some?
  {
    if ops != [] {
      var n := |ops| - 1;
      assert ops[n] in ops && forall op | op in ops[..n] :: op in ops;
      RunKeepsProvenance(db, ops[..n], p);
      OpKeepsProvenance(Run(db, ops[..n]), ops[n], p);
    }
  }

  /** An old swap cost is adopted at most once over every journal run: after adoption no steps, states, requotes, reactivations,
      reports or conversions, of any positions and in any number, make the position adoptable again. */
  lemma {:induction false} AdoptedOnceInARun(db: Db, p: nat, result: Conversion, ops: seq<Op>, op: LedgerOp)
    requires Adopt(db, p, result).Some? && op.p == p && ProvenanceLeftAlone(ops, p)
    ensures !NeedsAdoption(Run(Adopt(db, p, result).value, ops), op)
  {
    AdoptedProves(db, p, result);
    RunKeepsProvenance(Adopt(db, p, result).value, ops, p);
  }
}
