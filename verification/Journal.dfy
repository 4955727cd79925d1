/** The journal object: its tables are fields, and each method is one transaction that changes them in place.
    Every method is proved against the table function for it in `JournalTables` or `LossLedger`. */
module Journals {
  import opened Prelude
  import opened JournalTables
  import opened LossLedger
  import JournalRuns

  class Journal {
    var groups: seq<Group>
    var positions: seq<Position>
    var steps: seq<Step>
    var events: seq<Event>
    var checkpoints: map<(nat, string), Payload>

    constructor ()
      ensures Tables() == Db([], [], [], [], map[])
    {
      groups, positions, steps, events, checkpoints := [], [], [], [], map[];
    }

    function Tables(): Db
      reads this
    {
      Db(groups, positions, steps, events, checkpoints)
    }

    // -------------------------------------------------------------- identities and states

    /** The row of a group, created when it is new; None when the saved identity differs. */
    method Group(key: string, wallet: string, chain: int, budgetPct: real, sourceUsd: real) returns (id: Option<nat>)
      modifies `groups
      ensures var after := GetOrCreateGroup(old(Tables()), key, wallet, chain, budgetPct, sourceUsd);
              Tables() == after.GetOr(old(Tables())) && (id.Some? <==> after.Some?)
      ensures id.Some? ==> id.value < |groups| && groups[id.value].key == key
    {
      if key == "" || wallet == "" || chain <= 0 || budgetPct <= 0.0 || budgetPct > 100.0 || sourceUsd <= 0.0 {
        return None;
      }
      id := GroupByKey(groups, key);
      if id.None? {
        id := Some(|groups|);
        groups := groups + [JournalTables.Group(key, Lower(wallet), chain, budgetPct, sourceUsd, 0.0, GPlanned, None)];
        return;
      }
      var row := groups[id.value];
      if row.wallet != Lower(wallet) || row.chain != chain || row.budgetPct != budgetPct || row.sourceUsd != sourceUsd {
        return None;
      }
    }

    method Position(key: string, wallet: string, group: Option<nat>, sourceAsset: Option<string>,
          sourceAmount: Option<nat>)
      returns (id: Option<nat>)
      modifies `positions
      ensures var after := GetOrCreatePosition(old(Tables()), key, wallet, group, sourceAsset, sourceAmount);
              Tables() == after.GetOr(old(Tables())) && (id.Some? <==> after.Some?)
      ensures id.Some? ==> id.value < |positions| && id.value == PositionByKey(old(positions), key).GetOr(|old(positions)|)
    {
      if key == "" || wallet == "" {
        return None;
      }
      id := PositionByKey(positions, key);
      if id.None? {
        id := Some(|positions|);
        positions := positions + [JournalTables.Position(key, Lower(wallet), group, sourceAsset, sourceAmount, None, None,
                                                         None, None, Planned)];
        return;
      }
      var row := positions[id.value];
      if (group.Some? && row.group != group) || (sourceAsset.Some? && row.sourceAsset != sourceAsset)
         || (sourceAmount.Some? && row.sourceAmount != sourceAmount) {
        return None;
      }
    }

    method SetGroupState(g: nat, state: GroupState, reason: Option<string>) returns (ok: bool)
      modifies `groups
      ensures var after := RecordGroupState(old(Tables()), g, state, reason);
              Tables() == after.GetOr(old(Tables())) && (ok <==> after.Some?)
    {
      if g >= |groups| || (state != groups[g].state && state !in GroupTargets(groups[g].state)) {
        return false;
      }
      groups := groups[g := groups[g].(state := state, reason := Coalesce(reason, groups[g].reason))];
      return true;
    }

    method SetGroupRealizedLoss(g: nat, loss: real) returns (ok: bool)
      modifies `groups
      ensures var after := RecordGroupRealizedLoss(old(Tables()), g, loss);
              Tables() == after.GetOr(old(Tables())) && (ok <==> after.Some?)
    {
      if g >= |groups| || loss < groups[g].realized || groups[g].state !in {GPlanned, GActive, GDepositPending} {
        return false;
      }
      groups := groups[g := groups[g].(realized := loss)];
      return true;
    }

    method SetPositionState(p: nat, state: PositionState, asset: Option<string>, balance: Option<nat>,
          reason: Option<string>)
      returns (ok: bool)
      modifies `positions
      ensures var after := RecordPositionState(old(Tables()), p, state, asset, balance, reason);
              Tables() == after.GetOr(old(Tables())) && (ok <==> after.Some?)
    {
      if p >= |positions| || (state != positions[p].state && state !in PositionTargets(positions[p].state)) {
        return false;
      }
      var row := positions[p];
      positions := positions[p := row.(state := state, actualAsset := Coalesce(asset, row.actualAsset),
                                       actualBalance := Coalesce(balance, row.actualBalance),
                                       reason := Coalesce(reason, row.reason))];
      return true;
    }

    method RequoteSwap(p: nat, asset: string, amount: nat, reason: Option<string>) returns (ok: bool)
      modifies `positions, `events
      ensures var after := RecordRequoteAfterSwap(old(Tables()), p, asset, amount, reason);
              Tables() == after.GetOr(old(Tables())) && (ok <==> after.Some?)
    {
      if p >= |positions| || asset == "" || amount == 0 || positions[p].state !in {Converted, BridgeTimeout} {
        return false;
      }
      if exists i | 0 <= i < |events| :: events[i].position == p && events[i].kind == RequoteAfterSwap {
        return false;
      }
      events := events + [Event(p, RequoteAfterSwap, asset, amount)];
      var row := positions[p];
      positions := positions[p := row.(state := RequoteRequired, actualAsset := Some(asset),
                                       actualBalance := Some(amount), reason := Coalesce(reason, row.reason))];
      return true;
    }

    method RequoteBridge(p: nat, asset: string, amount: nat) returns (ok: bool)
      modifies `events
      ensures var after := RecordRequoteAfterBridge(old(Tables()), p, asset, amount);
              Tables() == after.GetOr(old(Tables())) && (ok <==> after.Some?)
    {
      ok := p < |positions| && asset != "" && amount > 0;
      if ok {
        events := events + [Event(p, RequoteAfterBridge, Lower(asset), amount)];
      }
    }

    // -------------------------------------------------------------- steps

    method SetStepState(id: nat, state: StepState) returns (ok: bool)
      modifies `steps
      ensures var after := TransitionStep(old(Tables()), id, state);
              Tables() == after.GetOr(old(Tables())) && (ok <==> after.Some?)
    {
      if id >= |steps| || (state != steps[id].state && state !in StepTargets(steps[id].state)) {
        return false;
      }
      steps := steps[id := steps[id].(state := state)];
      return true;
    }

    /** Persists an intent, and binds its hash when one is given, before anything is sent. */
    method StepIntent(p: nat, key: string, nonce: nat, calldata: string, payload: string, hash: Option<string>)
      returns (id: Option<nat>)
      modifies `steps
      ensures var after := RecordStepIntent(old(Tables()), p, key, nonce, calldata, payload, hash);
              Tables() == after.GetOr(old(Tables())) && (id.Some? <==> after.Some?)
      ensures id.Some? ==> id.value == StepRow(old(steps), p, key, nonce).GetOr(|old(steps)|)
    {
      if key == "" || calldata == "" || payload == "" {
        return None;
      }
      id := StepRow(steps, p, key, nonce);
      if id.None? {
        id := Some(|steps|);
        steps := steps + [Step(p, key, nonce, SPlanned, calldata, payload, None, 0)];
      }
      var row := steps[id.value];
      if row.calldata != calldata || row.payload != payload {
        return None;
      }
      if hash.Some? {
        if row.txHash.Some? && row.txHash != hash {
          return None;
        }
        if row.txHash.None? {
          var ok := SetStepState(id.value, SSubmitted);
          if !ok {
            return None;
          }
          steps := steps[id.value := steps[id.value].(txHash := hash)];
        }
      }
    }

    method BroadcastAttempt(id: nat, hash: string) returns (ok: bool)
      modifies `steps
      ensures var after := RecordBroadcastAttempt(old(Tables()), id, hash);
              Tables() == after.GetOr(old(Tables())) && (ok <==> after.Some?)
    {
      ok := SetStepState(id, SSubmitted);
      if ok {
        var row := steps[id];
        steps := steps[id := row.(txHash := Coalesce(row.txHash, Some(hash)), attempts := row.attempts + 1)];
      }
    }

    method WriteCheckpoint(p: nat, key: string, payload: Payload)
      modifies `checkpoints
      ensures Tables() == SaveCheckpoint(old(Tables()), p, key, payload)
    {
      checkpoints := checkpoints[(p, key) := payload];
    }

    // -------------------------------------------------------------- losses

    /** Takes over the cost of a swap that an older executor recorded; None when its ledger is ambiguous. */
    method AdoptLegacySourceCost(p: nat, result: Conversion) returns (proof: Option<Provenance>)
      modifies `groups, `positions, `checkpoints
      ensures var after := Adopt(old(Tables()), p, result);
              Tables() == after.GetOr(old(Tables())) && (proof.Some? <==> after.Some?)
      ensures proof.Some? ==> ProvenanceOf(Tables(), p) == proof
    {
      var baseline := LegacyBaseline(Tables(), p, result);
      var deposit := DepositOf(Tables(), p);
      if baseline.None? || (deposit.Some? && deposit.value.loss.None?) {
        return None;
      }
      var b := baseline.value;
      var cumulative := b.source + b.remaining;
      var after := if b.charged then b.paid else b.paid + b.source;
      positions := positions[p := positions[p].(accounted := Some(cumulative))];
      groups := groups[b.group := groups[b.group].(realized := after)];
      var legacy := None;
      if deposit.Some? {
        legacy := deposit.value.loss;
        var context := deposit.value.(loss := Some(Cost(legacy.value.amount + b.source, false)));
        checkpoints := checkpoints[(p, "route_deposit") := context];
      }
      var saved := Provenance(LegacyAdoption, b.source, cumulative, after, legacy);
      checkpoints := checkpoints[(p, "source_cost_provenance") := SourceCost(saved)];
      return Some(saved);
    }

    method AccountCumulativeLoss(p: nat, loss: real) returns (total: Option<real>)
      modifies `groups, `positions
      ensures var after := AccountCumulative(old(Tables()), p, loss);
              Tables() == after.GetOr(old(Tables())) && (total.Some? <==> after.Some?)
      ensures total.Some? ==> p < |positions| && positions[p].group.Some? && positions[p].group.value < |groups|
                              && total.value == groups[positions[p].group.value].realized
    {
      if p >= |positions| || positions[p].group.None? || positions[p].group.value >= |groups| {
        return None;
      }
      var g := positions[p].group.value;
      var previous := positions[p].accounted.GetOr(0.0);
      var current := MaxReal(previous, loss);
      positions := positions[p := positions[p].(accounted := Some(current))];
      groups := groups[g := groups[g].(realized := groups[g].realized + current - previous)];
      return Some(groups[g].realized);
    }

    /** Counts the loss of a position whose swap is recorded, adopting the row first when it is an old one; a
        transaction that fails half-way leaves the tables as they were. */
    method AccountSwappedLoss(p: nat, loss: real, swap: Conversion) returns (total: Option<real>)
      requires SwapOf(Tables(), p) == Some(swap) && loss >= 0.0
      modifies `groups, `positions, `checkpoints
      ensures var after := AccountPositionLoss(old(Tables()), p, loss);
              Tables() == after.GetOr(old(Tables())) && (total.Some? <==> after.Some?)
    {
      var savedGroups, savedPositions, savedCheckpoints := groups, positions, checkpoints;
      var reported := loss;
      if ProvenanceOf(Tables(), p).None? {
        var proof := AdoptLegacySourceCost(p, swap);
        if proof.None? {
          return None;
        }
        if proof.value.legacyRemaining == Some(Cost(loss, true)) {
          reported := loss + proof.value.source;
        }
      }
      total := AccountCumulativeLoss(p, reported);
      if total.None? {
        groups, positions, checkpoints := savedGroups, savedPositions, savedCheckpoints;
      }
    }

    method AccountLoss(p: nat, loss: real) returns (total: Option<real>)
      modifies `groups, `positions, `checkpoints
      ensures var after := AccountPositionLoss(old(Tables()), p, loss);
              Tables() == after.GetOr(old(Tables())) && (total.Some? <==> after.Some?)
    {
      if loss < 0.0 {
        return None;
      }
      var swap := SwapOf(Tables(), p);
      if swap.Some? {
        total := AccountSwappedLoss(p, loss, swap.value);
        return;
      }
      if p >= |positions| || positions[p].group.None? || positions[p].group.value >= |groups| {
        return None;
      }
      var g := positions[p].group.value;
      if positions[p].accounted.None? {
        positions := positions[p := positions[p].(accounted := Some(loss))];
        groups := groups[g := groups[g].(realized := groups[g].realized + loss)];
      }
      return Some(groups[g].realized);
    }

    /** Stores a confirmed swap and its cost together. */
    method ConvertSource(p: nat, result: Conversion) returns (total: Option<real>)
      modifies `groups, `positions, `checkpoints
      ensures var after := CheckpointSourceConversion(old(Tables()), p, result);
              Tables() == after.GetOr(old(Tables())) && (total.Some? <==> after.Some?)
    {
      if !ValidConversion(result) {
        return None;
      }
      var savedGroups, savedPositions, savedCheckpoints := groups, positions, checkpoints;
      var loss := result.loss.value.amount;
      var existing := SwapOf(Tables(), p);
      if existing.Some? && ProvenanceOf(Tables(), p).None? {
        var proof := AdoptLegacySourceCost(p, existing.value);
        if proof.None? {
          return None;
        }
      }
      if existing.Some? && existing.value != result {
        groups, positions, checkpoints := savedGroups, savedPositions, savedCheckpoints;
        return None;
      }
      if existing.None? {
        WriteCheckpoint(p, "swap_result", SwapResult(result));
      }
      total := AccountCumulativeLoss(p, loss);
      if total.None? {
        groups, positions, checkpoints := savedGroups, savedPositions, savedCheckpoints;
        return;
      }
      if existing.None? {
        WriteCheckpoint(p, "source_cost_provenance", SourceCost(Provenance(AtomicConversion, loss, loss, total.value, None)));
      }
      positions := positions[p := positions[p].(state := Converted, actualAsset := Some(result.asset),
                                                actualBalance := Some(result.balance))];
    }

    // -------------------------------------------------------------- reactivation

    method WriteStates(p: nat, state: PositionState, g: nat, groupState: GroupState)
      requires p < |positions|
      modifies `positions, `groups
      ensures Tables() == SetState(old(Tables()), p, state, g, groupState)
    {
      positions := positions[p := positions[p].(state := state)];
      if g < |groups| {
        groups := groups[g := groups[g].(state := groupState)];
      }
    }

    method ReactivateKnownDirectDeposit(g: nat, key: string) returns (ok: bool)
      modifies `positions, `groups
      ensures var after := ReactivateDirectDeposit(old(Tables()), g, key);
              Tables() == after.GetOr(old(Tables())) && (ok <==> after.Some?)
    {
      var rows := Members(positions, g);
      if |rows| != 1 {
        return false;
      }
      var p := rows[0];
      assert p in rows;
      if positions[p].key != key || positions[p].state !in {ManualReview, DepositPending} {
        return false;
      }
      var step := LatestStep(steps, p, "direct_deposit");
      if step.None? || steps[step.value].txHash.GetOr("") == "" || steps[step.value].state in {SFailed, SReverted} {
        return false;
      }
      WriteStates(p, DepositPending, g, GDepositPending);
      return true;
    }

    method ReactivateLegacyGasDeferral(g: nat, key: string) returns (ok: bool)
      modifies `positions, `groups
      ensures var after := ReactivateGasDeferral(old(Tables()), g, key);
              Tables() == after.GetOr(old(Tables())) && (ok <==> after.Some?)
    {
      var rows := Members(positions, g);
      if |rows| != 1 {
        return false;
      }
      var p := rows[0];
      assert p in rows;
      if positions[p].key != key || positions[p].state != ManualReview
         || !("ethereum_gas_deferred:" <= positions[p].reason.GetOr("")) || HasBroadcast(steps, p) {
        return false;
      }
      WriteStates(p, GasDeferred, g, GGasDeferred);
      return true;
    }

    /** Puts every unfinished member back to planned, one row after the other. */
    method ReplanMembers(g: nat)
      modifies `positions, `checkpoints
      ensures positions == Replanned(old(positions), g)
      ensures checkpoints == old(checkpoints) + RetryNotes(old(positions), g, |old(positions)|)
    {
      ghost var rows := positions;
      ghost var planned := Replanned(rows, g);
      var i := 0;
      while i < |positions|
        invariant 0 <= i <= |positions| == |rows|
        invariant forall q | 0 <= q < i :: positions[q] == planned[q]
        invariant forall q | i <= q < |rows| :: positions[q] == rows[q]
        invariant checkpoints == old(checkpoints) + RetryNotes(rows, g, i)
      {
        if positions[i].group == Some(g) && positions[i].state != Completed {
          checkpoints := checkpoints[(i, "automatic_retry") := Note];
          positions := positions[i := positions[i].(state := Planned, reason := None)];
        }
        i := i + 1;
      }
    }

    method ReactivateUnsignedGroup(g: nat, keys: set<string>) returns (ok: bool)
      modifies `positions, `groups, `checkpoints
      ensures var after := ReactivateUnsignedRetry(old(Tables()), g, keys);
              Tables() == after.GetOr(old(Tables())) && (ok <==> after.Some?)
    {
      if g >= |groups| || !UnsignedRetryAllowed(Tables(), g, keys) {
        return false;
      }
      ReplanMembers(g);
      groups := groups[g := groups[g].(state := GActive, reason := None)];
      return true;
    }

    method ReactivateUnsignedWeth(g: nat, keys: set<string>, p: nat, accrued: Option<real>) returns (ok: bool)
      modifies `positions, `groups, `checkpoints
      ensures var after := ReactivateWethContinuation(old(Tables()), g, keys, p, accrued);
              Tables() == after.GetOr(old(Tables())) && (ok <==> after.Some?)
    {
      if g >= |groups| || p >= |positions| {
        return false;
      }
      var group, row, rows := groups[g], positions[p], Members(positions, g);
      if group.state != GReviewHalted || !(GAS_SHORTFALL <= group.reason.GetOr("")) {
        return false;
      }
      if (set q | q in rows :: positions[q].key) != keys || p !in rows {
        return false;
      }
      if exists q | q in rows :: (q == p) == (positions[q].state == Completed) {
        return false;
      }
      if row.state != ManualReview || row.reason != group.reason || row.accounted.Some? {
        return false;
      }
      if accrued.None? || accrued.value < 0.0
         || accrued.value + group.realized > group.sourceUsd * group.budgetPct / 100.0 {
        return false;
      }
      checkpoints := checkpoints[(p, "canonical_recovery") := Note];
      positions := positions[p := row.(state := BridgeSubmitted, reason := None)];
      groups := groups[g := group.(state := GActive, reason := None)];
      return true;
    }

    /** Puts the only member of a group that was halted for gas back to planned, with a marker. */
    method Bootstrap(b: JournalTables.Bootstrap) returns (ok: bool)
      modifies `positions, `groups, `checkpoints
      ensures var after := BootstrapSource(old(Tables()), b);
              Tables() == after.GetOr(old(Tables())) && (ok <==> after.Some?)
    {
      var p := PositionByKey(positions, b.key);
      if p.None? || positions[p.value].group.None? || positions[p.value].group.value >= |groups| {
        return false;
      }
      var row := positions[p.value];
      var g := row.group.value;
      if !Bootstrappable(Tables(), p.value, g, b) {
        return false;
      }
      checkpoints := checkpoints[(p.value, "canonical_source_bootstrap") := Note];
      positions := positions[p.value := row.(state := Planned, reason := None)];
      groups := groups[g := groups[g].(state := GActive, reason := None)];
      return true;
    }

    method PerformReactivation(op: JournalRuns.Op)
      requires op.ReactivateDirect? || op.ReactivateGas? || op.ReactivateUnsigned? || op.ReactivateWeth? || op.BootstrapOp?
      modifies this
      ensures Tables() == JournalRuns.Apply(old(Tables()), op)
    {
      match op {
        case ReactivateDirect(g, key) => var _ := ReactivateKnownDirectDeposit(g, key);
        case ReactivateGas(g, key) => var _ := ReactivateLegacyGasDeferral(g, key);
        case ReactivateUnsigned(g, keys) => var _ := ReactivateUnsignedGroup(g, keys);
        case ReactivateWeth(g, keys, p, accrued) => var _ := ReactivateUnsignedWeth(g, keys, p, accrued);
        case BootstrapOp(bootstrap) => var _ := Bootstrap(bootstrap);
      }
    }

    method PerformOnSteps(op: JournalRuns.Op)
      requires op.Intent? || op.Attempt? || op.StepStateOp? || op.Checkpoint? || op.LedgerOperation?
      modifies this
      ensures Tables() == JournalRuns.Apply(old(Tables()), op)
    {
      match op {
        case Intent(p, key, nonce, calldata, payload, hash) => var _ := StepIntent(p, key, nonce, calldata, payload, hash);
        case Attempt(step, hash) => var _ := BroadcastAttempt(step, hash);
        case StepStateOp(step, state) => var _ := SetStepState(step, state);
        case Checkpoint(p, key, content) => WriteCheckpoint(p, key, content);
        case LedgerOperation(Account(p, loss)) => var _ := AccountLoss(p, loss);
        case LedgerOperation(Convert(p, result)) => var _ := ConvertSource(p, result);
      }
    }

    /** Any operation does to the tables what it does in a run, whether it succeeds or is refused. */
    method Perform(op: JournalRuns.Op)
      modifies this
      ensures Tables() == JournalRuns.Apply(old(Tables()), op)
    {
      if op.Intent? || op.Attempt? || op.StepStateOp? || op.Checkpoint? || op.LedgerOperation? {
        PerformOnSteps(op);
      } else if op.ReactivateDirect? || op.ReactivateGas? || op.ReactivateUnsigned? || op.ReactivateWeth? || op.BootstrapOp? {
        PerformReactivation(op);
      } else {
        match op {
          case NewGroup(key, wallet, chain, budgetPct, sourceUsd) => var _ := Group(key, wallet, chain, budgetPct, sourceUsd);
          case NewPosition(key, wallet, group, asset, amount) => var _ := Position(key, wallet, group, asset, amount);
          case GroupStateOp(g, state, reason) => var _ := SetGroupState(g, state, reason);
          case GroupLossOp(g, total) => var _ := SetGroupRealizedLoss(g, total);
          case PositionStateOp(p, state, asset, balance, reason) => var _ := SetPositionState(p, state, asset, balance, reason);
          case RequoteSwap(p, asset, amount, reason) => var _ := RequoteSwap(p, asset, amount, reason);
          case RequoteBridge(p, asset, amount) => var _ := RequoteBridge(p, asset, amount);
        }
      }
    }
  }
}
