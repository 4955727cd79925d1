/** The rows of the execution journal and what one transaction does to them.

    Row ids are positions in the tables: rows are only ever added.  Every operation is a function from the
    tables to the tables after it, or to `None` when it raises or returns false and leaves them alone.
    Amounts of money are exact. */
module JournalTables {
  import opened Prelude

  datatype GroupState =
    | GPlanned | GActive | GDepositPending | GGasDeferred | GCompleted
    | GReviewAfterSwap | GReviewThreshold | GReviewHalted

  datatype PositionState =
    | Planned | SwapSubmitted | Converted | RequoteRequired | BridgeSubmitted | BridgeTimeout
    | DirectDepositSubmitted | DepositPending | GasDeferred | Completed
    | ReviewAfterSwap | ReviewThreshold | ReviewHalted | ManualReview

  datatype StepState =
    | SPlanned | SSubmitted | SDepositSeen | SConfirmed | SAwaitingBridge | SBridgeTimeout | SRequoteRequired
    | SCredited | SCompleted | SReverted | SFailed | SManualReview

  function GroupTargets(s: GroupState): set<GroupState> {
    match s
    case GPlanned => {GActive, GGasDeferred, GCompleted, GReviewAfterSwap, GReviewThreshold, GReviewHalted}
    case GActive => {GDepositPending, GGasDeferred, GCompleted, GReviewAfterSwap, GReviewThreshold, GReviewHalted}
    case GDepositPending => {GActive, GCompleted, GDepositPending, GReviewHalted}
    case GGasDeferred => {GActive, GGasDeferred}
    case _ => {}
  }

  function PositionTargets(s: PositionState): set<PositionState> {
    match s
    case Planned => {GasDeferred, SwapSubmitted, DirectDepositSubmitted, Converted, Completed, ReviewAfterSwap,
                     ReviewThreshold, ReviewHalted, ManualReview, BridgeSubmitted}
    case SwapSubmitted => {Converted, ReviewAfterSwap, ReviewThreshold, ReviewHalted, ManualReview}
    case Converted => {Completed, DepositPending, RequoteRequired, BridgeSubmitted, ReviewAfterSwap,
                       ReviewThreshold, ReviewHalted, ManualReview}
    case RequoteRequired => {BridgeSubmitted, ReviewAfterSwap, ReviewThreshold}
    case BridgeSubmitted => {Converted, DepositPending, BridgeTimeout, Completed, ReviewAfterSwap,
                             ReviewThreshold, ReviewHalted, ManualReview}
    case BridgeTimeout => {RequoteRequired, Completed, ReviewAfterSwap, ReviewHalted}
    case DirectDepositSubmitted => {DepositPending, GasDeferred, Completed, ReviewThreshold, ReviewHalted,
                                    ManualReview}
    case DepositPending => {Completed, ManualReview}
    case GasDeferred => {DirectDepositSubmitted, BridgeSubmitted, SwapSubmitted, ManualReview, GasDeferred}
    case _ => {}
  }

  function StepTargets(s: StepState): set<StepState> {
    match s
    case SPlanned => {SSubmitted, SFailed, SManualReview}
    case SSubmitted => {SConfirmed, SDepositSeen, SReverted, SFailed, SBridgeTimeout, SManualReview}
    case SDepositSeen => {SCredited, SManualReview, SFailed}
    case SConfirmed => {SAwaitingBridge, SCredited, SCompleted, SBridgeTimeout, SManualReview}
    case SAwaitingBridge => {SCredited, SBridgeTimeout, SManualReview}
    case SBridgeTimeout => {SRequoteRequired, SCredited, SManualReview}
    case SRequoteRequired => {SSubmitted, SManualReview}
    case _ => {}
  }

  /** A decimal text: its value, and whether it is spelled the way the journal spells that value. */
  datatype Cost = Cost(amount: real, canonical: bool)

  datatype Group = Group(key: string, wallet: string, chain: int, budgetPct: real, sourceUsd: real,
                         realized: real, state: GroupState, reason: Option<string>)

  datatype Position = Position(key: string, wallet: string, group: Option<nat>, sourceAsset: Option<string>,
                               sourceAmount: Option<nat>, actualAsset: Option<string>, actualBalance: Option<nat>,
                               accounted: Option<real>, reason: Option<string>, state: PositionState)

  datatype Step = Step(position: nat, key: string, nonce: nat, state: StepState, calldata: string,
                       payload: string, txHash: Option<string>, attempts: nat)

  datatype EventKind = RequoteAfterSwap | RequoteAfterBridge

  datatype Event = Event(position: nat, kind: EventKind, asset: string, amount: nat)

  datatype Target = Target(coin: string, chain: string, assetId: string, chainId: Option<int>)

  /** A confirmed swap: `loss` is absent when the stored text is not a non-negative decimal, and `asText` says
      whether the balance was stored as a text. */
  datatype Conversion = Conversion(confirmed: bool, asset: string, balance: nat, asText: bool, loss: Option<Cost>)

  datatype Origin = AtomicConversion | LegacyAdoption

  datatype Provenance = Provenance(origin: Origin, source: real, cumulative: real, groupAfter: real,
                                   legacyRemaining: Option<Cost>)

  /** The payload of a checkpoint row, by what its key stores. */
  datatype Payload =
    | SwapResult(conversion: Conversion)
    | SourceCost(provenance: Provenance)
    | RouteDeposit(target: Option<Target>, txHash: string, recipient: string, stepKey: Option<string>,
                   sourceHash: string, loss: Option<Cost>)
    | BitgetCredit(success: bool, creditHash: string, creditRecipient: string, coin: string, chain: string)
    | Prepared(preparedTarget: Option<Target>, depositAddress: string, wallet: string)
    | ExecutionFailure(phase: string, failure: string)
    | RetryAt(at: Option<real>)
    | Note

  datatype Db = Db(groups: seq<Group>, positions: seq<Position>, steps: seq<Step>, events: seq<Event>,
                   checkpoints: map<(nat, string), Payload>)

  // ---------------------------------------------------------------- queries

  predicate AssetStep(s: Step, p: nat) {
    s.position == p && !LikePrefix("approval:", s.key)
  }

  predicate HasBroadcast(steps: seq<Step>, p: nat) {
    exists i | 0 <= i < |steps| :: steps[i].position == p && steps[i].txHash.Some?
  }

  predicate HasAssetIntent(steps: seq<Step>, p: nat) {
    exists i | 0 <= i < |steps| :: AssetStep(steps[i], p)
  }

  predicate HasStep(steps: seq<Step>, p: nat) {
    exists i | 0 <= i < |steps| :: steps[i].position == p
  }

  /** The newest row of a position and step key. */
  function LatestStep(steps: seq<Step>, p: nat, key: string): (r: Option<nat>)
    ensures r.Some? ==> r.value < |steps| && steps[r.value].position == p && steps[r.value].key == key
    ensures r.Some? ==> forall i | r.value < i < |steps| :: !(steps[i].position == p && steps[i].key == key)
    ensures r.None? ==> forall i | 0 <= i < |steps| :: !(steps[i].position == p && steps[i].key == key)
  {
    if steps == [] then None
    else
      var n := |steps| - 1;
      if steps[n].position == p && steps[n].key == key then Some(n) else LatestStep(steps[..n], p, key)
  }

  /** The row that the unique key (position, step key, nonce) selects. */
  function StepRow(steps: seq<Step>, p: nat, key: string, nonce: nat): (r: Option<nat>)
    ensures r.Some? ==> r.value < |steps| && steps[r.value].position == p && steps[r.value].key == key
                        && steps[r.value].nonce == nonce
    ensures r.None? ==> forall i | 0 <= i < |steps| ::
                          !(steps[i].position == p && steps[i].key == key && steps[i].nonce == nonce)
  {
    if steps == [] then None
    else
      var n := |steps| - 1;
      if steps[n].position == p && steps[n].key == key && steps[n].nonce == nonce then Some(n)
      else StepRow(steps[..n], p, key, nonce)
  }

  function Members(positions: seq<Position>, g: nat): (r: seq<nat>)
    ensures forall p: nat :: p in r <==> p < |positions| && positions[p].group == Some(g)
  {
    if positions == [] then []
    else
      var n := |positions| - 1;
      var rest := Members(positions[..n], g);
      if positions[n].group == Some(g) then rest + [n] else rest
  }

  function GroupByKey(groups: seq<Group>, key: string): (r: Option<nat>)
    ensures r.Some? ==> r.value < |groups| && groups[r.value].key == key
    ensures r.None? ==> forall i | 0 <= i < |groups| :: groups[i].key != key
  {
    FirstWhere(groups, (group: Group) => group.key == key)
  }

  function PositionByKey(positions: seq<Position>, key: string): (r: Option<nat>)
    ensures r.Some? ==> r.value < |positions| && positions[r.value].key == key
    ensures r.None? ==> forall i | 0 <= i < |positions| :: positions[i].key != key
  {
    FirstWhere(positions, (row: Position) => row.key == key)
  }

  function SwapOf(db: Db, p: nat): Option<Conversion> {
    if (p, "swap_result") in db.checkpoints && db.checkpoints[(p, "swap_result")].SwapResult?
    then Some(db.checkpoints[(p, "swap_result")].conversion) else None
  }

  function ProvenanceOf(db: Db, p: nat): Option<Provenance> {
    if (p, "source_cost_provenance") in db.checkpoints && db.checkpoints[(p, "source_cost_provenance")].SourceCost?
    then Some(db.checkpoints[(p, "source_cost_provenance")].provenance) else None
  }

  function DepositOf(db: Db, p: nat): Option<Payload> {
    if (p, "route_deposit") in db.checkpoints && db.checkpoints[(p, "route_deposit")].RouteDeposit?
    then Some(db.checkpoints[(p, "route_deposit")]) else None
  }

  /** A finished member's exchange credit is bound to its saved deposit. */
  predicate CreditVerified(db: Db, p: nat) {
    && DepositOf(db, p).Some?
    && (p, "bitget_credit") in db.checkpoints && db.checkpoints[(p, "bitget_credit")].BitgetCredit?
    && var context := DepositOf(db, p).value;
       var credit := db.checkpoints[(p, "bitget_credit")];
       && context.target.Some? && credit.success
       && context.txHash != "" && Lower(credit.creditHash) == Lower(context.txHash)
       && context.recipient != "" && Lower(credit.creditRecipient) == Lower(context.recipient)
       && context.target.value.coin != "" && credit.coin == context.target.value.coin
       && context.target.value.chain != "" && credit.chain == context.target.value.chain
       && context.stepKey.Some? && context.sourceHash != ""
       && var saved := LatestStep(db.steps, p, context.stepKey.value);
          && saved.Some?
          && db.steps[saved.value].txHash.Some?
          && Lower(db.steps[saved.value].txHash.value) == Lower(context.sourceHash)
  }

  // ---------------------------------------------------------------- identities and states

  function Coalesce<T>(given: Option<T>, saved: Option<T>): Option<T> {
    if given.Some? then given else saved
  }

  function GetOrCreateGroup(db: Db, key: string, wallet: string, chain: int, budgetPct: real,
        sourceUsd: real): Option<Db> {
    if key == "" || wallet == "" || chain <= 0 || budgetPct <= 0.0 || budgetPct > 100.0 || sourceUsd <= 0.0 then None
    else
      var found := GroupByKey(db.groups, key);
      if found.None? then
        Some(db.(groups := db.groups
                           + [Group(key, Lower(wallet), chain, budgetPct, sourceUsd, 0.0, GPlanned, None)]))
      else
        var g := db.groups[found.value];
        if g.wallet == Lower(wallet) && g.chain == chain && g.budgetPct == budgetPct && g.sourceUsd == sourceUsd
        then Some(db) else None
  }

  function GetOrCreatePosition(db: Db, key: string, wallet: string, group: Option<nat>, sourceAsset: Option<string>,
                               sourceAmount: Option<nat>): Option<Db> {
    if key == "" || wallet == "" then None
    else
      var found := PositionByKey(db.positions, key);
      if found.None? then
        Some(db.(positions := db.positions
                              + [Position(key, Lower(wallet), group, sourceAsset, sourceAmount, None, None, None,
                                          None, Planned)]))
      else
        var p := db.positions[found.value];
        if (group.Some? ==> p.group == group) && (sourceAsset.Some? ==> p.sourceAsset == sourceAsset)
           && (sourceAmount.Some? ==> p.sourceAmount == sourceAmount)
        then Some(db) else None
  }

  function RecordGroupState(db: Db, g: nat, state: GroupState, reason: Option<string>): Option<Db> {
    if g < |db.groups| && (state == db.groups[g].state || state in GroupTargets(db.groups[g].state))
    then Some(db.(groups := db.groups[g := db.groups[g].(state := state,
                                                          reason := Coalesce(reason, db.groups[g].reason))]))
    else None
  }

  function RecordGroupRealizedLoss(db: Db, g: nat, loss: real): Option<Db> {
    if g < |db.groups| && db.groups[g].realized <= loss
       && db.groups[g].state in {GPlanned, GActive, GDepositPending}
    then Some(db.(groups := db.groups[g := db.groups[g].(realized := loss)]))
    else None
  }

  function RecordPositionState(db: Db, p: nat, state: PositionState, asset: Option<string>, balance: Option<nat>,
                               reason: Option<string>): Option<Db> {
    if p < |db.positions| && (state == db.positions[p].state || state in PositionTargets(db.positions[p].state))
    then
      var row := db.positions[p];
      Some(db.(positions := db.positions[p := row.(state := state,
                                                    actualAsset := Coalesce(asset, row.actualAsset),
                                                    actualBalance := Coalesce(balance, row.actualBalance),
                                                    reason := Coalesce(reason, row.reason))]))
    else None
  }

  function RecordRequoteAfterSwap(db: Db, p: nat, asset: string, amount: nat, reason: Option<string>): Option<Db> {
    if p < |db.positions| && asset != "" && amount > 0
       && db.positions[p].state in {Converted, BridgeTimeout}
       && forall i | 0 <= i < |db.events| :: !(db.events[i].position == p && db.events[i].kind == RequoteAfterSwap)
    then
      var row := db.positions[p];
      Some(db.(events := db.events + [Event(p, RequoteAfterSwap, asset, amount)],
               positions := db.positions[p := row.(state := RequoteRequired, actualAsset := Some(asset),
                                                    actualBalance := Some(amount),
                                                    reason := Coalesce(reason, row.reason))]))
    else None
  }

  function RecordRequoteAfterBridge(db: Db, p: nat, asset: string, amount: nat): Option<Db> {
    if p < |db.positions| && asset != "" && amount > 0
    then Some(db.(events := db.events + [Event(p, RequoteAfterBridge, Lower(asset), amount)]))
    else None
  }

  // ---------------------------------------------------------------- steps

  function TransitionStep(db: Db, id: nat, state: StepState): Option<Db> {
    if id < |db.steps| && (state == db.steps[id].state || state in StepTargets(db.steps[id].state))
    then Some(db.(steps := db.steps[id := db.steps[id].(state := state)]))
    else None
  }

  /** Insert-or-ignore, then bind the hash: everything is committed together. */
  function RecordStepIntent(db: Db, p: nat, key: string, nonce: nat, calldata: string, payload: string,
                            hash: Option<string>): Option<Db> {
    if key == "" || calldata == "" || payload == "" then None
    else
      var found := StepRow(db.steps, p, key, nonce);
      var id := found.GetOr(|db.steps|);
      var db1 := if found.Some? then db
                 else db.(steps := db.steps + [Step(p, key, nonce, SPlanned, calldata, payload, None, 0)]);
      var row := db1.steps[id];
      if row.calldata != calldata || row.payload != payload then None
      else if hash.None? then Some(db1)
      else if row.txHash.Some? then (if row.txHash == hash then Some(db1) else None)
      else
        var db2 := TransitionStep(db1, id, SSubmitted);
        if db2.None? then None
        else Some(db2.value.(steps := db2.value.steps[id := db2.value.steps[id].(txHash := hash)]))
  }

  function RecordBroadcastAttempt(db: Db, id: nat, hash: string): Option<Db> {
    var db1 := TransitionStep(db, id, SSubmitted);
    if db1.None? then None
    else
      var row := db1.value.steps[id];
      Some(db1.value.(steps := db1.value.steps[id := row.(txHash := Coalesce(row.txHash, Some(hash)),
                                                          attempts := row.attempts + 1)]))
  }

  function SaveCheckpoint(db: Db, p: nat, key: string, payload: Payload): Db {
    db.(checkpoints := db.checkpoints[(p, key) := payload])
  }

  // ---------------------------------------------------------------- reactivation

  const LEGACY_PREPARATION_REJECTION: string :=
    "Client error '422 Unprocessable Entity' for url 'https://li.quest/v1/advanced/stepTransaction'\n"
    + "For more information check: https://developer.mozilla.org/en-US/docs/Web/HTTP/Status/422"

  const UNSIGNED_RETRY_REASONS: set<string> :=
    {"requote_required:stale_price", "native_gas_reserve_unstable", "requote_required:fee_cap_changed",
     "requote_required:target_minimum_changed", "route_preparation_rejected",
     LEGACY_PREPARATION_REJECTION, "requote_required:missing_gas_estimate"}

  function SetState(db: Db, p: nat, state: PositionState, g: nat, groupState: GroupState): Db
    requires p < |db.positions|
  {
    db.(positions := db.positions[p := db.positions[p].(state := state)],
        groups := if g < |db.groups| then db.groups[g := db.groups[g].(state := groupState)] else db.groups)
  }

  function ReactivateDirectDeposit(db: Db, g: nat, key: string): Option<Db> {
    var rows := Members(db.positions, g);
    if |rows| != 1 then None
    else
      var p := rows[0];
      assert p in rows;
      var step := LatestStep(db.steps, p, "direct_deposit");
      if db.positions[p].key != key || db.positions[p].state !in {ManualReview, DepositPending} then None
      else if step.None? || db.steps[step.value].txHash.None? || db.steps[step.value].txHash == Some("")
              || db.steps[step.value].state in {SFailed, SReverted} then None
      else Some(SetState(db, p, DepositPending, g, GDepositPending))
  }

  function ReactivateGasDeferral(db: Db, g: nat, key: string): Option<Db> {
    var rows := Members(db.positions, g);
    if |rows| != 1 then None
    else
      var p := rows[0];
      assert p in rows;
      if db.positions[p].key != key || db.positions[p].state != ManualReview
         || !("ethereum_gas_deferred:" <= db.positions[p].reason.GetOr("")) || HasBroadcast(db.steps, p) then None
      else Some(SetState(db, p, GasDeferred, g, GGasDeferred))
  }

  predicate RetryReason(db: Db, g: nat, rows: seq<nat>)
    requires g < |db.groups|
  {
    var reason := db.groups[g].reason;
    if reason == Some("execution_error:ValueError") && |rows| == 1 then
      && (rows[0], "execution_failure") in db.checkpoints
      && var proof := db.checkpoints[(rows[0], "execution_failure")];
         proof.ExecutionFailure? && proof.phase == "legacy_fee_cap_revalidation"
         && proof.failure == "requote_required:fee_cap_changed"
    else
      reason.Some? && reason.value in UNSIGNED_RETRY_REASONS
  }

  predicate UnsignedRetryAllowed(db: Db, g: nat, keys: set<string>)
    requires g < |db.groups|
  {
    var rows := Members(db.positions, g);
    && db.groups[g].state == GReviewHalted
    && RetryReason(db, g, rows)
    && (set p | p in rows :: db.positions[p].key) == keys
    && (exists p | p in rows :: db.positions[p].state != Completed)
    && (forall p | p in rows :: RetryMember(db, p, db.groups[g].reason))
  }

  /** A finished member must have a verified credit; an unfinished one must be halted, unsent, for this reason. */
  predicate RetryMember(db: Db, p: nat, reason: Option<string>)
    requires p < |db.positions|
  {
    if db.positions[p].state == Completed then CreditVerified(db, p)
    else
      && db.positions[p].state in {ManualReview, ReviewHalted}
      && db.positions[p].reason == reason
      && !HasAssetIntent(db.steps, p)
  }

  /** Unfinished members of a group go back to planned. */
  function Replanned(positions: seq<Position>, g: nat): (r: seq<Position>)
    ensures |r| == |positions|
    ensures forall p | 0 <= p < |r| ::
              r[p] == if positions[p].group == Some(g) && positions[p].state != Completed
                      then positions[p].(state := Planned, reason := None) else positions[p]
  {
    seq(|positions|, p requires 0 <= p < |positions| =>
      if positions[p].group == Some(g) && positions[p].state != Completed
      then positions[p].(state := Planned, reason := None) else positions[p])
  }

  /** The retry notes written for the unfinished members among the first n positions. */
  function RetryNotes(positions: seq<Position>, g: nat, n: nat): map<(nat, string), Payload>
    requires n <= |positions|
  {
    if n == 0 then map[]
    else
      var rest := RetryNotes(positions, g, n - 1);
      if positions[n - 1].group == Some(g) && positions[n - 1].state != Completed
      then rest[(n - 1, "automatic_retry") := Note] else rest
  }

  function ReactivateUnsignedRetry(db: Db, g: nat, keys: set<string>): Option<Db> {
    if g < |db.groups| && UnsignedRetryAllowed(db, g, keys) then
      Some(db.(positions := Replanned(db.positions, g),
               checkpoints := db.checkpoints + RetryNotes(db.positions, g, |db.positions|),
               groups := db.groups[g := db.groups[g].(state := GActive, reason := None)]))
    else None
  }

  /** `accrued` is the loss that the saved delivery proof carries, when there is such a proof. */
  function ReactivateWethContinuation(db: Db, g: nat, keys: set<string>, p: nat, accrued: Option<real>): Option<Db> {
    if g >= |db.groups| then None
    else
      var rows := Members(db.positions, g);
      var group := db.groups[g];
      if && group.state == GReviewHalted
         && GAS_SHORTFALL <= group.reason.GetOr("")
         && (set q | q in rows :: db.positions[q].key) == keys
         && p in rows
         && (forall q | q in rows :: q != p <==> db.positions[q].state == Completed)
         && db.positions[p].state == ManualReview
         && db.positions[p].reason == group.reason
         && db.positions[p].accounted.None?
         && accrued.Some? && 0.0 <= accrued.value
         && accrued.value + group.realized <= group.sourceUsd * group.budgetPct / 100.0
      then
        Some(db.(positions := db.positions[p := db.positions[p].(state := BridgeSubmitted, reason := None)],
                 checkpoints := db.checkpoints[(p, "canonical_recovery") := Note],
                 groups := db.groups[g := group.(state := GActive, reason := None)]))
      else None
  }

  // ---------------------------------------------------------------- the canonical source bootstrap

  /** A halted plan entry that asks to be bootstrapped.  `eligible` says that the entry itself, its wallet and the live balance
      qualify, and `samePlan` that a route prepared earlier was prepared for this very entry. */
  datatype Bootstrap = Bootstrap(key: string, wallet: string, chain: int, asset: string, amount: nat, groupKey: string,
                                 sourceUsd: real, budgetPct: real, eligible: bool, samePlan: bool)

  const GAS_SHORTFALL: string := "insufficient native balance for gas reserve:"

  /** The position is the only member of a group that was halted for gas, without a single step, and both are still what the
      entry says; some of the budget is left. */
  predicate Bootstrappable(db: Db, p: nat, g: nat, b: Bootstrap)
    requires p < |db.positions| && g < |db.groups|
  {
    var row, group := db.positions[p], db.groups[g];
    && b.eligible && b.amount > 0
    && group.state == GReviewHalted && group.reason.Some? && GAS_SHORTFALL <= group.reason.value
    && |Members(db.positions, g)| == 1
    && row.state == ManualReview && row.reason == group.reason
    && row.wallet == b.wallet && row.sourceAsset == Some(b.asset) && row.sourceAmount == Some(b.amount)
    && row.actualAsset.None?
    && group.wallet == b.wallet && group.chain == b.chain && group.key == b.groupKey
    && group.sourceUsd == b.sourceUsd && group.budgetPct == b.budgetPct == 15.0
    && !HasStep(db.steps, p)
    && ((p, "prepared") in db.checkpoints ==> b.samePlan)
    && 0.0 <= row.accounted.GetOr(0.0) <= group.realized
    && group.realized < group.sourceUsd * group.budgetPct / 100.0
  }

  function BootstrapSource(db: Db, b: Bootstrap): Option<Db> {
    var p := PositionByKey(db.positions, b.key);
    if p.None? || db.positions[p.value].group.None? || db.positions[p.value].group.value >= |db.groups| then None
    else
      var g := db.positions[p.value].group.value;
      if !Bootstrappable(db, p.value, g, b) then None
      else
        Some(db.(checkpoints := db.checkpoints[(p.value, "canonical_source_bootstrap") := Note],
                 positions := db.positions[p.value := db.positions[p.value].(state := Planned, reason := None)],
                 groups := db.groups[g := db.groups[g].(state := GActive, reason := None)]))
  }
}
