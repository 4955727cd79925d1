/** What the single operations of the journal do to its rows, and what runs keep of identities and requotes. */
module JournalRows {
  import opened Prelude
  import opened JournalTables
  import opened LossLedger
  import opened JournalRuns
  import opened Reactivations

  // ---------------------------------------------------------------- identities

  /** The first row with the key. */
  ghost predicate FirstGroup(groups: seq<Group>, key: string, g: nat) {
    g < |groups| && groups[g].key == key && forall i | 0 <= i < g :: groups[i].key != key
  }

  ghost predicate FirstPosition(positions: seq<Position>, key: string, p: nat) {
    p < |positions| && positions[p].key == key && forall i | 0 <= i < p :: positions[i].key != key
  }

  /** A group is created with its budget and no loss, or found unchanged under the very same identity; anything else is refused. */
  lemma {:induction false} GroupIdentity(db: Db, key: string, wallet: string, chain: int, budgetPct: real, sourceUsd: real)
    ensures var after := GetOrCreateGroup(db, key, wallet, chain, budgetPct, sourceUsd);
            var valid := key != "" && wallet != "" && chain > 0 && 0.0 < budgetPct <= 100.0 && sourceUsd > 0.0;
            && ((forall i | 0 <= i < |db.groups| :: db.groups[i].key != key) ==>
                  after == if valid then Some(db.(groups := db.groups + [Group(key, Lower(wallet), chain, budgetPct, sourceUsd, 0.0, GPlanned, None)]))
                           else None)
            && (forall g: nat | FirstGroup(db.groups, key, g) ::
                  after == if valid && db.groups[g].wallet == Lower(wallet) && db.groups[g].chain == chain
                              && db.groups[g].budgetPct == budgetPct && db.groups[g].sourceUsd == sourceUsd
                           then Some(db) else None)
  {
    var found := GroupByKey(db.groups, key);
  }

  /** A position is created planned, or found unchanged; what is given must be what was saved. */
  lemma {:induction false} PositionIdentity(db: Db, key: string, wallet: string, group: Option<nat>, asset: Option<string>,
                                            amount: Option<nat>)
    ensures var after := GetOrCreatePosition(db, key, wallet, group, asset, amount);
            var valid := key != "" && wallet != "";
            && ((forall i | 0 <= i < |db.positions| :: db.positions[i].key != key) ==>
                  after == if valid then Some(db.(positions := db.positions
                                         + [Position(key, Lower(wallet), group, asset, amount, None, None, None, None, Planned)]))
                           else None)
            && (forall p: nat | FirstPosition(db.positions, key, p) ::
                  after == if valid && (group.None? || group == db.positions[p].group)
                              && (asset.None? || asset == db.positions[p].sourceAsset)
                              && (amount.None? || amount == db.positions[p].sourceAmount)
                           then Some(db) else None)
  {
    var found := PositionByKey(db.positions, key);
  }

  // ---------------------------------------------------------------- states

  const FINAL_GROUPS: set<GroupState> := {GCompleted, GReviewAfterSwap, GReviewThreshold, GReviewHalted}
  const FINAL_POSITIONS: set<PositionState> := {Completed, ReviewAfterSwap, ReviewThreshold, ReviewHalted, ManualReview}
  const FINAL_STEPS: set<StepState> := {SCredited, SCompleted, SReverted, SFailed, SManualReview}

  /** The states that no transition leaves; a group in use can always be halted or completed, and none is planned again. */
  lemma {:induction false} GroupStates(g: GroupState)
    ensures GroupTargets(g) == {} <==> g in FINAL_GROUPS
    ensures g !in FINAL_GROUPS && g != GGasDeferred ==> GReviewHalted in GroupTargets(g) && GCompleted in GroupTargets(g)
    ensures GPlanned !in GroupTargets(g)
  {
    match g
    case GPlanned => assert GActive in GroupTargets(g);
    case GActive => assert GCompleted in GroupTargets(g);
    case GDepositPending => assert GCompleted in GroupTargets(g);
    case GGasDeferred => assert GActive in GroupTargets(g);
    case _ =>
  }

  /** Every open position can be put before a person, and none is planned again. */
  lemma {:induction false} PositionStates(p: PositionState)
    ensures PositionTargets(p) == {} <==> p in FINAL_POSITIONS
    ensures p !in FINAL_POSITIONS ==> exists review | review in FINAL_POSITIONS - {Completed} :: review in PositionTargets(p)
    ensures Planned !in PositionTargets(p)
  {
    if p !in FINAL_POSITIONS {
      var review := if p == DepositPending || p == GasDeferred then ManualReview else ReviewAfterSwap;
      if p == DirectDepositSubmitted { review := ManualReview; }
      assert review in FINAL_POSITIONS - {Completed} && review in PositionTargets(p);
    }
  }

  /** A step is submitted once, unless it was asked to be quoted again; only a submitted one is reverted; a credit needs a step that
      was seen or confirmed; and an unfinished step can always be put before a person. */
  lemma {:induction false} StepStates(s: StepState)
    ensures StepTargets(s) == {} <==> s in FINAL_STEPS
    ensures s !in FINAL_STEPS ==> SManualReview in StepTargets(s)
    ensures SReverted in StepTargets(s) <==> s == SSubmitted
    ensures SConfirmed in StepTargets(s) <==> s == SSubmitted
    ensures SCredited in StepTargets(s) <==> s in {SConfirmed, SDepositSeen, SAwaitingBridge, SBridgeTimeout}
    ensures SSubmitted in StepTargets(s) <==> s in {SPlanned, SRequoteRequired}
    ensures SPlanned !in StepTargets(s)
  {
    match s
    case SPlanned => assert SManualReview in StepTargets(s);
    case SSubmitted => assert SManualReview in StepTargets(s);
    case SDepositSeen => assert SManualReview in StepTargets(s);
    case SConfirmed => assert SManualReview in StepTargets(s);
    case SAwaitingBridge => assert SManualReview in StepTargets(s);
    case SBridgeTimeout => assert SManualReview in StepTargets(s);
    case SRequoteRequired => assert SManualReview in StepTargets(s);
    case _ =>
  }

  /** A transition changes the state of one row and what is given with it; what is not given stays. */
  lemma {:induction false} PositionStateRows(db: Db, p: nat, state: PositionState, asset: Option<string>, balance: Option<nat>,
                                             reason: Option<string>)
    requires p < |db.positions|
    ensures var row := db.positions[p];
            RecordPositionState(db, p, state, asset, balance, reason)
            == if state != row.state && state !in PositionTargets(row.state) then None
               else Some(db.(positions := db.positions[p := Position(
                 row.key, row.wallet, row.group, row.sourceAsset, row.sourceAmount,
                 match asset { case Some(a) => Some(a) case None => row.actualAsset },
                 match balance { case Some(b) => Some(b) case None => row.actualBalance },
                 row.accounted, match reason { case Some(r) => Some(r) case None => row.reason }, state)]))
  {
  }

  lemma {:induction false} GroupStateRows(db: Db, g: nat, state: GroupState, reason: Option<string>)
    requires g < |db.groups|
    ensures var row := db.groups[g];
            RecordGroupState(db, g, state, reason)
            == if state != row.state && state !in GroupTargets(row.state) then None
               else Some(db.(groups := db.groups[g := Group(row.key, row.wallet, row.chain, row.budgetPct, row.sourceUsd, row.realized, state,
                                                            match reason { case Some(r) => Some(r) case None => row.reason })]))
  {
  }

  // ---------------------------------------------------------------- steps

  /** The one row of the position, key and nonce. */
  ghost predicate NonceRow(steps: seq<Step>, p: nat, key: string, nonce: nat, id: nat) {
    id < |steps| && steps[id].position == p && steps[id].key == key && steps[id].nonce == nonce
  }

  /** A run applies its operations one after the other. */
  lemma {:induction false} RunsAreSteps(db: Db, ops: seq<Op>, op: Op)
    ensures Run(db, []) == db && Run(db, ops + [op]) == Apply(Run(db, ops), op)
  {
    assert (ops + [op])[..|ops|] == ops;
  }

  /** The unique key of the steps table. */
  ghost predicate NoncesUnique(steps: seq<Step>) {
    forall i, j | 0 <= i < j < |steps| :: steps[i].position != steps[j].position || steps[i].key != steps[j].key || steps[i].nonce != steps[j].nonce
  }

  /** A first intent adds one row: planned without a hash, submitted with one. */
  lemma {:induction false} FirstIntent(db: Db, p: nat, key: string, nonce: nat, calldata: string, payload: string, hash: Option<string>)
    requires forall id: nat :: !NonceRow(db.steps, p, key, nonce, id)
    ensures RecordStepIntent(db, p, key, nonce, calldata, payload, hash)
            == if key == "" || calldata == "" || payload == "" then None
               else Some(db.(steps := db.steps + [Step(p, key, nonce, if hash.Some? then SSubmitted else SPlanned, calldata, payload, hash, 0)]))
  {
    var found := StepRow(db.steps, p, key, nonce);
    if found.Some? { assert NonceRow(db.steps, p, key, nonce, found.value); }
    var n, planned := |db.steps|, db.steps + [Step(p, key, nonce, SPlanned, calldata, payload, None, 0)];
    forall row ensures planned[n := row] == db.steps + [row] {}
    assert planned[n := planned[n].(state := SSubmitted)][n := planned[n].(state := SSubmitted, txHash := hash)]
           == planned[n := planned[n].(state := SSubmitted, txHash := hash)];
  }

  /** A repeated intent must be for the same call: it changes nothing, or binds the first hash of a planned step; another digest,
      another hash and a step that cannot be submitted are refused. */
  lemma {:induction false} RepeatedIntent(db: Db, p: nat, key: string, nonce: nat, calldata: string, payload: string, hash: Option<string>,
                                          id: nat)
    requires NoncesUnique(db.steps) && NonceRow(db.steps, p, key, nonce, id) && key != "" && calldata != "" && payload != ""
    ensures var row := db.steps[id];
            RecordStepIntent(db, p, key, nonce, calldata, payload, hash)
            == if row.calldata != calldata || row.payload != payload then None
               else if hash.None? || hash == row.txHash then Some(db)
               else if row.txHash.Some? || row.state !in {SPlanned, SSubmitted, SRequoteRequired} then None
               else Some(db.(steps := db.steps[id := row.(state := SSubmitted, txHash := hash)]))
  {
    var found := StepRow(db.steps, p, key, nonce);
    assert found.Some?;
    assert found.value == id;
    StepStates(db.steps[id].state);
    var row := db.steps[id];
    assert db.steps[id := row.(state := SSubmitted)][id := row.(state := SSubmitted, txHash := hash)]
           == db.steps[id := row.(state := SSubmitted, txHash := hash)];
  }

  /** A broadcast attempt submits the step, counts, and binds the hash only when there was none. */
  lemma {:induction false} AttemptRows(db: Db, id: nat, hash: string)
    requires id < |db.steps|
    ensures var row := db.steps[id];
            RecordBroadcastAttempt(db, id, hash)
            == if row.state !in {SPlanned, SSubmitted, SRequoteRequired} then None
               else Some(db.(steps := db.steps[id := Step(row.position, row.key, row.nonce, SSubmitted, row.calldata, row.payload,
                                                          if row.txHash.Some? then row.txHash else Some(hash), row.attempts + 1)]))
  {
    StepStates(db.steps[id].state);
    var row := db.steps[id];
    var after := row.(state := SSubmitted, txHash := if row.txHash.Some? then row.txHash else Some(hash), attempts := row.attempts + 1);
    assert db.steps[id := row.(state := SSubmitted)][id := after] == db.steps[id := after];
  }

  // ---------------------------------------------------------------- requotes

  /** The requotes after a swap among the events of the position. */
  function SwapRequotes(events: seq<Event>, p: nat): nat {
    if events == [] then 0
    else
      var last := events[|events| - 1];
      SwapRequotes(events[..|events| - 1], p) + if last.position == p && last.kind == RequoteAfterSwap then 1 else 0
  }

  lemma {:induction false} NoneCounted(events: seq<Event>, p: nat)
    ensures SwapRequotes(events, p) == 0
            <==> forall e | e in events :: e.position != p || e.kind != RequoteAfterSwap
  {
    if events != [] {
      var n := |events| - 1;
      NoneCounted(events[..n], p);
      assert events[n] in events && forall e | e in events[..n] :: e in events;
      forall e | e in events && e != events[n] ensures e in events[..n] {}
    }
  }

  /** A requote after a swap: for a converted or timed-out position with something to quote, once; it is written down with the asset
      and the amount. */
  lemma {:induction false} SwapRequoteRows(db: Db, p: nat, asset: string, amount: nat, reason: Option<string>)
    requires p < |db.positions|
    ensures var row := db.positions[p];
            RecordRequoteAfterSwap(db, p, asset, amount, reason)
            == if asset == "" || amount == 0 || row.state !in {Converted, BridgeTimeout} || SwapRequotes(db.events, p) > 0 then None
               else Some(db.(events := db.events + [Event(p, RequoteAfterSwap, asset, amount)],
                             positions := db.positions[p := row.(state := RequoteRequired, actualAsset := Some(asset), actualBalance := Some(amount),
                                                                 reason := if reason.Some? then reason else row.reason)]))
  {
    NoneCounted(db.events, p);
    assert (forall e | e in db.events :: e.position != p || e.kind != RequoteAfterSwap)
           <==> forall i | 0 <= i < |db.events| :: !(db.events[i].position == p && db.events[i].kind == RequoteAfterSwap);
  }

  lemma {:induction false} BridgeRequoteRows(db: Db, p: nat, asset: string, amount: nat)
    ensures RecordRequoteAfterBridge(db, p, asset, amount)
            == if p >= |db.positions| || asset == "" || amount == 0 then None
               else Some(db.(events := db.events + [Event(p, RequoteAfterBridge, Lower(asset), amount)]))
  {
  }

  /** Events are only added, by requotes. */
  lemma {:induction false} EventsGrow(db: Db, op: Op, p: nat)
    ensures SwapRequotes(Apply(db, op).events, p)
            == SwapRequotes(db.events, p) + if op.RequoteSwap? && op.p == p && Outcome(db, op).Some? then 1 else 0
  {
    if op.LedgerOperation? {
      LedgerKeepsEvents(db, op.ledger);
    } else if op.RequoteSwap? || op.RequoteBridge? {
      assert Apply(db, op).events[..|db.events|] == db.events;
    }
  }

  lemma {:induction false} LedgerKeepsEvents(db: Db, op: LedgerOp)
    ensures ApplyLedger(db, op).events == db.events
  {
    match op
    case Account(p, loss) =>
    case Convert(p, result) =>
  }

  /** Over every run a position is requoted after a swap at most once. */
  lemma {:induction false} RequotedAtMostOnce(db: Db, ops: seq<Op>, p: nat)
    requires SwapRequotes(db.events, p) <= 1
    ensures SwapRequotes(Run(db, ops).events, p) <= 1
  {
    if ops != [] {
      var n := |ops| - 1;
      RequotedAtMostOnce(db, ops[..n], p);
      var before := Run(db, ops[..n]);
      EventsGrow(before, ops[n], p);
      if ops[n].RequoteSwap? && ops[n].p == p && p < |before.positions| {
        SwapRequoteRows(before, p, ops[n].toAsset, ops[n].amount, ops[n].reason);
      }
    }
  }

  // ---------------------------------------------------------------- group losses

  /** A group's total is set by hand only while the group is open, and never lowered. */
  lemma {:induction false} GroupLossRows(db: Db, g: nat, total: real)
    requires g < |db.groups|
    ensures RecordGroupRealizedLoss(db, g, total)
            == if total < db.groups[g].realized || db.groups[g].state !in {GPlanned, GActive, GDepositPending} then None
               else Some(db.(groups := db.groups[g := db.groups[g].(realized := total)]))
  {
  }
}
