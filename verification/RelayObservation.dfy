/** What the answers to a Relay entry lead to, told in rows: what each observation records, when an entry sends, and what the
    counts of a pass mean. */
module RelayObservations {
  import opened Prelude
  import opened JournalTables
  import opened JournalRuns
  import opened Broadcasts
  import opened Executors
  import opened RelayExecutors

  // ---------------------------------------------------------------- observing

  /** The newest deposit row of the position, with its hash. */
  ghost predicate Watched(db: Db, p: nat, id: nat) {
    && p < |db.positions| && id < |db.steps| && db.steps[id].position == p && db.steps[id].key == "relay_deposit"
    && db.steps[id].txHash.Some? && db.steps[id].txHash.value != ""
    && forall i | id < i < |db.steps| :: db.steps[i].position != p || db.steps[i].key != "relay_deposit"
  }

  /** The status was read, the transfer has arrived, the exchange has credited it. */
  predicate StatusRead(sight: Sight) {
    sight.Confirmed? && !sight.status.StatusFails?
  }

  predicate HasArrived(sight: Sight) {
    sight.Confirmed? && sight.status.Success? && sight.status.arrival.Arrived?
  }

  predicate CreditRead(sight: Sight) {
    HasArrived(sight) && !sight.status.arrival.credit.CreditFails?
  }

  predicate IsCredited(sight: Sight) {
    HasArrived(sight) && sight.status.arrival.credit.Credited?
  }

  /** There is nothing to do but to look again: no receipt, too few blocks, a transfer on its way, a credit still pending. */
  predicate Waits(sight: Sight) {
    match sight
    case NoReceiptYet => true
    case Unconfirmed => true
    case Confirmed(Waiting) => true
    case Confirmed(Success(NotArrived)) => true
    case Confirmed(Success(Arrived(CreditPending))) => true
    case _ => false
  }

  /** Why a person must look at it: the deposit was reverted, refunded, or rejected by the exchange. */
  function Lost(sight: Sight): Option<string> {
    match sight
    case Reverted => Some("Relay source deposit reverted")
    case Confirmed(Refunded(why)) => Some(why)
    case Confirmed(Success(Arrived(Rejected(why)))) => Some(why)
    case _ => None
  }

  /** The exception an answer raises: its own, or a plain error for an answer that does not fit. */
  function Trouble(sight: Sight): Failure {
    match sight
    case SightFails(failure) => failure
    case Confirmed(StatusFails(failure)) => failure
    case Confirmed(Success(ArrivalFails(failure))) => failure
    case Confirmed(Success(Arrived(CreditFails(failure)))) => failure
    case _ => Error(None)
  }

  predicate Creditable(step: StepState, was: PositionState, sight: Sight) {
    IsCredited(sight) && step in CREDITABLE && was in COMPLETABLE
  }

  lemma {:induction false} WatchedIsLatest(db: Db, p: nat, id: nat)
    requires Watched(db, p, id)
    ensures LatestStep(db.steps, p, StepKey(Relay)) == Some(id)
  {
    var found := LatestStep(db.steps, p, StepKey(Relay));
    assert found.Some?;
  }

  // ---------------------------------------------------------------- the tables afterwards

  /** The state that an observed step ends in. */
  function StepAfter(was: StepState, sight: Sight): StepState {
    if IsCredited(sight) && was in CREDITABLE then SCredited
    else if was != SSubmitted then was
    else if sight.Reverted? then SReverted
    else if sight.Confirmed? then SConfirmed
    else was
  }

  function PositionAfter(was: PositionState, step: StepState, sight: Sight): PositionState {
    if Creditable(step, was, sight) then Completed
    else if HasArrived(sight) && was == BridgeSubmitted then DepositPending
    else was
  }

  /** What an observation notes about a position. */
  function Notes(p: nat, sight: Sight): map<(nat, string), Payload> {
    (if StatusRead(sight) then map[(p, "relay_status") := Note] else map[])
    + (if HasArrived(sight) then map[(p, "relay_destination") := Note] else map[])
    + (if CreditRead(sight) then map[(p, "relay_bitget_credit") := Note] else map[])
    + (if IsCredited(sight) then map[(p, "bitget_credit") := sight.status.arrival.credit.receipt] else map[])
  }

  function VerdictOf(step: StepState, was: PositionState, sight: Sight): Verdict {
    if Waits(sight) then Pending
    else if Lost(sight).Some? then Terminal(Lost(sight).value)
    else if Creditable(step, was, sight) then Completes
    else Raised(Trouble(sight))
  }

  /** Two states, the notes, and nothing else. */
  function RowsAfter(db: Db, p: nat, id: nat, sight: Sight): Db
    requires p < |db.positions| && id < |db.steps|
  {
    var step, was := db.steps[id].state, db.positions[p].state;
    db.(steps := db.steps[id := db.steps[id].(state := StepAfter(step, sight))],
        positions := db.positions[p := db.positions[p].(state := PositionAfter(was, step, sight))],
        checkpoints := db.checkpoints + Notes(p, sight))
  }

  lemma {:induction false} CreditRows(db: Db, p: nat, id: nat, receipt: Payload)
    requires p < |db.positions| && id < |db.steps|
    ensures var (after, verdict) := RecordCredit(db, p, id, receipt);
            var step := db.steps[id].state == SCredited || SCredited in StepTargets(db.steps[id].state);
            var position := db.positions[p].state == Completed || Completed in PositionTargets(db.positions[p].state);
            && after == db.(steps := if step then db.steps[id := db.steps[id].(state := SCredited)] else db.steps,
                            positions := if step && position then db.positions[p := db.positions[p].(state := Completed)] else db.positions,
                            checkpoints := db.checkpoints[(p, "relay_bitget_credit") := Note][(p, "bitget_credit") := receipt])
            && verdict == (if step && position then Completes else Raised(Error(None)))
  {
  }

  /** A transfer that has arrived. */
  lemma {:induction false} ArriveRows(db: Db, p: nat)
    requires p < |db.positions|
    ensures var was := db.positions[p].state;
            Arrive(db, p) == db.(positions := db.positions[p := db.positions[p].(state := if was == BridgeSubmitted then DepositPending else was)],
                                 checkpoints := db.checkpoints[(p, "relay_destination") := Note])
  {
    assert db.positions[p := db.positions[p].(state := db.positions[p].state)] == db.positions;
  }

  lemma {:induction false} CreditNotes(saved: map<(nat, string), Payload>, p: nat, receipt: Payload)
    requires (p, "relay_status") in saved && saved[(p, "relay_status")] == Note
    ensures saved[(p, "relay_destination") := Note][(p, "relay_bitget_credit") := Note][(p, "bitget_credit") := receipt]
            == saved + Notes(p, Confirmed(Success(Arrived(Credited(receipt)))))
  {
  }

  /** The positions and steps after a credit, in terms of what was there before the transfer arrived. */
  lemma {:induction false} CreditedStates(db: Db, p: nat, id: nat, receipt: Payload)
    requires p < |db.positions| && id < |db.steps| && db.steps[id].state != SSubmitted
    ensures var step, was := db.steps[id].state, db.positions[p].state;
            var (after, verdict) := ObserveCredit(db, p, id, Credited(receipt));
            && after == db.(steps := if step in CREDITABLE then db.steps[id := db.steps[id].(state := SCredited)] else db.steps,
                            positions := after.positions, checkpoints := after.checkpoints)
            && after.positions == db.positions[p := db.positions[p].(state := if step in CREDITABLE && was in COMPLETABLE then Completed
                                                                              else if was == BridgeSubmitted then DepositPending else was)]
            && after.checkpoints == db.checkpoints[(p, "relay_destination") := Note][(p, "relay_bitget_credit") := Note][(p, "bitget_credit") := receipt]
            && verdict == if step in CREDITABLE && was in COMPLETABLE then Completes else Raised(Error(None))
  {
    ArriveRows(db, p);
    TablesAllow(db.steps[id].state, db.positions[p].state);
    CreditRows(Arrive(db, p), p, id, receipt);
  }

  lemma {:induction false} CreditedMeans(step: StepState, was: PositionState, receipt: Payload)
    requires step != SSubmitted
    ensures var sight := Confirmed(Success(Arrived(Credited(receipt))));
            && StepAfter(step, sight) == (if step in CREDITABLE then SCredited else step)
            && PositionAfter(was, step, sight) == (if step in CREDITABLE && was in COMPLETABLE then Completed
                                                   else if was == BridgeSubmitted then DepositPending else was)
            && VerdictOf(step, was, sight) == if step in CREDITABLE && was in COMPLETABLE then Completes else Raised(Error(None))
  {
  }

  lemma {:induction false} CreditedRows(db: Db, p: nat, id: nat, receipt: Payload)
    requires p < |db.positions| && id < |db.steps| && db.steps[id].state != SSubmitted
    requires (p, "relay_status") in db.checkpoints && db.checkpoints[(p, "relay_status")] == Note
    ensures var sight := Confirmed(Success(Arrived(Credited(receipt))));
            ObserveCredit(db, p, id, Credited(receipt))
            == (RowsAfter(db, p, id, sight), VerdictOf(db.steps[id].state, db.positions[p].state, sight))
  {
    var step, was := db.steps[id].state, db.positions[p].state;
    CreditedMeans(step, was, receipt);
    CreditedStates(db, p, id, receipt);
    CreditNotes(db.checkpoints, p, receipt);
    var after := RowsAfter(db, p, id, Confirmed(Success(Arrived(Credited(receipt)))));
    assert after.steps == if step in CREDITABLE then db.steps[id := db.steps[id].(state := SCredited)] else db.steps;
  }

  lemma {:induction false} ArrivedRows(db: Db, p: nat, id: nat, credit: Credit)
    requires p < |db.positions| && id < |db.steps| && db.steps[id].state != SSubmitted
    requires (p, "relay_status") in db.checkpoints && db.checkpoints[(p, "relay_status")] == Note
    ensures var sight := Confirmed(Success(Arrived(credit)));
            ObserveCredit(db, p, id, credit)
            == (RowsAfter(db, p, id, sight), VerdictOf(db.steps[id].state, db.positions[p].state, sight))
  {
    if credit.Credited? {
      CreditedRows(db, p, id, credit.receipt);
    } else {
      ArriveRows(db, p);
      var sight := Confirmed(Success(Arrived(credit)));
      assert db.steps[id := db.steps[id].(state := db.steps[id].state)] == db.steps;
      assert ObserveCredit(db, p, id, credit).0.checkpoints == db.checkpoints + Notes(p, sight);
    }
  }

  lemma {:induction false} NotArrivedRows(db: Db, p: nat, id: nat, status: Status)
    requires p < |db.positions| && id < |db.steps| && db.steps[id].state != SSubmitted && !HasArrived(Confirmed(status))
    ensures ObserveStatus(db, p, id, status)
            == (RowsAfter(db, p, id, Confirmed(status)), VerdictOf(db.steps[id].state, db.positions[p].state, Confirmed(status)))
  {
    var after := RowsAfter(db, p, id, Confirmed(status));
    assert after.steps == db.steps && after.positions == db.positions;
    assert after.checkpoints == if StatusRead(Confirmed(status)) then db.checkpoints[(p, "relay_status") := Note] else db.checkpoints;
  }

  lemma {:induction false} NotedTwice(db: Db, p: nat, id: nat, sight: Sight)
    requires p < |db.positions| && id < |db.steps| && StatusRead(sight)
    ensures RowsAfter(SaveCheckpoint(db, p, "relay_status", Note), p, id, sight) == RowsAfter(db, p, id, sight)
  {
    assert db.checkpoints[(p, "relay_status") := Note] + Notes(p, sight) == db.checkpoints + Notes(p, sight);
  }

  lemma {:induction false} StatusRows(db: Db, p: nat, id: nat, status: Status)
    requires p < |db.positions| && id < |db.steps| && db.steps[id].state != SSubmitted
    ensures ObserveStatus(db, p, id, status)
            == (RowsAfter(db, p, id, Confirmed(status)), VerdictOf(db.steps[id].state, db.positions[p].state, Confirmed(status)))
  {
    if status.Success? && status.arrival.Arrived? {
      var noted := SaveCheckpoint(db, p, "relay_status", Note);
      ArrivedRows(noted, p, id, status.arrival.credit);
      NotedTwice(db, p, id, Confirmed(status));
    } else {
      NotArrivedRows(db, p, id, status);
    }
  }

  lemma {:induction false} UnconfirmedRows(db: Db, p: nat, id: nat, sight: Sight)
    requires Watched(db, p, id) && !sight.Confirmed?
    ensures ObserveOutcome(db, p, sight)
            == (RowsAfter(db, p, id, sight), VerdictOf(db.steps[id].state, db.positions[p].state, sight))
  {
    WatchedIsLatest(db, p, id);
    var after := RowsAfter(db, p, id, sight);
    assert after.positions == db.positions && after.checkpoints == db.checkpoints;
    assert db.steps[id := db.steps[id].(state := db.steps[id].state)] == db.steps;
  }

  /** For every answer: the tables after the observation, and how it ends. */
  lemma {:induction false} ObservedRows(db: Db, p: nat, id: nat, sight: Sight)
    requires Watched(db, p, id)
    ensures ObserveOutcome(db, p, sight)
            == (RowsAfter(db, p, id, sight), VerdictOf(db.steps[id].state, db.positions[p].state, sight))
  {
    if sight.Confirmed? {
      WatchedIsLatest(db, p, id);
      var settled := Settle(db, id, SConfirmed);
      StatusRows(settled, p, id, sight.status);
      assert RowsAfter(settled, p, id, sight).steps == RowsAfter(db, p, id, sight).steps;
    } else {
      UnconfirmedRows(db, p, id, sight);
    }
  }

  /** Only a credit that the exchange reports as made completes a position or credits a step, whatever the tables hold. */
  lemma {:induction false} OnlyCreditCompletes(db: Db, p: nat, sight: Sight)
    requires p < |db.positions|
    ensures var (after, verdict) := ObserveOutcome(db, p, sight);
            && |after.positions| == |db.positions| && |after.steps| == |db.steps|
            && (verdict == Completes ==> IsCredited(sight))
            && (forall q | 0 <= q < |db.positions| && after.positions[q].state == Completed ::
                  db.positions[q].state == Completed || IsCredited(sight))
            && (forall i | 0 <= i < |db.steps| && after.steps[i].state == SCredited ::
                  db.steps[i].state == SCredited || IsCredited(sight))
  {
    var step := LatestStep(db.steps, p, StepKey(Relay));
    if step.Some? && db.steps[step.value].txHash.GetOr("") != "" {
      ObservedRows(db, p, step.value, sight);
    }
  }

  /** How the observation of a sent deposit ends, for every answer. */
  lemma {:induction false} VerdictIff(db: Db, p: nat, id: nat, sight: Sight)
    requires Watched(db, p, id)
    ensures var verdict := ObserveOutcome(db, p, sight).1;
            && (verdict == Pending <==> Waits(sight))
            && (verdict.Terminal? <==> Lost(sight).Some?) && (verdict.Terminal? ==> Lost(sight) == Some(verdict.why))
            && (verdict == Completes <==>
                  IsCredited(sight) && db.steps[id].state in CREDITABLE && db.positions[p].state in COMPLETABLE)
            && (verdict.Raised? ==> verdict.failure == Trouble(sight))
            && verdict != Skipped
  {
    ObservedRows(db, p, id, sight);
  }

  // ---------------------------------------------------------------- when an entry sends

  /** The row that an entry is about: the one with its key, or a new one. */
  function NamedRow(db: Db, e: RelayEntry): nat {
    PositionByKey(db.positions, e.key).GetOr(|db.positions|)
  }

  /** The provider asked to wait until a later time. */
  predicate ToldToWait(db: Db, p: nat, now: real) {
    && (p, "relay_retry") in db.checkpoints && db.checkpoints[(p, "relay_retry")].RetryAt?
    && db.checkpoints[(p, "relay_retry")].at.Some? && now < db.checkpoints[(p, "relay_retry")].at.value
  }

  /** Nothing but approvals was ever prepared for the position, and nothing was broadcast. */
  ghost predicate Unsent(db: Db, p: nat) {
    forall i | 0 <= i < |db.steps| && db.steps[i].position == p :: LikePrefix("approval:", db.steps[i].key) && db.steps[i].txHash.None?
  }

  /** The entry gets as far as preparing a transaction. */
  ghost predicate Prepares(db: Db, e: RelayEntry) {
    var p := NamedRow(db, e);
    && e.knownWallet && e.key != "" && e.wallet != "" && e.ready
    && (p < |db.positions| ==> db.positions[p].state !in {Completed, ManualReview})
    && Unsent(db, p) && !ToldToWait(db, p, e.now)
  }

  ghost predicate SendsNow(db: Db, e: RelayEntry) {
    Prepares(db, e) && e.preparation.Signs? && e.preparation.tx.calldata != "" && e.preparation.tx.payload != ""
  }

  lemma {:induction false} DepositSends(db: Db, p: nat, tx: Signed, e: RelayEntry)
    requires Unsent(db, p)
    ensures Deposit(db, p, tx, e).sends == if tx.calldata != "" && tx.payload != "" then [Sent(p, "relay_deposit", tx.hash)] else []
    ensures Deposit(db, p, tx, e).submitted
            <==> tx.calldata != "" && tx.payload != "" && e.answer in {HashReturned, NoAnswer}
  {
    assert !LikePrefix("approval:", "relay_deposit") by { assert LowerChar("approval:"[0]) != LowerChar("relay_deposit"[0]); }
    var saved := SaveCheckpoint(db, p, "relay_execution", Note);
    assert LatestStep(saved.steps, p, StepKey(Relay)).None?;
    if tx.calldata != "" && tx.payload != "" {
      FirstBroadcastSends(saved, p, StepKey(Relay), tx);
      assert RecordStepIntent(saved, p, StepKey(Relay), tx.nonce, tx.calldata, tx.payload, Some(tx.hash)).Some?;
    }
  }

  lemma {:induction false} TrySends(db: Db, p: nat, e: RelayEntry)
    ensures var end := TryEntry(db, p, e);
            && end.sends == (if Unsent(db, p) && !ToldToWait(db, p, e.now) && e.ready && e.preparation.Signs?
                                && e.preparation.tx.calldata != "" && e.preparation.tx.payload != ""
                             then [Sent(p, "relay_deposit", e.preparation.tx.hash)] else [])
            && (end.submitted <==> end.sends != [] && e.answer in {HashReturned, NoAnswer})
  {
    if Unsent(db, p) {
      if e.preparation.Signs? { DepositSends(db, p, e.preparation.tx, e); }
    } else {
      var i :| 0 <= i < |db.steps| && db.steps[i].position == p && !(LikePrefix("approval:", db.steps[i].key) && db.steps[i].txHash.None?);
      assert HasBroadcast(db.steps, p) || AssetStep(db.steps[i], p);
    }
  }

  /** An entry sends exactly when its wallet is known, its position open and never sent, its route ready, no announced wait
      running, and a transaction was signed; and then exactly once. */
  lemma {:induction false} EntrySendsIff(db: Db, e: RelayEntry, s: Summary)
    ensures EntryOutcome(db, e, s).sends
            == if SendsNow(db, e) then [Sent(NamedRow(db, e), "relay_deposit", e.preparation.tx.hash)] else []
  {
    var made := GetOrCreatePosition(db, e.key, e.wallet, None, None, None);
    if made.Some? {
      TrySends(made.value, NamedRow(db, e), e);
    }
  }

  /** A failure that names a retry time, before anything was prepared for sending, is remembered: the position keeps its state,
      and no entry for it sends before that time. */
  lemma {:induction false} RetryIsKept(db: Db, e: RelayEntry, s: Summary, retry: Retry, again: RelayEntry, s2: Summary)
    requires Prepares(db, e) && e.preparation in {FailsUnsaved(Error(Some(retry))), FailsSaved(Error(Some(retry)))}
    requires PositionByKey(db.positions, e.key).Some? && again.key == e.key && again.now < retry.at
    ensures var end := EntryOutcome(db, e, s);
            && end.summary == Some(s.(deferred := s.deferred + 1))
            && end.db.steps == db.steps && |end.db.positions| == |db.positions|
            && end.db.positions[NamedRow(db, e)] == db.positions[NamedRow(db, e)].(reason := Some(retry.reason))
            && EntryOutcome(end.db, again, s2).sends == []
  {
    var p := NamedRow(db, e);
    assert !HasAssetIntent(db.steps, p) && !HasBroadcast(db.steps, p);
    var end := EntryOutcome(db, e, s);
    SameKeys(db.positions, end.db.positions, e.key);
    assert ToldToWait(end.db, p, again.now);
    EntrySendsIff(end.db, again, s2);
  }

  lemma {:induction false} SameKeys(a: seq<Position>, b: seq<Position>, key: string)
    requires |a| == |b| && forall i | 0 <= i < |a| :: a[i].key == b[i].key
    ensures PositionByKey(a, key) == PositionByKey(b, key)
  {
  }

  // ---------------------------------------------------------------- an entry that was sent before

  const REVIEWABLE: set<PositionState> :=
    {Planned, SwapSubmitted, Converted, BridgeSubmitted, DirectDepositSubmitted, DepositPending, GasDeferred}

  /** The entry's deposit was sent before, for the same recipient, and its position is open. */
  ghost predicate SentBefore(db: Db, e: RelayEntry, id: nat) {
    var p := NamedRow(db, e);
    && e.knownWallet && e.key != "" && e.wallet != "" && Watched(db, p, id)
    && db.positions[p].state !in {Completed, ManualReview}
    && (p, "relay_execution") in db.checkpoints && e.sameRecipient
  }

  /** The watched position: a planned one counts as submitted. */
  function Noticed(was: PositionState): PositionState {
    if was == Planned then BridgeSubmitted else was
  }

  lemma {:induction false} WatchRows(db: Db, p: nat, id: nat, sight: Sight)
    requires Watched(db, p, id)
    ensures var (after, verdict) := Watch(db, p, sight);
            var step, was := db.steps[id].state, Noticed(db.positions[p].state);
            && after.steps == db.steps[id := db.steps[id].(state := StepAfter(step, sight))]
            && after.positions == db.positions[p := db.positions[p].(state := PositionAfter(was, step, sight))]
            && verdict == VerdictOf(step, was, sight)
  {
    var db1 := db.(positions := db.positions[p := db.positions[p].(state := Noticed(db.positions[p].state))]);
    assert db.positions[p := db.positions[p].(state := db.positions[p].state)] == db.positions;
    ObservedRows(db1, p, id, sight);
  }

  /** How an entry for a deposit that was sent before ends, given the states it found and the row and the counts it leaves: an
      answer to wait for and a deadline leave the position open and counted as pending, a loss puts it before a person, a credit
      completes it, and any other error leaves it open. */
  ghost predicate SentEnds(step: StepState, was: PositionState, sight: Sight, row: Position, s: Summary, counts: Option<Summary>) {
    if Waits(sight) then row.state !in {Completed, ManualReview} && counts == Some(s.(pending := s.pending + 1))
    else if Lost(sight).Some? then
      PositionAfter(was, step, sight) in REVIEWABLE ==>
        row.state == ManualReview && row.reason == Lost(sight) && counts == Some(s.(failed := s.failed + 1))
    else if Creditable(step, was, sight) then row.state == Completed && counts == Some(s.(completed := s.completed + 1))
    else
      && row.state !in {Completed, ManualReview}
      && counts == Some(if Trouble(sight) == Deadline then s.(pending := s.pending + 1) else s.(failed := s.failed + 1))
  }

  lemma {:induction false} OpenStays(step: StepState, was: PositionState, sight: Sight)
    requires was !in {Completed, ManualReview} && !Creditable(step, was, sight)
    ensures PositionAfter(was, step, sight) !in {Completed, ManualReview}
  {
  }

  lemma {:induction false} LossConcludes(after: Db, p: nat, was: PositionState, why: string, s: Summary)
    requires p < |after.positions| && after.positions[p].state in REVIEWABLE
    ensures var (db, counts) := Conclude(after, p, was, Terminal(why), s);
            && |db.positions| == |after.positions| && db.positions[p].state == ManualReview && db.positions[p].reason == Some(why)
            && counts == Some(s.(failed := s.failed + 1))
  {
  }

  lemma {:induction false} SentEntryConcludes(after: Db, p: nat, id: nat, was: PositionState, step: StepState, sight: Sight, s: Summary)
    requires p < |after.positions| && id < |after.steps| && AssetStep(after.steps[id], p) && after.steps[id].txHash.Some?
    requires was !in {Completed, ManualReview} && after.positions[p].state == PositionAfter(Noticed(was), step, sight)
    ensures var (db, counts) := Conclude(after, p, was, VerdictOf(step, Noticed(was), sight), s);
            |db.positions| == |after.positions| && SentEnds(step, Noticed(was), sight, db.positions[p], s, counts)
  {
    assert HasAssetIntent(after.steps, p) && HasBroadcast(after.steps, p);
    var verdict := VerdictOf(step, Noticed(was), sight);
    if verdict.Terminal? {
      if after.positions[p].state in REVIEWABLE { LossConcludes(after, p, was, verdict.why, s); }
    } else if verdict != Completes {
      OpenStays(step, Noticed(was), sight);
      assert Conclude(after, p, was, verdict, s).0.positions == after.positions;
    }
  }

  lemma {:induction false} DepositKeyIsAsset(s: Step)
    requires s.key == "relay_deposit"
    ensures AssetStep(s, s.position)
  {
    assert LowerChar("approval:"[0]) != LowerChar("relay_deposit"[0]);
  }

  /** A deposit sent before is never sent again, and its answer decides how the entry ends. */
  lemma {:induction false} SentEntryEnds(db: Db, e: RelayEntry, s: Summary, id: nat)
    requires SentBefore(db, e, id)
    ensures var p := NamedRow(db, e);
            var end := EntryOutcome(db, e, s);
            && end.sends == [] && |end.db.positions| == |db.positions|
            && SentEnds(db.steps[id].state, Noticed(db.positions[p].state), e.sight, end.db.positions[p], s, end.summary)
  {
    var p := NamedRow(db, e);
    DepositKeyIsAsset(db.steps[id]);
    assert HasAssetIntent(db.steps, p) && HasBroadcast(db.steps, p);
    WatchRows(db, p, id, e.sight);
    var (after, verdict) := Watch(db, p, e.sight);
    assert TryEntry(db, p, e) == EntryEnd(after, [], false, verdict);
    SentEntryConcludes(after, p, id, db.positions[p].state, db.steps[id].state, e.sight, s);
  }

  /** A broadcast that this executor did not make, or made for another recipient, is left alone: nothing is sent or observed, only a
      diagnostic is noted, and the entry counts as failed. */
  lemma {:induction false} ForeignBroadcastIsLeftAlone(db: Db, e: RelayEntry, s: Summary, id: nat)
    requires var p := NamedRow(db, e);
             && e.knownWallet && e.key != "" && e.wallet != "" && Watched(db, p, id)
             && db.positions[p].state !in {Completed, ManualReview}
             && ((p, "relay_execution") !in db.checkpoints || !e.sameRecipient)
    ensures EntryOutcome(db, e, s)
            == PassEnd(db.(checkpoints := db.checkpoints[(NamedRow(db, e), "relay_diagnostic") := Note]), [],
                       Some(s.(failed := s.failed + 1)))
  {
    var p := NamedRow(db, e);
    DepositKeyIsAsset(db.steps[id]);
    assert HasAssetIntent(db.steps, p) && HasBroadcast(db.steps, p);
  }

  // ---------------------------------------------------------------- what the counts of a pass mean

  /** Every entry is counted once here; a submission is counted besides. */
  function Handled(s: Summary): nat {
    s.skipped + s.failed + s.deferred + s.pending + s.completed
  }

  function CompletedCount(positions: seq<Position>): nat {
    if positions == [] then 0
    else
      var n := |positions| - 1;
      CompletedCount(positions[..n]) + if positions[n].state == Completed then 1 else 0
  }

  lemma {:induction false} CountAfterUpdate(a: seq<Position>, b: seq<Position>, p: nat)
    requires |a| == |b| && p < |a| && forall q | 0 <= q < |a| && q != p :: b[q].state == a[q].state
    ensures CompletedCount(b) == CompletedCount(a) + (if b[p].state == Completed then 1 else 0) - (if a[p].state == Completed then 1 else 0)
  {
    var n := |a| - 1;
    if p < n {
      CountAfterUpdate(a[..n], b[..n], p);
    } else {
      SameStatesSameCount(a[..n], b[..n]);
    }
  }

  lemma {:induction false} SameStatesSameCount(a: seq<Position>, b: seq<Position>)
    requires |a| == |b| && forall q | 0 <= q < |a| :: b[q].state == a[q].state
    ensures CompletedCount(b) == CompletedCount(a)
  {
    if a != [] {
      SameStatesSameCount(a[..|a| - 1], b[..|b| - 1]);
    }
  }

  /** Nothing but the one open position changes its state, and it is completed exactly when the entry says so. */
  ghost predicate OnePosition(a: Db, b: Db, p: nat, completes: bool) {
    && p < |a.positions| == |b.positions|
    && (forall q | 0 <= q < |a.positions| && q != p :: b.positions[q].state == a.positions[q].state)
    && (b.positions[p].state == Completed <==> completes)
  }

  lemma {:induction false} UnwatchedStays(db: Db, p: nat, sight: Sight)
    requires p < |db.positions|
    requires var step := LatestStep(db.steps, p, StepKey(Relay)); step.None? || db.steps[step.value].txHash.GetOr("") == ""
    ensures Watch(db, p, sight).1 == Raised(Error(None))
    ensures Watch(db, p, sight).0.positions == db.positions[p := db.positions[p].(state := Noticed(db.positions[p].state))]
  {
  }

  lemma {:induction false} WatchOnePosition(db: Db, p: nat, sight: Sight)
    requires p < |db.positions| && db.positions[p].state != Completed
    ensures OnePosition(db, Watch(db, p, sight).0, p, Watch(db, p, sight).1 == Completes)
  {
    var step := LatestStep(db.steps, p, StepKey(Relay));
    if step.Some? && db.steps[step.value].txHash.GetOr("") != "" {
      assert Watched(db, p, step.value);
      WatchRows(db, p, step.value, sight);
      var after := Watch(db, p, sight).0;
      assert after.positions[p].state == PositionAfter(Noticed(db.positions[p].state), db.steps[step.value].state, sight);
    } else {
      UnwatchedStays(db, p, sight);
    }
  }

  lemma {:induction false} BroadcastKeepsPositions(db: Db, p: nat, key: string, tx: Signed)
    ensures BroadcastOutcome(db, p, key, tx).0.positions == db.positions
  {
  }

  lemma {:induction false} DepositOnePosition(db: Db, p: nat, tx: Signed, e: RelayEntry)
    requires p < |db.positions| && db.positions[p].state != Completed
    ensures OnePosition(db, Deposit(db, p, tx, e).db, p, Deposit(db, p, tx, e).verdict == Completes)
  {
    var saved := SaveCheckpoint(db, p, "relay_execution", Note);
    BroadcastKeepsPositions(saved, p, StepKey(Relay), tx);
    var after := BroadcastOutcome(saved, p, StepKey(Relay), tx).0;
    WatchOnePosition(after, p, e.sight);
    var end := Deposit(db, p, tx, e);
    assert (end.db == after && end.verdict.Raised?) || (end.db, end.verdict) == Watch(after, p, e.sight);
  }

  lemma {:induction false} TryOnePosition(db: Db, p: nat, e: RelayEntry)
    requires p < |db.positions| && db.positions[p].state != Completed
    ensures OnePosition(db, TryEntry(db, p, e).db, p, TryEntry(db, p, e).verdict == Completes)
  {
    if HasBroadcast(db.steps, p) {
      WatchOnePosition(db, p, e.sight);
    } else if e.preparation.Signs? {
      DepositOnePosition(db, p, e.preparation.tx, e);
    }
  }

  lemma {:induction false} ConcludeCounts(db: Db, p: nat, was: PositionState, verdict: Verdict, s: Summary)
    requires p < |db.positions| && was != Completed && (db.positions[p].state == Completed <==> verdict == Completes)
    ensures var (after, counts) := Conclude(db, p, was, verdict, s);
            && OnePosition(db, after, p, verdict == Completes)
            && (counts.Some? ==> Handled(counts.value) == Handled(s) + 1 && counts.value.submitted == s.submitted
                                 && counts.value.completed == s.completed + if verdict == Completes then 1 else 0)
  {
  }

  /** One entry: counted once, a submission for each accepted or unanswered send, a completion for each completed position. */
  lemma {:induction false} EntryCounts(db: Db, e: RelayEntry, s: Summary)
    ensures var end := EntryOutcome(db, e, s);
            end.summary.Some? ==>
              && Handled(end.summary.value) == Handled(s) + 1
              && end.summary.value.submitted == s.submitted + (if end.sends != [] && e.answer in {HashReturned, NoAnswer} then 1 else 0)
              && end.summary.value.completed - s.completed == CompletedCount(end.db.positions) - CompletedCount(db.positions)
  {
    var made := GetOrCreatePosition(db, e.key, e.wallet, None, None, None);
    if e.knownWallet && made.Some? {
      var p := NamedRow(db, e);
      assert p == |db.positions| ==> made.value.positions[..p] == db.positions;
      assert CompletedCount(made.value.positions) == CompletedCount(db.positions);
      var was := made.value.positions[p].state;
      if was !in {Completed, ManualReview} {
        TrySends(made.value, p, e);
        TryOnePosition(made.value, p, e);
        var end := TryEntry(made.value, p, e);
        ConcludeCounts(end.db, p, was, end.verdict, Counted(s, end.submitted));
        CountAfterUpdate(made.value.positions, EntryOutcome(db, e, s).db.positions, p);
      }
    }
  }

  /** The counts of a pass that runs to its end: every entry is counted once, there are no more submissions than sends, and
      `completed` is the number of positions that the pass completed. */
  lemma {:induction false} PassCounts(pass: PassEnd, entries: seq<RelayEntry>)
    requires pass.summary.Some? && PassOutcome(pass, entries).summary.Some?
    ensures var a, b := pass.summary.value, PassOutcome(pass, entries).summary.value;
            && Handled(b) == Handled(a) + |entries|
            && b.submitted - a.submitted <= |PassOutcome(pass, entries).sends| - |pass.sends|
            && b.completed - a.completed == CompletedCount(PassOutcome(pass, entries).db.positions) - CompletedCount(pass.db.positions)
    decreases |entries|
  {
    if entries != [] {
      var next := Extended(pass, entries[0]);
      EntryCounts(pass.db, entries[0], pass.summary.value);
      if next.summary.None? {
        EndedStays(next, entries[1..]);
      } else {
        PassCounts(next, entries[1..]);
      }
    }
  }
}
