/** How a reviewed withdrawal ends, for every answer and whatever was recorded before. */
module Withdrawals {
  import opened Prelude
  import opened JournalTables
  import opened JournalRuns
  import opened Broadcasts
  import opened Executors
  import opened Reactivations

  function NamedRow(db: Db, wallet: string, actionId: string): nat {
    PositionByKey(db.positions, DefiKey(wallet, actionId)).GetOr(|db.positions|)
  }

  /** No withdrawal step was ever recorded for the position. */
  ghost predicate NeverTried(db: Db, p: nat) {
    forall i | 0 <= i < |db.steps| :: db.steps[i].position != p || db.steps[i].key != "defi_withdraw"
  }

  ghost predicate SavedHash(db: Db, p: nat, id: nat) {
    NewestStep(db.steps, p, "defi_withdraw", id) && db.steps[id].txHash.Some? && db.steps[id].txHash.value != ""
  }

  predicate Sendable(a: DefiAnswers) {
    a.prepared.Some? && a.prepared.value.calldata != "" && a.prepared.value.payload != ""
  }

  lemma {:induction false} TriedOrNever(db: Db, p: nat)
    ensures LatestStep(db.steps, p, StepKey(DeFi)).None? <==> NeverTried(db, p)
    ensures forall id: nat :: LatestStep(db.steps, p, StepKey(DeFi)) == Some(id) <==> NewestStep(db.steps, p, "defi_withdraw", id)
  {
    forall id: nat ensures LatestStep(db.steps, p, StepKey(DeFi)) == Some(id) <==> NewestStep(db.steps, p, "defi_withdraw", id) {
      LatestIsNewest(db.steps, p, "defi_withdraw", id);
    }
  }

  lemma {:induction false} MadeKeepsSteps(db: Db, wallet: string, actionId: string)
    ensures var made := GetOrCreatePosition(db, DefiKey(wallet, actionId), Lower(wallet), None, None, None);
            (made.Some? <==> wallet != "") && (made.Some? ==> made.value.steps == db.steps)
  {
  }

  /** A withdrawal without any earlier step: it is sent, exactly once, when it could be prepared; its one new step is confirmed
      exactly when the network accepted that hash and mined it; otherwise the step stays submitted for the next call. */
  lemma {:induction false} FirstWithdrawal(db: Db, wallet: string, actionId: string, a: DefiAnswers)
    requires wallet != "" && NeverTried(db, NamedRow(db, wallet, actionId))
    ensures var p := NamedRow(db, wallet, actionId);
            var end := DefiOutcome(db, wallet, actionId, a);
            && (end.result == Withdrawn <==> Sendable(a) && a.answer == HashReturned && a.mined)
            && (end.result == NotPrepared <==> a.prepared.None?)
            && (end.result == AmbiguousBroadcast <==> Sendable(a) && a.answer == NoAnswer)
            && (end.result == NoReceipt <==> Sendable(a) && a.answer == HashReturned && !a.mined)
            && end.sends == (if Sendable(a) then [Sent(p, "defi_withdraw", a.prepared.value.hash)] else [])
            && end.db.steps == (if Sendable(a) then
                                  db.steps + [FirstStep(p, "defi_withdraw", a.prepared.value,
                                                        if end.result == Withdrawn then SConfirmed else SSubmitted)]
                                else db.steps)
  {
    var p := NamedRow(db, wallet, actionId);
    var made := GetOrCreatePosition(db, DefiKey(wallet, actionId), Lower(wallet), None, None, None);
    MadeKeepsSteps(db, wallet, actionId);
    TriedOrNever(db, p);
    if a.prepared.Some? {
      FirstSubmission(made.value, p, a.prepared.value, a);
    }
  }

  lemma {:induction false} FirstSubmission(db: Db, p: nat, tx: Signed, a: DefiAnswers)
    requires LatestStep(db.steps, p, StepKey(DeFi)).None?
    ensures var end := SubmitDefi(db, p, tx, a);
            var sendable := tx.calldata != "" && tx.payload != "";
            && end.sends == (if sendable then [Sent(p, "defi_withdraw", tx.hash)] else [])
            && end.result == (if !sendable then Failed(Conflict)
                              else match a.answer
                                   case HashReturned => if a.mined then Withdrawn else NoReceipt
                                   case NoAnswer => AmbiguousBroadcast
                                   case OtherHashReturned => Failed(HashMismatch)
                                   case DeadlinePassed => Failed(Interrupted))
            && end.db.steps == (if sendable then
                                  db.steps + [FirstStep(p, "defi_withdraw", tx, if end.result == Withdrawn then SConfirmed else SSubmitted)]
                                else db.steps)
  {
    if tx.calldata != "" && tx.payload != "" {
      FirstBroadcastSends(db, p, StepKey(DeFi), tx);
      var steps := db.steps + [FirstStep(p, StepKey(DeFi), tx, SSubmitted)];
      assert BroadcastOutcome(db, p, StepKey(DeFi), tx).0.steps == steps;
      if a.answer.HashReturned? {
        FirstBroadcastAccepted(db, p, StepKey(DeFi), tx, a.observed);
        if a.mined {
          FreshWithdrawalIsRecorded(db, p, tx, a);
        } else {
          assert steps[..|db.steps|] == db.steps;
        }
      }
    }
  }

  /** A withdrawal whose hash was saved before, by a call that never returned perhaps: it is never sent again, and its own step is
      confirmed exactly when the network knows the hash and has mined it. */
  lemma {:induction false} SavedWithdrawal(db: Db, wallet: string, actionId: string, a: DefiAnswers, id: nat)
    requires wallet != "" && SavedHash(db, NamedRow(db, wallet, actionId), id)
    ensures var end := DefiOutcome(db, wallet, actionId, a);
            && end.sends == []
            && (end.result == Withdrawn <==> a.observed && a.mined && db.steps[id].state in {SSubmitted, SConfirmed})
            && (end.result == AmbiguousBroadcast <==> !a.observed)
            && (end.result == NoReceipt <==> a.observed && !a.mined)
            && end.db.steps == (if end.result == Withdrawn then db.steps[id := db.steps[id].(state := SConfirmed)] else db.steps)
  {
    MadeKeepsSteps(db, wallet, actionId);
    TriedOrNever(db, NamedRow(db, wallet, actionId));
  }

  /** A step without a hash stops the withdrawal: nothing is sent, and no table row of a step changes. */
  lemma {:induction false} BareIntentStops(db: Db, wallet: string, actionId: string, a: DefiAnswers, id: nat)
    requires wallet != "" && NewestStep(db.steps, NamedRow(db, wallet, actionId), "defi_withdraw", id)
    requires db.steps[id].txHash.None? || db.steps[id].txHash.value == ""
    ensures var end := DefiOutcome(db, wallet, actionId, a);
            end.sends == [] && end.result == Unresolved && end.db.steps == db.steps
  {
    MadeKeepsSteps(db, wallet, actionId);
    TriedOrNever(db, NamedRow(db, wallet, actionId));
  }

  /** So nothing that was not mined counts as withdrawn or confirms a step. */
  lemma {:induction false} UnminedIsNeverWithdrawn(db: Db, wallet: string, actionId: string, a: DefiAnswers, i: nat)
    requires !a.mined
    ensures var end := DefiOutcome(db, wallet, actionId, a);
            && end.result != Withdrawn
            && (i < |end.db.steps| && end.db.steps[i].state == SConfirmed ==> i < |db.steps| && db.steps[i].state == SConfirmed)
  {
    MadeKeepsSteps(db, wallet, actionId);
    var p := NamedRow(db, wallet, actionId);
    TriedOrNever(db, p);
    if wallet != "" && NeverTried(db, p) {
      FirstWithdrawal(db, wallet, actionId, a);
    }
  }

  // ---------------------------------------------------------------- one broadcast

  /** A transaction whose nonce has no row is sent, as one new submitted step, whatever was done under other nonces. */
  lemma {:induction false} NewNonceSends(db: Db, p: nat, key: string, tx: Signed, observed: bool, answer: Answer)
    requires key != "" && tx.calldata != "" && tx.payload != ""
    requires forall i | 0 <= i < |db.steps| :: db.steps[i].position != p || db.steps[i].key != key || db.steps[i].nonce != tx.nonce
    ensures BroadcastOutcome(db, p, key, tx) == (db.(steps := db.steps + [FirstStep(p, key, tx, SSubmitted)]), true)
    ensures BroadcastReply(db, p, key, tx, observed, answer)
            == match answer
               case HashReturned => Accepted
               case OtherHashReturned => HashMismatch
               case NoAnswer => Ambiguous
               case DeadlinePassed => Interrupted
  {
    assert StepRow(db.steps, p, key, tx.nonce).None?;
    assert ExistingHash(db, p, key, tx.nonce).None?;
    assert BroadcastOutcome(db, p, key, tx).0.steps == db.steps + [FirstStep(p, key, tx, SSubmitted)];
  }

  /** The same transaction again, its hash saved in the newest row: nothing is sent or changed, and the caller learns whether the
      network knows the hash. */
  lemma {:induction false} SavedNonceIsObserved(db: Db, p: nat, key: string, tx: Signed, observed: bool, answer: Answer, id: nat)
    requires key != "" && tx.calldata != "" && tx.payload != "" && tx.hash != ""
    requires NewestStep(db.steps, p, key, id) && db.steps[id].nonce == tx.nonce && db.steps[id].txHash == Some(tx.hash)
    requires db.steps[id].calldata == tx.calldata && db.steps[id].payload == tx.payload
    requires forall i | 0 <= i < |db.steps| && db.steps[i].position == p && db.steps[i].key == key && db.steps[i].nonce == tx.nonce :: i == id
    ensures BroadcastOutcome(db, p, key, tx) == (db, false)
    ensures BroadcastReply(db, p, key, tx, observed, answer) == if observed then Seen else NotSeen
  {
    LatestIsNewest(db.steps, p, key, id);
  }

  /** Another transaction under the nonce of a saved one is refused. */
  lemma {:induction false} OtherHashIsRefused(db: Db, p: nat, key: string, tx: Signed, observed: bool, answer: Answer, id: nat)
    requires id < |db.steps| && db.steps[id].position == p && db.steps[id].key == key && db.steps[id].nonce == tx.nonce
    requires db.steps[id].txHash.Some? && db.steps[id].txHash != Some(tx.hash)
    requires forall i | 0 <= i < |db.steps| && db.steps[i].position == p && db.steps[i].key == key && db.steps[i].nonce == tx.nonce :: i == id
    ensures BroadcastOutcome(db, p, key, tx) == (db, false) && BroadcastReply(db, p, key, tx, observed, answer) == Conflict
  {
    assert StepRow(db.steps, p, key, tx.nonce) == Some(id);
  }

  // ---------------------------------------------------------------- the guards

  /** The guards let an idle process through to a position that was never tried, and an open one of Relay without any step. */
  lemma {:induction false} GuardsLetThrough(w: World, e: Executor, p: nat)
    requires ProcessOf(w, e) == Idle
    requires match e
             case DeFi => NeverTried(w.db, p)
             case Relay => p < |w.db.positions| && w.db.positions[p].state !in {Completed, ManualReview}
                           && forall i | 0 <= i < |w.db.steps| :: w.db.steps[i].position != p
    ensures Runs(w, [FirstGuard(e, p)] + [SecondGuard(e)]) == Goto(w, e, Ready(p))
  {
    TriedOrNever(w.db, p);
    var run := [FirstGuard(e, p)] + [SecondGuard(e)];
    assert run[..1] == [FirstGuard(e, p)] && [FirstGuard(e, p)][..0] == [];
    var checked := Act(w, FirstGuard(e, p));
    assert Runs(w, [FirstGuard(e, p)]) == checked;
    assert checked == Goto(w, e, Checked(p));
  }

  /** And they stop one of Relay that is finished, under review, broadcast, or intended without a hash. */
  lemma {:induction false} GuardsStop(w: World, p: nat)
    requires w.relay == Idle
    requires || (p < |w.db.positions| && w.db.positions[p].state in {Completed, ManualReview})
             || (!OnlyApprovals(w.db.steps, p))
             || (exists i :: 0 <= i < |w.db.steps| && w.db.steps[i].position == p && w.db.steps[i].txHash.Some?)
    ensures !Runs(w, [FirstGuard(Relay, p)] + [SecondGuard(Relay)]).relay.Ready?
  {
    var run := [FirstGuard(Relay, p)] + [SecondGuard(Relay)];
    assert run[..1] == [FirstGuard(Relay, p)] && [FirstGuard(Relay, p)][..0] == [];
    assert Runs(w, [FirstGuard(Relay, p)]) == Act(w, FirstGuard(Relay, p));
    if !OnlyApprovals(w.db.steps, p) {
      var i :| 0 <= i < |w.db.steps| && w.db.steps[i].position == p && !LikePrefix("approval:", w.db.steps[i].key);
      assert AssetStep(w.db.steps[i], p);
    }
  }
}
