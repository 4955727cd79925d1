/** The Relay executor: one pass over its entries.  What wallets, providers, signer and network answer is part of each entry. */
module RelayExecutors {
  import opened Prelude
  import opened JournalTables
  import opened JournalRuns
  import opened Broadcasts
  import opened Journals
  import opened Executors

  datatype Retry = Retry(reason: string, at: real)

  /** An exception: the stage deadline, or an error, with its retry when it has one. */
  datatype Failure = Deadline | Error(retry: Option<Retry>)

  // ---------------------------------------------------------------- observing a sent deposit

  datatype Credit = CreditFails(failure: Failure) | Rejected(why: string) | CreditPending | Credited(receipt: Payload)
  datatype Arrival = ArrivalFails(failure: Failure) | NotArrived | Arrived(credit: Credit)
  datatype Status =
    StatusFails(failure: Failure) | Refunded(why: string) | Waiting | UnknownStatus | OtherTransfer | Success(arrival: Arrival)
  datatype Sight =
    SightFails(failure: Failure) | NoReceiptYet | OtherReceipt | Reverted | Unconfirmed | Confirmed(status: Status)

  datatype Verdict = Pending | Completes | Terminal(why: string) | Raised(failure: Failure) | Skipped

  /** Moves a submitted step on; other steps stay. */
  function Settle(db: Db, id: nat, state: StepState): Db {
    if id < |db.steps| && db.steps[id].state == SSubmitted then TransitionStep(db, id, state).GetOr(db) else db
  }

  /** A transfer that has arrived makes a submitted position pending. */
  function Arrive(db: Db, p: nat): Db {
    var noted := SaveCheckpoint(db, p, "relay_destination", Note);
    if p < |db.positions| && db.positions[p].state == BridgeSubmitted
    then RecordPositionState(noted, p, DepositPending, None, None, None).GetOr(noted) else noted
  }

  function RecordCredit(db: Db, p: nat, id: nat, receipt: Payload): (Db, Verdict) {
    var db1 := SaveCheckpoint(SaveCheckpoint(db, p, "relay_bitget_credit", Note), p, "bitget_credit", receipt);
    var db2 := TransitionStep(db1, id, SCredited);
    if db2.None? then (db1, Raised(Error(None)))
    else
      var db3 := RecordPositionState(db2.value, p, Completed, None, None, None);
      if db3.None? then (db2.value, Raised(Error(None))) else (db3.value, Completes)
  }

  function ObserveCredit(db: Db, p: nat, id: nat, credit: Credit): (Db, Verdict) {
    var db2 := Arrive(db, p);
    match credit
    case CreditFails(failure) => (db2, Raised(failure))
    case Rejected(why) => (SaveCheckpoint(db2, p, "relay_bitget_credit", Note), Terminal(why))
    case CreditPending => (SaveCheckpoint(db2, p, "relay_bitget_credit", Note), Pending)
    case Credited(receipt) => RecordCredit(db2, p, id, receipt)
  }

  function ObserveStatus(db: Db, p: nat, id: nat, status: Status): (Db, Verdict) {
    if status.StatusFails? then (db, Raised(status.failure))
    else
      var db1 := SaveCheckpoint(db, p, "relay_status", Note);
      match status
      case Refunded(why) => (db1, Terminal(why))
      case Waiting => (db1, Pending)
      case Success(ArrivalFails(failure)) => (db1, Raised(failure))
      case Success(NotArrived) => (db1, Pending)
      case Success(Arrived(credit)) => ObserveCredit(db1, p, id, credit)
      case _ => (db1, Raised(Error(None)))
  }

  /** What the observation of the newest deposit step records, and how it ends. */
  function ObserveOutcome(db: Db, p: nat, sight: Sight): (Db, Verdict) {
    var step := LatestStep(db.steps, p, StepKey(Relay));
    if step.None? || db.steps[step.value].txHash.GetOr("") == "" then (db, Raised(Error(None)))
    else match sight
      case SightFails(failure) => (db, Raised(failure))
      case NoReceiptYet => (db, Pending)
      case OtherReceipt => (db, Raised(Error(None)))
      case Reverted => (Settle(db, step.value, SReverted), Terminal("Relay source deposit reverted"))
      case Unconfirmed => (db, Pending)
      case Confirmed(status) => ObserveStatus(Settle(db, step.value, SConfirmed), p, step.value, status)
  }

  method ObserveDestination(journal: Journal, p: nat, id: nat, credit: Credit) returns (verdict: Verdict)
    modifies journal`positions, journal`steps, journal`checkpoints
    ensures (journal.Tables(), verdict) == ObserveCredit(old(journal.Tables()), p, id, credit)
  {
    journal.WriteCheckpoint(p, "relay_destination", Note);
    if p < |journal.positions| && journal.positions[p].state == BridgeSubmitted {
      var _ := journal.SetPositionState(p, DepositPending, None, None, None);
    }
    if credit.CreditFails? { return Raised(credit.failure); }
    journal.WriteCheckpoint(p, "relay_bitget_credit", Note);
    if credit.Rejected? { return Terminal(credit.why); }
    if credit.CreditPending? { return Pending; }
    journal.WriteCheckpoint(p, "bitget_credit", credit.receipt);
    var ok := journal.SetStepState(id, SCredited);
    if !ok { return Raised(Error(None)); }
    ok := journal.SetPositionState(p, Completed, None, None, None);
    verdict := if ok then Completes else Raised(Error(None));
  }

  method Observe(journal: Journal, p: nat, sight: Sight) returns (verdict: Verdict)
    modifies journal`positions, journal`steps, journal`checkpoints
    ensures (journal.Tables(), verdict) == ObserveOutcome(old(journal.Tables()), p, sight)
  {
    var step := LatestStep(journal.steps, p, StepKey(Relay));
    if step.None? || journal.steps[step.value].txHash.GetOr("") == "" { return Raised(Error(None)); }
    if sight.SightFails? { return Raised(sight.failure); }
    if sight.NoReceiptYet? || sight.Unconfirmed? { return Pending; }
    if sight.OtherReceipt? { return Raised(Error(None)); }
    if journal.steps[step.value].state == SSubmitted {
      var _ := journal.SetStepState(step.value, if sight.Reverted? then SReverted else SConfirmed);
    }
    if sight.Reverted? { return Terminal("Relay source deposit reverted"); }
    if sight.status.StatusFails? { return Raised(sight.status.failure); }
    journal.WriteCheckpoint(p, "relay_status", Note);
    match sight.status {
      case Refunded(why) => verdict := Terminal(why);
      case Waiting => verdict := Pending;
      case Success(ArrivalFails(failure)) => verdict := Raised(failure);
      case Success(NotArrived) => verdict := Pending;
      case Success(Arrived(credit)) => verdict := ObserveDestination(journal, p, step.value, credit);
      case _ => verdict := Raised(Error(None));
    }
  }

  // ---------------------------------------------------------------- one entry

  /** Preparing fails before or after the prepared route is saved, or gives a signed transaction. */
  datatype Preparation = FailsUnsaved(failure: Failure) | FailsSaved(failure: Failure) | Signs(tx: Signed)

  datatype RelayEntry = RelayEntry(key: string, wallet: string, knownWallet: bool, now: real, ready: bool, sameRecipient: bool,
                                   preparation: Preparation, observed: bool, answer: Answer, sight: Sight)

  /** What one entry leads to; `submitted` counts a broadcast that did not raise. */
  datatype EntryEnd = EntryEnd(db: Db, sends: seq<Sent>, submitted: bool, verdict: Verdict)

  /** An intent without a hash stops the entry; a saved retry time delays one without an intent. */
  function Blocked(db: Db, p: nat, now: real): Option<Failure> {
    if HasAssetIntent(db.steps, p) then (if HasBroadcast(db.steps, p) then None else Some(Error(None)))
    else if (p, "relay_retry") in db.checkpoints && db.checkpoints[(p, "relay_retry")].RetryAt?
            && db.checkpoints[(p, "relay_retry")].at.Some? && now < db.checkpoints[(p, "relay_retry")].at.value
    then Some(Deadline)
    else None
  }

  /** A planned position becomes submitted, then the deposit is observed. */
  function Watch(db: Db, p: nat, sight: Sight): (Db, Verdict) {
    var db1 := if p < |db.positions| && db.positions[p].state == Planned
               then RecordPositionState(db, p, BridgeSubmitted, None, None, None).GetOr(db) else db;
    ObserveOutcome(db1, p, sight)
  }

  function Deposit(db: Db, p: nat, tx: Signed, e: RelayEntry): EntryEnd {
    var saved := SaveCheckpoint(db, p, "relay_execution", Note);
    var outcome := BroadcastOutcome(saved, p, StepKey(Relay), tx);
    var sends := Sends(outcome, p, StepKey(Relay), tx);
    match BroadcastReply(saved, p, StepKey(Relay), tx, e.observed, e.answer)
    case Conflict => EntryEnd(outcome.0, sends, false, Raised(Error(None)))
    case HashMismatch => EntryEnd(outcome.0, sends, false, Raised(Error(None)))
    case Interrupted => EntryEnd(outcome.0, sends, false, Raised(Deadline))
    case _ =>
      var (after, verdict) := Watch(outcome.0, p, e.sight);
      EntryEnd(after, sends, true, verdict)
  }

  /** A position with a broadcast is only observed; one without is prepared and sent. */
  function TryEntry(db: Db, p: nat, e: RelayEntry): EntryEnd {
    var blocked := Blocked(db, p, e.now);
    if blocked.Some? then EntryEnd(db, [], false, Raised(blocked.value))
    else if HasBroadcast(db.steps, p) then
      if (p, "relay_execution") !in db.checkpoints || !e.sameRecipient then EntryEnd(db, [], false, Raised(Error(None)))
      else
        var (after, verdict) := Watch(db, p, e.sight);
        EntryEnd(after, [], false, verdict)
    else if !e.ready then EntryEnd(db, [], false, Skipped)
    else match e.preparation
      case FailsUnsaved(failure) => EntryEnd(db, [], false, Raised(failure))
      case FailsSaved(failure) => EntryEnd(SaveCheckpoint(db, p, "relay_execution", Note), [], false, Raised(failure))
      case Signs(tx) => Deposit(db, p, tx, e)
  }

  datatype Summary = Summary(submitted: nat, skipped: nat, failed: nat, deferred: nat, pending: nat, completed: nat)

  /** The exception handlers, and the count; `None` when a handler raises itself and ends the pass. */
  function Conclude(db: Db, p: nat, was: PositionState, verdict: Verdict, s: Summary): (Db, Option<Summary>) {
    match verdict
    case Pending => (db, Some(s.(pending := s.pending + 1)))
    case Completes => (db, Some(s.(completed := s.completed + 1)))
    case Skipped => (db, Some(s.(skipped := s.skipped + 1)))
    case Terminal(why) =>
      var noted := SaveCheckpoint(db, p, "relay_diagnostic", Note);
      var after := RecordPositionState(noted, p, ManualReview, None, None, Some(why));
      if after.None? then (noted, None) else (after.value, Some(s.(failed := s.failed + 1)))
    case Raised(Deadline) =>
      (SaveCheckpoint(db, p, "relay_diagnostic", Note),
       Some(if HasBroadcast(db.steps, p) then s.(pending := s.pending + 1) else s.(deferred := s.deferred + 1)))
    case Raised(Error(retry)) =>
      if retry.Some? && !HasAssetIntent(db.steps, p) then
        var noted := SaveCheckpoint(db, p, "relay_retry", RetryAt(Some(retry.value.at)));
        var after := RecordPositionState(noted, p, was, None, None, Some(retry.value.reason));
        if after.None? then (noted, None) else (after.value, Some(s.(deferred := s.deferred + 1)))
      else (SaveCheckpoint(db, p, "relay_diagnostic", Note), Some(s.(failed := s.failed + 1)))
  }

  /** The tables, the sends and the counts after an entry; `summary` is `None` when the pass ended with an exception. */
  datatype PassEnd = PassEnd(db: Db, sends: seq<Sent>, summary: Option<Summary>)

  function Counted(s: Summary, submitted: bool): Summary {
    if submitted then s.(submitted := s.submitted + 1) else s
  }

  function EntryOutcome(db: Db, e: RelayEntry, s: Summary): PassEnd {
    if !e.knownWallet then PassEnd(db, [], Some(s.(skipped := s.skipped + 1)))
    else
      var made := GetOrCreatePosition(db, e.key, e.wallet, None, None, None);
      if made.None? then PassEnd(db, [], None)
      else
        var p := PositionByKey(db.positions, e.key).GetOr(|db.positions|);
        var was := made.value.positions[p].state;
        if was in {Completed, ManualReview} then PassEnd(made.value, [], Some(s.(skipped := s.skipped + 1)))
        else
          var end := TryEntry(made.value, p, e);
          var (after, counts) := Conclude(end.db, p, was, end.verdict, Counted(s, end.submitted));
          PassEnd(after, end.sends, counts)
  }

  /** One more entry; nothing more happens once the pass has ended. */
  function Extended(pass: PassEnd, e: RelayEntry): PassEnd {
    if pass.summary.None? then pass
    else
      var end := EntryOutcome(pass.db, e, pass.summary.value);
      PassEnd(end.db, pass.sends + end.sends, end.summary)
  }

  function PassOutcome(pass: PassEnd, entries: seq<RelayEntry>): PassEnd
    decreases |entries|
  {
    if entries == [] then pass else PassOutcome(Extended(pass, entries[0]), entries[1..])
  }

  function NewPass(db: Db): PassEnd {
    PassEnd(db, [], Some(Summary(0, 0, 0, 0, 0, 0)))
  }

  // ---------------------------------------------------------------- the methods

  method WatchDeposit(journal: Journal, p: nat, sight: Sight) returns (verdict: Verdict)
    modifies journal`positions, journal`steps, journal`checkpoints
    ensures (journal.Tables(), verdict) == Watch(old(journal.Tables()), p, sight)
  {
    if p < |journal.positions| && journal.positions[p].state == Planned {
      var _ := journal.SetPositionState(p, BridgeSubmitted, None, None, None);
    }
    verdict := Observe(journal, p, sight);
  }

  method MakeDeposit(journal: Journal, net: Network, p: nat, tx: Signed, e: RelayEntry) returns (submitted: bool,
        verdict: Verdict)
    modifies journal`positions, journal`steps, journal`checkpoints, net
    ensures var end := Deposit(old(journal.Tables()), p, tx, e);
            end == EntryEnd(journal.Tables(), end.sends, submitted, verdict) && net.sent == old(net.sent) + end.sends
  {
    journal.WriteCheckpoint(p, "relay_execution", Note);
    var reply := BroadcastDurable(journal, net, p, StepKey(Relay), tx, e.observed, e.answer);
    if reply.Conflict? || reply.HashMismatch? { return false, Raised(Error(None)); }
    if reply.Interrupted? { return false, Raised(Deadline); }
    verdict := WatchDeposit(journal, p, e.sight);
    submitted := true;
  }

  method AttemptEntry(journal: Journal, net: Network, p: nat, e: RelayEntry) returns (submitted: bool, verdict: Verdict)
    modifies journal`positions, journal`steps, journal`checkpoints, net
    ensures var end := TryEntry(old(journal.Tables()), p, e);
            end == EntryEnd(journal.Tables(), end.sends, submitted, verdict) && net.sent == old(net.sent) + end.sends
  {
    submitted := false;
    var blocked := Blocked(journal.Tables(), p, e.now);
    if blocked.Some? { return false, Raised(blocked.value); }
    if HasBroadcast(journal.steps, p) {
      if (p, "relay_execution") !in journal.checkpoints || !e.sameRecipient { return false, Raised(Error(None)); }
      verdict := WatchDeposit(journal, p, e.sight);
      return;
    }
    if !e.ready { return false, Skipped; }
    match e.preparation {
      case FailsUnsaved(failure) => verdict := Raised(failure);
      case FailsSaved(failure) =>
        journal.WriteCheckpoint(p, "relay_execution", Note);
        verdict := Raised(failure);
      case Signs(tx) => submitted, verdict := MakeDeposit(journal, net, p, tx, e);
    }
  }

  method ConcludeEntry(journal: Journal, p: nat, was: PositionState, verdict: Verdict,
        s: Summary) returns (counts: Option<Summary>)
    modifies journal`positions, journal`checkpoints
    ensures (journal.Tables(), counts) == Conclude(old(journal.Tables()), p, was, verdict, s)
  {
    match verdict {
      case Pending => counts := Some(s.(pending := s.pending + 1));
      case Completes => counts := Some(s.(completed := s.completed + 1));
      case Skipped => counts := Some(s.(skipped := s.skipped + 1));
      case Terminal(why) =>
        journal.WriteCheckpoint(p, "relay_diagnostic", Note);
        var ok := journal.SetPositionState(p, ManualReview, None, None, Some(why));
        counts := if ok then Some(s.(failed := s.failed + 1)) else None;
      case Raised(Deadline) =>
        journal.WriteCheckpoint(p, "relay_diagnostic", Note);
        counts := Some(if HasBroadcast(journal.steps, p) then s.(pending := s.pending + 1) else s.(deferred := s.deferred + 1));
      case Raised(Error(retry)) =>
        if retry.Some? && !HasAssetIntent(journal.steps, p) {
          journal.WriteCheckpoint(p, "relay_retry", RetryAt(Some(retry.value.at)));
          var ok := journal.SetPositionState(p, was, None, None, Some(retry.value.reason));
          counts := if ok then Some(s.(deferred := s.deferred + 1)) else None;
        } else {
          journal.WriteCheckpoint(p, "relay_diagnostic", Note);
          counts := Some(s.(failed := s.failed + 1));
        }
    }
  }

  method ExecuteRelayEntry(journal: Journal, net: Network, e: RelayEntry, s: Summary) returns (counts: Option<Summary>)
    modifies journal`positions, journal`steps, journal`checkpoints, net
    ensures var end := EntryOutcome(old(journal.Tables()), e, s);
            end == PassEnd(journal.Tables(), end.sends, counts) && net.sent == old(net.sent) + end.sends
  {
    if !e.knownWallet { return Some(s.(skipped := s.skipped + 1)); }
    var position := journal.Position(e.key, e.wallet, None, None, None);
    if position.None? { return None; }
    var p := position.value;
    var was := journal.positions[p].state;
    if was in {Completed, ManualReview} { return Some(s.(skipped := s.skipped + 1)); }
    var submitted, verdict := AttemptEntry(journal, net, p, e);
    counts := ConcludeEntry(journal, p, was, verdict, Counted(s, submitted));
  }

  /** The pass after one more entry. */
  ghost predicate Continues(before: PassEnd, e: RelayEntry, after: PassEnd) {
    after == Extended(before, e)
  }

  method NextEntry(journal: Journal, net: Network, e: RelayEntry, s: Summary, ghost pass: PassEnd)
    returns (counts: Option<Summary>, ghost next: PassEnd)
    requires pass == PassEnd(journal.Tables(), pass.sends, Some(s))
    modifies journal`positions, journal`steps, journal`checkpoints, net
    ensures Continues(pass, e, next) && next == PassEnd(journal.Tables(), next.sends, counts)
    ensures pass.sends <= next.sends && net.sent == old(net.sent) + next.sends[|pass.sends|..]
  {
    counts := ExecuteRelayEntry(journal, net, e, s);
    next := Extended(pass, e);
  }

  /** The passes after each of the first `n` entries, starting with none. */
  ghost predicate Traced(passes: seq<PassEnd>, entries: seq<RelayEntry>, n: nat) {
    && |passes| == n + 1 && n <= |entries|
    && forall i {:trigger Continues(passes[i], entries[i], passes[i + 1])} | 0 <= i < n :: Continues(passes[i], entries[i], passes[i + 1])
  }

  /** The pass over all entries. */
  method ExecuteRelayEntries(journal: Journal, net: Network,
        entries: seq<RelayEntry>) returns (summary: Option<Summary>)
    modifies journal`positions, journal`steps, journal`checkpoints, net
    ensures var end := PassOutcome(NewPass(old(journal.Tables())), entries);
            end == PassEnd(journal.Tables(), end.sends, summary) && net.sent == old(net.sent) + end.sends
  {
    summary := Some(Summary(0, 0, 0, 0, 0, 0));
    ghost var pass := NewPass(journal.Tables());
    ghost var passes := [pass];
    for i := 0 to |entries|
      invariant pass == PassEnd(journal.Tables(), pass.sends, summary) && summary.Some?
      invariant net.sent == old(net.sent) + pass.sends
      invariant Traced(passes, entries, i) && passes[0] == NewPass(old(journal.Tables())) && passes[i] == pass
    {
      ghost var next: PassEnd;
      summary, next := NextEntry(journal, net, entries[i], summary.value, pass);
      TraceGrows(passes, entries, i, next);
      passes, pass := passes + [next], next;
      if summary.None? {
        TraceEnds(passes, entries, i + 1);
        return;
      }
    }
    TraceEnds(passes, entries, |entries|);
  }

  lemma {:induction false} TraceEnds(passes: seq<PassEnd>, entries: seq<RelayEntry>, n: nat)
    requires Traced(passes, entries, n) && (n == |entries| || passes[n].summary.None?)
    ensures PassOutcome(passes[0], entries) == passes[n]
  {
    TraceIsOutcome(passes, entries, n);
    if n < |entries| {
      EndedStays(passes[n], entries[n..]);
    }
  }

  lemma {:induction false} TraceGrows(passes: seq<PassEnd>, entries: seq<RelayEntry>, n: nat, next: PassEnd)
    requires Traced(passes, entries, n) && n < |entries| && Continues(passes[n], entries[n], next)
    ensures Traced(passes + [next], entries, n + 1)
  {
    var longer := passes + [next];
    forall i | 0 <= i < n + 1 ensures Continues(longer[i], entries[i], longer[i + 1]) {
      if i < n { assert Continues(passes[i], entries[i], passes[i + 1]); }
    }
  }

  lemma {:induction false} TraceIsOutcome(passes: seq<PassEnd>, entries: seq<RelayEntry>, n: nat)
    requires Traced(passes, entries, n)
    ensures PassOutcome(passes[0], entries) == PassOutcome(passes[n], entries[n..])
    decreases n
  {
    if n == 0 {
      assert entries[0..] == entries;
    } else {
      TraceShrinks(passes, entries, n);
      TraceIsOutcome(passes[..n], entries, n - 1);
      assert Continues(passes[n - 1], entries[n - 1], passes[n]);
      assert entries[n - 1..][1..] == entries[n..];
    }
  }

  lemma {:induction false} TraceShrinks(passes: seq<PassEnd>, entries: seq<RelayEntry>, n: nat)
    requires Traced(passes, entries, n) && n > 0
    ensures Traced(passes[..n], entries, n - 1)
  {
    forall i | 0 <= i < n - 1 ensures Continues(passes[..n][i], entries[i], passes[..n][i + 1]) {
      assert Continues(passes[i], entries[i], passes[i + 1]);
    }
  }

  lemma {:induction false} EndedStays(pass: PassEnd, entries: seq<RelayEntry>)
    requires pass.summary.None?
    ensures PassOutcome(pass, entries) == pass
    decreases |entries|
  {
    if entries != [] {
      EndedStays(pass, entries[1..]);
    }
  }

  // ---------------------------------------------------------------- safety

  /** Observing changes nothing of a step but its state. */
  ghost predicate OnlyStates(a: seq<Step>, b: seq<Step>) {
    |a| == |b| && forall i | 0 <= i < |a| :: b[i] == a[i].(state := b[i].state)
  }

  lemma {:induction false} OnlyStatesIsSafe(a: seq<Step>, b: seq<Step>, sent: seq<Sent>)
    requires OnlyStates(a, b) && Safe(a, sent)
    ensures Safe(b, sent)
  {
    forall i | 0 <= i < |sent| ensures Committed(b, sent[i]) {
      assert Committed(a, sent[i]);
      var k :| 0 <= k < |a| && a[k].position == sent[i].p && a[k].key == sent[i].key && a[k].txHash == Some(sent[i].hash);
      assert b[k].position == sent[i].p && b[k].key == sent[i].key && b[k].txHash == Some(sent[i].hash);
    }
  }

  lemma {:induction false} StatusOnlyStates(db: Db, p: nat, id: nat, status: Status)
    ensures OnlyStates(db.steps, ObserveStatus(db, p, id, status).0.steps)
  {
    if status.Success? && status.arrival.Arrived? {
      assert Arrive(SaveCheckpoint(db, p, "relay_status", Note), p).steps == db.steps;
    }
  }

  lemma {:induction false} ObserveOnlyStates(db: Db, p: nat, sight: Sight)
    ensures OnlyStates(db.steps, ObserveOutcome(db, p, sight).0.steps)
  {
    var step := LatestStep(db.steps, p, StepKey(Relay));
    if step.Some? && sight.Confirmed? {
      StatusOnlyStates(Settle(db, step.value, SConfirmed), p, step.value, sight.status);
    }
  }

  lemma {:induction false} WatchOnlyStates(db: Db, p: nat, sight: Sight)
    ensures OnlyStates(db.steps, Watch(db, p, sight).0.steps)
  {
    var db1 := if p < |db.positions| && db.positions[p].state == Planned
               then RecordPositionState(db, p, BridgeSubmitted, None, None, None).GetOr(db) else db;
    assert db1.steps == db.steps;
    ObserveOnlyStates(db1, p, sight);
  }

  lemma {:induction false} DepositIsSafe(db: Db, p: nat, tx: Signed, e: RelayEntry, sent: seq<Sent>)
    requires Safe(db.steps, sent) && !HasBroadcast(db.steps, p)
    ensures Safe(Deposit(db, p, tx, e).db.steps, sent + Deposit(db, p, tx, e).sends)
  {
    var saved := SaveCheckpoint(db, p, "relay_execution", Note);
    BroadcastIsSafe(saved, sent, Relay, p, tx);
    var outcome := BroadcastOutcome(saved, p, StepKey(Relay), tx);
    WatchIsSafe(outcome.0, p, e.sight, sent + Sends(outcome, p, StepKey(Relay), tx));
  }

  /** Observing sends nothing and only moves states on. */
  lemma {:induction false} WatchIsSafe(db: Db, p: nat, sight: Sight, sent: seq<Sent>)
    requires Safe(db.steps, sent)
    ensures Safe(Watch(db, p, sight).0.steps, sent)
  {
    WatchOnlyStates(db, p, sight);
    OnlyStatesIsSafe(db.steps, Watch(db, p, sight).0.steps, sent);
  }

  /** One attempt keeps everything sent at most once and committed; a position with a broadcast, or with a bare intent, is
      never sent again. */
  lemma {:induction false} TryIsSafe(db: Db, p: nat, e: RelayEntry, sent: seq<Sent>)
    requires Safe(db.steps, sent)
    ensures var end := TryEntry(db, p, e);
            && Safe(end.db.steps, sent + end.sends)
            && (HasBroadcast(db.steps, p) || HasAssetIntent(db.steps, p) ==> end.sends == [])
  {
    assert sent + [] == sent;
    if HasBroadcast(db.steps, p) {
      WatchIsSafe(db, p, e.sight, sent);
    } else if e.preparation.Signs? && Blocked(db, p, e.now).None? {
      DepositIsSafe(db, p, e.preparation.tx, e, sent);
    }
  }

  lemma {:induction false} EntryIsSafe(db: Db, e: RelayEntry, s: Summary, sent: seq<Sent>)
    requires Safe(db.steps, sent)
    ensures Safe(EntryOutcome(db, e, s).db.steps, sent + EntryOutcome(db, e, s).sends)
  {
    assert sent + [] == sent;
    var made := GetOrCreatePosition(db, e.key, e.wallet, None, None, None);
    if made.Some? {
      var p := PositionByKey(db.positions, e.key).GetOr(|db.positions|);
      TryIsSafe(made.value, p, e, sent);
      var end := TryEntry(made.value, p, e);
      ConcludeKeepsSteps(end.db, p, made.value.positions[p].state, end.verdict, Counted(s, end.submitted));
    }
  }

  lemma {:induction false} ConcludeKeepsSteps(db: Db, p: nat, was: PositionState, verdict: Verdict, s: Summary)
    ensures Conclude(db, p, was, verdict, s).0.steps == db.steps
  {
  }

  /** Any number of entries, known or repeated, whatever is answered, even when the pass ends with an exception: at most one
      send per position and key, and each one committed in the journal. */
  lemma {:induction false} PassIsSafe(pass: PassEnd, entries: seq<RelayEntry>, sent: seq<Sent>)
    requires Safe(pass.db.steps, sent + pass.sends)
    ensures Safe(PassOutcome(pass, entries).db.steps, sent + PassOutcome(pass, entries).sends)
    decreases |entries|
  {
    if entries != [] {
      ExtendedIsSafe(pass, entries[0], sent);
      PassIsSafe(Extended(pass, entries[0]), entries[1..], sent);
    }
  }

  lemma {:induction false} ExtendedIsSafe(pass: PassEnd, e: RelayEntry, sent: seq<Sent>)
    requires Safe(pass.db.steps, sent + pass.sends)
    ensures Safe(Extended(pass, e).db.steps, sent + Extended(pass, e).sends)
  {
    if pass.summary.Some? {
      EntryIsSafe(pass.db, e, pass.summary.value, sent + pass.sends);
      assert sent + Extended(pass, e).sends == sent + pass.sends + EntryOutcome(pass.db, e, pass.summary.value).sends;
    }
  }

  // ---------------------------------------------------------------- completion

  const CREDITABLE: set<StepState> := {SSubmitted, SConfirmed, SDepositSeen, SAwaitingBridge, SBridgeTimeout, SCredited}
  const COMPLETABLE: set<PositionState> :=
    {Planned, Converted, BridgeSubmitted, BridgeTimeout, DirectDepositSubmitted, DepositPending, Completed}

  ghost predicate Settled(db: Db, p: nat, id: nat) {
    && p < |db.positions| && db.positions[p].state == Completed
    && id < |db.steps| && db.steps[id].state == SCredited
  }

  /** An observed credit completes the position exactly when the transition tables let its step be credited and the position
      completed; the two are then recorded together with the receipt. */
  lemma {:induction false} CreditCompletesIff(db: Db, p: nat, receipt: Payload)
    requires p < |db.positions|
    requires var step := LatestStep(db.steps, p, StepKey(Relay)); step.Some? && db.steps[step.value].txHash.GetOr("") != ""
    ensures var id := LatestStep(db.steps, p, StepKey(Relay)).value;
            var (after, verdict) := ObserveOutcome(db, p, Confirmed(Success(Arrived(Credited(receipt)))));
            && (verdict == Completes <==> db.steps[id].state in CREDITABLE && db.positions[p].state in COMPLETABLE)
            && (verdict == Completes ==>
                  Settled(after, p, id) && (p, "bitget_credit") in after.checkpoints && after.checkpoints[(p, "bitget_credit")] == receipt)
  {
    var id := LatestStep(db.steps, p, StepKey(Relay)).value;
    var settled := Settle(db, id, SConfirmed);
    var noted := SaveCheckpoint(settled, p, "relay_status", Note);
    assert ObserveOutcome(db, p, Confirmed(Success(Arrived(Credited(receipt))))) == ObserveCredit(noted, p, id, Credited(receipt));
    assert noted.steps[id].state == if db.steps[id].state == SSubmitted then SConfirmed else db.steps[id].state;
    CreditRecordedIff(noted, p, id, receipt);
  }

  lemma {:induction false} CreditRecordedIff(db: Db, p: nat, id: nat, receipt: Payload)
    requires p < |db.positions| && id < |db.steps| && db.steps[id].state != SSubmitted
    ensures var (after, verdict) := ObserveCredit(db, p, id, Credited(receipt));
            && (verdict == Completes <==> db.steps[id].state in CREDITABLE && db.positions[p].state in COMPLETABLE)
            && (verdict == Completes ==>
                  Settled(after, p, id) && (p, "bitget_credit") in after.checkpoints && after.checkpoints[(p, "bitget_credit")] == receipt)
  {
    var arrived := Arrive(db, p);
    assert arrived.positions[p].state == if db.positions[p].state == BridgeSubmitted then DepositPending else db.positions[p].state;
    RecordedIff(arrived, p, id, receipt);
    TablesAllow(db.steps[id].state, db.positions[p].state);
  }

  lemma {:induction false} TablesAllow(step: StepState, was: PositionState)
    requires step != SSubmitted
    ensures step == SCredited || SCredited in StepTargets(step) <==> step in CREDITABLE
    ensures var now := if was == BridgeSubmitted then DepositPending else was;
            now == Completed || Completed in PositionTargets(now) <==> was in COMPLETABLE
  {
  }

  lemma {:induction false} RecordedIff(db: Db, p: nat, id: nat, receipt: Payload)
    requires p < |db.positions| && id < |db.steps|
    ensures var (after, verdict) := RecordCredit(db, p, id, receipt);
            && (verdict == Completes <==>
                  && (db.steps[id].state == SCredited || SCredited in StepTargets(db.steps[id].state))
                  && (db.positions[p].state == Completed || Completed in PositionTargets(db.positions[p].state)))
            && (verdict == Completes ==>
                  Settled(after, p, id) && (p, "bitget_credit") in after.checkpoints && after.checkpoints[(p, "bitget_credit")] == receipt)
  {
  }

  /** The watched deposit of a position that this executor opened completes when its credit is seen. */
  lemma {:induction false} OwnDepositCompletes(db: Db, p: nat, receipt: Payload)
    requires p < |db.positions| && db.positions[p].state in {Planned, BridgeSubmitted, DepositPending}
    requires var step := LatestStep(db.steps, p, StepKey(Relay));
             step.Some? && db.steps[step.value].txHash.GetOr("") != "" && db.steps[step.value].state in {SSubmitted, SConfirmed}
    ensures var id := LatestStep(db.steps, p, StepKey(Relay)).value;
            var (after, verdict) := Watch(db, p, Confirmed(Success(Arrived(Credited(receipt)))));
            verdict == Completes && Settled(after, p, id)
  {
    var db1 := if db.positions[p].state == Planned
               then RecordPositionState(db, p, BridgeSubmitted, None, None, None).value else db;
    CreditCompletesIff(db1, p, receipt);
  }

  /** A fresh deposit that is accepted, confirmed and credited completes its planned position in one pass: the states that the
      executor goes through are all allowed. */
  lemma {:induction false} FreshDepositCompletes(db: Db, p: nat, tx: Signed, e: RelayEntry, receipt: Payload)
    requires p < |db.positions| && db.positions[p].state == Planned && LatestStep(db.steps, p, StepKey(Relay)).None?
    requires tx.calldata != "" && tx.payload != "" && tx.hash != "" && e.answer.HashReturned?
    requires e.sight == Confirmed(Success(Arrived(Credited(receipt))))
    ensures var sent := SaveCheckpoint(db, p, "relay_execution", Note).(steps := db.steps + [FirstStep(p, StepKey(Relay), tx, SSubmitted)]);
            && Deposit(db, p, tx, e) == EntryEnd(Watch(sent, p, e.sight).0, [Sent(p, StepKey(Relay), tx.hash)], true, Completes)
            && Settled(Watch(sent, p, e.sight).0, p, |db.steps|)
  {
    var saved := SaveCheckpoint(db, p, "relay_execution", Note);
    FirstBroadcastSends(saved, p, StepKey(Relay), tx);
    FirstBroadcastAccepted(saved, p, StepKey(Relay), tx, e.observed);
    OwnDepositCompletes(saved.(steps := db.steps + [FirstStep(p, StepKey(Relay), tx, SSubmitted)]), p, receipt);
  }
}
