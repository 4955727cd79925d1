/** The executors as they run: methods over the journal object and the network, one process from start to end.
    What the network, the signer and the planner answer is a parameter of each method. */
module Executors {
  import opened Prelude
  import opened JournalTables
  import opened JournalRuns
  import opened Broadcasts
  import opened Journals

  /** Every transaction handed to the network by these executors. */
  class Network {
    var sent: seq<Sent>

    constructor ()
      ensures sent == []
    {
      sent := [];
    }

    method SendRaw(p: nat, key: string, hash: string)
      modifies this
      ensures sent == old(sent) + [Sent(p, key, hash)]
    {
      sent := sent + [Sent(p, key, hash)];
    }
  }

  datatype Answer = HashReturned | OtherHashReturned | NoAnswer | DeadlinePassed

  datatype Reply = Conflict | Seen | NotSeen | Accepted | Ambiguous | HashMismatch | Interrupted

  /** The tables after one uninterrupted broadcast, and whether it sends. */
  function BroadcastOutcome(db: Db, p: nat, key: string, tx: Signed): (Db, bool) {
    var bound := RecordStepIntent(db, p, key, tx.nonce, tx.calldata, tx.payload, Some(tx.hash));
    if bound.None? then (db, false)
    else if ExistingHash(db, p, key, tx.nonce).Some? then (bound.value, false)
    else
      var id := StepRow(db.steps, p, key, tx.nonce).GetOr(|db.steps|);
      var attempted := RecordBroadcastAttempt(bound.value, id, tx.hash);
      if attempted.None? then (bound.value, false) else (attempted.value, true)
  }

  /** What the caller learns: an intent that conflicts, a saved hash looked up, or the answer to the send. */
  function BroadcastReply(db: Db, p: nat, key: string, tx: Signed, observed: bool, answer: Answer): Reply {
    if RecordStepIntent(db, p, key, tx.nonce, tx.calldata, tx.payload, Some(tx.hash)).None? then Conflict
    else if ExistingHash(db, p, key, tx.nonce).Some? then (if observed then Seen else NotSeen)
    else if !BroadcastOutcome(db, p, key, tx).1 then Conflict
    else match answer
      case HashReturned => Accepted
      case OtherHashReturned => HashMismatch
      case NoAnswer => Ambiguous
      case DeadlinePassed => Interrupted
  }

  /** What an outcome adds to the network's log. */
  function Sends(outcome: (Db, bool), p: nat, key: string, tx: Signed): seq<Sent> {
    if outcome.1 then [Sent(p, key, tx.hash)] else []
  }

  /** Sends one signed transaction, unless its nonce already has a hash, which is only looked up. */
  method BroadcastDurable(journal: Journal, net: Network, p: nat, key: string, tx: Signed, observed: bool,
        answer: Answer)
    returns (reply: Reply)
    modifies journal`steps, net
    ensures journal.Tables() == BroadcastOutcome(old(journal.Tables()), p, key, tx).0
    ensures net.sent == old(net.sent) + Sends(BroadcastOutcome(old(journal.Tables()), p, key, tx), p, key, tx)
    ensures reply == BroadcastReply(old(journal.Tables()), p, key, tx, observed, answer)
  {
    var existing := ExistingHash(journal.Tables(), p, key, tx.nonce);
    var id := journal.StepIntent(p, key, tx.nonce, tx.calldata, tx.payload, Some(tx.hash));
    if id.None? {
      return Conflict;
    }
    if existing.Some? {
      return if observed then Seen else NotSeen;
    }
    var ok := journal.BroadcastAttempt(id.value, tx.hash);
    if !ok {
      return Conflict;
    }
    net.SendRaw(p, key, tx.hash);
    return match answer
      case HashReturned => Accepted
      case OtherHashReturned => HashMismatch
      case NoAnswer => Ambiguous
      case DeadlinePassed => Interrupted;
  }

  /** The method is the state machine run without a crash and without interference. */
  lemma {:induction false} UninterruptedBroadcast(w: World, e: Executor, p: nat, tx: Signed)
    requires ProcessOf(w, e) == Ready(p)
    ensures var z := Runs(w, [Look(e, tx), Bind(e), RecordAttempt(e), Send(e)]);
            var outcome := BroadcastOutcome(w.db, p, StepKey(e), tx);
            && z.db == outcome.0
            && z.sent == w.sent + Sends(outcome, p, StepKey(e), tx)
            && ProcessOf(z, e) == Idle
  {
    FourActions(w, Look(e, tx), Bind(e), RecordAttempt(e), Send(e));
  }

  lemma {:induction false} FourActions(w: World, a: Action, b: Action, c: Action, d: Action)
    ensures Runs(w, [a, b, c, d]) == Act(Act(Act(Act(w, a), b), c), d)
  {
    var run := [a, b, c, d];
    assert run[..3][..2] == run[..2] && run[..2][..1] == run[..1] && run[..1][..0] == [];
    assert Runs(w, run[..1]) == Act(w, a);
    assert Runs(w, run[..2]) == Act(Act(w, a), b);
    assert Runs(w, run[..3]) == Act(Act(Act(w, a), b), c);
  }

  /** What the executors keep: nothing is sent twice for a position and key, and everything sent is committed. */
  ghost predicate Safe(steps: seq<Step>, sent: seq<Sent>) {
    AtMostOnce(sent) && forall i | 0 <= i < |sent| :: Committed(steps, sent[i])
  }

  lemma {:induction false} SafeSurvives(a: seq<Step>, b: seq<Step>, sent: seq<Sent>)
    requires Safe(a, sent) && StepsEvolved(a, b)
    ensures Safe(b, sent)
  {
    forall i | 0 <= i < |sent| ensures Committed(b, sent[i]) {
      CommittedStays(a, b, sent[i]);
    }
  }

  lemma {:induction false} BroadcastIsSafe(db: Db, sent: seq<Sent>, e: Executor, p: nat, tx: Signed)
    requires Safe(db.steps, sent) && SecondGuardPasses(db, e, p)
    ensures var outcome := BroadcastOutcome(db, p, StepKey(e), tx);
            Safe(outcome.0.steps, sent + Sends(outcome, p, StepKey(e), tx))
  {
    var w := World(db, sent, if e == DeFi then Ready(p) else Idle, if e == Relay then Ready(p) else Idle);
    GuardMeansUnsent(w, e, p);
    assert Invariant(w);
    var run := [Look(e, tx), Bind(e), RecordAttempt(e), Send(e)];
    UninterruptedBroadcast(w, e, p, tx);
    InvariantOverRun(w, run);
  }

  lemma {:induction false} InvariantOverRun(w: World, run: seq<Action>)
    requires Invariant(w)
    ensures Invariant(Runs(w, run))
  {
    if run != [] {
      var n := |run| - 1;
      InvariantOverRun(w, run[..n]);
      ActKeepsInvariant(Runs(w, run[..n]), run[n]);
    }
  }

  // ---------------------------------------------------------------- one reviewed withdrawal

  /** What the planner and signer, the look-up of a saved hash, the send and the wait for the receipt answer. */
  datatype DefiAnswers = DefiAnswers(prepared: Option<Signed>, observed: bool, answer: Answer, mined: bool)

  datatype DefiResult =
    | Refused | Unresolved | NotPrepared | AmbiguousBroadcast | Failed(reply: Reply) | NoReceipt | NotRecorded | Withdrawn

  datatype DefiEnd = DefiEnd(db: Db, sends: seq<Sent>, result: DefiResult)

  /** A mined transaction confirms its step. */
  function RecordReceipt(db: Db, step: nat, mined: bool): (Db, DefiResult) {
    if !mined then (db, NoReceipt)
    else
      var after := TransitionStep(db, step, SConfirmed);
      if after.None? then (db, NotRecorded) else (after.value, Withdrawn)
  }

  function SubmitDefi(db: Db, p: nat, tx: Signed, a: DefiAnswers): DefiEnd {
    var outcome := BroadcastOutcome(db, p, StepKey(DeFi), tx);
    var sends := Sends(outcome, p, StepKey(DeFi), tx);
    match BroadcastReply(db, p, StepKey(DeFi), tx, a.observed, a.answer)
    case NotSeen => DefiEnd(outcome.0, sends, AmbiguousBroadcast)
    case Ambiguous => DefiEnd(outcome.0, sends, AmbiguousBroadcast)
    case Conflict => DefiEnd(outcome.0, sends, Failed(Conflict))
    case HashMismatch => DefiEnd(outcome.0, sends, Failed(HashMismatch))
    case Interrupted => DefiEnd(outcome.0, sends, Failed(Interrupted))
    case _ =>
      var step := LatestStep(outcome.0.steps, p, StepKey(DeFi));
      if step.None? then DefiEnd(outcome.0, sends, NotRecorded)
      else
        var (after, result) := RecordReceipt(outcome.0, step.value, a.mined);
        DefiEnd(after, sends, result)
  }

  function DefiKey(wallet: string, actionId: string): string {
    "defi:" + Lower(wallet) + ":" + actionId
  }

  /** An earlier step is observed or reported; only a position without one is prepared and sent. */
  function DefiOutcome(db: Db, wallet: string, actionId: string, a: DefiAnswers): DefiEnd {
    var made := GetOrCreatePosition(db, DefiKey(wallet, actionId), Lower(wallet), None, None, None);
    if made.None? then DefiEnd(db, [], Refused)
    else
      var p := PositionByKey(db.positions, DefiKey(wallet, actionId)).GetOr(|db.positions|);
      var existing := LatestStep(made.value.steps, p, StepKey(DeFi));
      if existing.Some? then
        if made.value.steps[existing.value].txHash.GetOr("") == "" then DefiEnd(made.value, [], Unresolved)
        else if !a.observed then DefiEnd(made.value, [], AmbiguousBroadcast)
        else
          var (after, result) := RecordReceipt(made.value, existing.value, a.mined);
          DefiEnd(after, [], result)
      else if a.prepared.None? then DefiEnd(made.value, [], NotPrepared)
      else SubmitDefi(made.value, p, a.prepared.value, a)
  }

  method ExecuteDefiAction(journal: Journal, net: Network, wallet: string, actionId: string, a: DefiAnswers)
    returns (result: DefiResult)
    modifies journal`positions, journal`steps, net
    ensures var end := DefiOutcome(old(journal.Tables()), wallet, actionId, a);
            journal.Tables() == end.db && net.sent == old(net.sent) + end.sends && result == end.result
  {
    var position := journal.Position(DefiKey(wallet, actionId), Lower(wallet), None, None, None);
    if position.None? {
      return Refused;
    }
    var p := position.value;
    var existing := LatestStep(journal.steps, p, StepKey(DeFi));
    if existing.Some? {
      if journal.steps[existing.value].txHash.GetOr("") == "" { return Unresolved; }
      if !a.observed { return AmbiguousBroadcast; }
    } else {
      if a.prepared.None? { return NotPrepared; }
      var reply := BroadcastDurable(journal, net, p, StepKey(DeFi), a.prepared.value, a.observed, a.answer);
      if reply.NotSeen? || reply.Ambiguous? { return AmbiguousBroadcast; }
      if reply.Conflict? || reply.HashMismatch? || reply.Interrupted? { return Failed(reply); }
    }
    var step := LatestStep(journal.steps, p, StepKey(DeFi));
    if step.None? { return NotRecorded; }
    if !a.mined { return NoReceipt; }
    var ok := journal.SetStepState(step.value, SConfirmed);
    result := if ok then Withdrawn else NotRecorded;
  }

  lemma {:induction false} ReceiptKeepsSafe(db: Db, step: nat, mined: bool, sent: seq<Sent>)
    requires Safe(db.steps, sent)
    ensures Safe(RecordReceipt(db, step, mined).0.steps, sent)
  {
    OpEvolvesSteps(db, StepStateOp(step, SConfirmed));
    SafeSurvives(db.steps, RecordReceipt(db, step, mined).0.steps, sent);
  }

  /** Whatever is answered, a withdrawal keeps everything sent at most once and committed; a position that already has a step
      is not sent again. */
  lemma {:induction false} DefiIsSafe(db: Db, sent: seq<Sent>, wallet: string, actionId: string, a: DefiAnswers)
    requires Safe(db.steps, sent)
    ensures var end := DefiOutcome(db, wallet, actionId, a);
            && Safe(end.db.steps, sent + end.sends) && |end.sends| <= 1
            && (LatestStep(db.steps, PositionByKey(db.positions, DefiKey(wallet, actionId)).GetOr(|db.positions|), StepKey(DeFi)).Some?
                ==> end.sends == [])
  {
    var made := GetOrCreatePosition(db, DefiKey(wallet, actionId), Lower(wallet), None, None, None);
    assert sent + [] == sent;
    if made.Some? {
      var p := PositionByKey(db.positions, DefiKey(wallet, actionId)).GetOr(|db.positions|);
      var existing := LatestStep(made.value.steps, p, StepKey(DeFi));
      if existing.Some? {
        ReceiptKeepsSafe(made.value, existing.value, a.mined, sent);
      } else if a.prepared.Some? {
        SubmitIsSafe(made.value, sent, p, a.prepared.value, a);
      }
    }
  }

  lemma {:induction false} SubmitIsSafe(db: Db, sent: seq<Sent>, p: nat, tx: Signed, a: DefiAnswers)
    requires Safe(db.steps, sent) && LatestStep(db.steps, p, StepKey(DeFi)).None?
    ensures Safe(SubmitDefi(db, p, tx, a).db.steps, sent + SubmitDefi(db, p, tx, a).sends)
  {
    BroadcastIsSafe(db, sent, DeFi, p, tx);
    var outcome := BroadcastOutcome(db, p, StepKey(DeFi), tx);
    var step := LatestStep(outcome.0.steps, p, StepKey(DeFi));
    if step.Some? {
      ReceiptKeepsSafe(outcome.0, step.value, a.mined, sent + Sends(outcome, p, StepKey(DeFi), tx));
    }
  }

  /** The row that a first broadcast leaves. */
  function FirstStep(p: nat, key: string, tx: Signed, state: StepState): Step {
    Step(p, key, tx.nonce, state, tx.calldata, tx.payload, Some(tx.hash), 1)
  }

  /** Without an earlier step of its key a transaction is always sent, as one new submitted step. */
  lemma {:induction false} FirstBroadcastSends(db: Db, p: nat, key: string, tx: Signed)
    requires LatestStep(db.steps, p, key).None? && key != "" && tx.calldata != "" && tx.payload != ""
    ensures BroadcastOutcome(db, p, key, tx) == (db.(steps := db.steps + [FirstStep(p, key, tx, SSubmitted)]), true)
  {
    assert StepRow(db.steps, p, key, tx.nonce).None?;
    assert BroadcastOutcome(db, p, key, tx).0.steps == db.steps + [FirstStep(p, key, tx, SSubmitted)];
  }

  lemma {:induction false} FirstBroadcastAccepted(db: Db, p: nat, key: string, tx: Signed, observed: bool)
    requires LatestStep(db.steps, p, key).None? && key != "" && tx.calldata != "" && tx.payload != ""
    ensures BroadcastReply(db, p, key, tx, observed, HashReturned) == Accepted
  {
    FirstBroadcastSends(db, p, key, tx);
  }

  /** A fresh withdrawal that is accepted and mined is always recorded: its one new step ends confirmed. */
  lemma {:induction false} FreshWithdrawalIsRecorded(db: Db, p: nat, tx: Signed, a: DefiAnswers)
    requires LatestStep(db.steps, p, StepKey(DeFi)).None? && tx.calldata != "" && tx.payload != ""
    requires a.answer.HashReturned? && a.mined
    ensures SubmitDefi(db, p, tx, a) ==
              DefiEnd(db.(steps := db.steps + [FirstStep(p, StepKey(DeFi), tx, SConfirmed)]), [Sent(p, StepKey(DeFi), tx.hash)], Withdrawn)
  {
    FirstBroadcastSends(db, p, StepKey(DeFi), tx);
    FirstBroadcastAccepted(db, p, StepKey(DeFi), tx, a.observed);
    var steps := db.steps + [FirstStep(p, StepKey(DeFi), tx, SSubmitted)];
    assert steps[..|db.steps|] == db.steps;
    assert steps[|db.steps| := FirstStep(p, StepKey(DeFi), tx, SConfirmed)] == db.steps + [FirstStep(p, StepKey(DeFi), tx, SConfirmed)];
  }
}
