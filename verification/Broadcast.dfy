/** The durable broadcast protocol of the DeFi and Relay executors.

    The state machine interleaves, at the grain of single journal transactions and single network calls, one process
    of each executor (each holds its own lock), any other operation on the journal by anyone, and crashes at every
    point.  A crash loses the process and keeps the tables; a new process starts from the guard. */
module Broadcasts {
  import opened Prelude
  import opened JournalTables
  import opened JournalRuns

  datatype Executor = DeFi | Relay

  function StepKey(e: Executor): string {
    if e == DeFi then "defi_withdraw" else "relay_deposit"
  }

  /** One signed transaction; digests and hash are opaque. */
  datatype Signed = Signed(nonce: nat, calldata: string, payload: string, hash: string)

  datatype Process =
    | Idle
    | Checked(p: nat)                                            // the first guard let the position through
    | Ready(p: nat)                                              // so did the second
    | Looked(p: nat, tx: Signed, existing: Option<string>)       // signed, and the previous row read
    | Bound(p: nat, tx: Signed, existing: Option<string>, step: nat)  // the intent is committed with its hash
    | Attempted(p: nat, tx: Signed, step: nat)                   // the attempt is committed; the send is next

  datatype Sent = Sent(p: nat, key: string, hash: string)

  datatype World = World(db: Db, sent: seq<Sent>, defi: Process, relay: Process)

  datatype Action =
    | Other(op: Op)
    | Crash(e: Executor)
    | FirstGuard(e: Executor, p: nat)
    | SecondGuard(e: Executor)
    | Look(e: Executor, tx: Signed)
    | Bind(e: Executor)
    | RecordAttempt(e: Executor)
    | Send(e: Executor)

  function ProcessOf(w: World, e: Executor): Process {
    if e == DeFi then w.defi else w.relay
  }

  function Goto(w: World, e: Executor, pc: Process): World {
    if e == DeFi then w.(defi := pc) else w.(relay := pc)
  }

  /** What the executor requires before it prepares a transaction: DeFi that no step of its key exists; Relay that
      the position is open and no asset intent without a hash blocks it. */
  predicate FirstGuardPasses(db: Db, e: Executor, p: nat) {
    match e
    case DeFi => LatestStep(db.steps, p, StepKey(DeFi)).None?
    case Relay =>
      && p < |db.positions| && db.positions[p].state !in {Completed, ManualReview}
      && (HasAssetIntent(db.steps, p) ==> HasBroadcast(db.steps, p))
  }

  predicate SecondGuardPasses(db: Db, e: Executor, p: nat) {
    match e
    case DeFi => LatestStep(db.steps, p, StepKey(DeFi)).None?
    case Relay => !HasBroadcast(db.steps, p)
  }

  /** The hash already bound to the newest row, when that row has the same nonce. */
  function ExistingHash(db: Db, p: nat, key: string, nonce: nat): Option<string> {
    var previous := LatestStep(db.steps, p, key);
    if previous.Some? && db.steps[previous.value].nonce == nonce && db.steps[previous.value].txHash.GetOr("") != ""
    then db.steps[previous.value].txHash else None
  }

  function Act(w: World, a: Action): World {
    match a
    case Other(op) => w.(db := Apply(w.db, op))
    case Crash(e) => Goto(w, e, Idle)
    case FirstGuard(e, p) =>
      if ProcessOf(w, e) == Idle && FirstGuardPasses(w.db, e, p) then Goto(w, e, Checked(p)) else w
    case SecondGuard(e) =>
      var pc := ProcessOf(w, e);
      if !pc.Checked? then w
      else Goto(w, e, if SecondGuardPasses(w.db, e, pc.p) then Ready(pc.p) else Idle)
    case Look(e, tx) =>
      var pc := ProcessOf(w, e);
      if pc.Ready? then Goto(w, e, Looked(pc.p, tx, ExistingHash(w.db, pc.p, StepKey(e), tx.nonce))) else w
    case Bind(e) =>
      var pc := ProcessOf(w, e);
      if !pc.Looked? then w
      else
        var db1 := RecordStepIntent(w.db, pc.p, StepKey(e), pc.tx.nonce, pc.tx.calldata, pc.tx.payload, Some(pc.tx.hash));
        if db1.None? then Goto(w, e, Idle)
        else
          var id := StepRow(w.db.steps, pc.p, StepKey(e), pc.tx.nonce).GetOr(|w.db.steps|);
          Goto(w.(db := db1.value), e, Bound(pc.p, pc.tx, pc.existing, id))
    case RecordAttempt(e) =>
      var pc := ProcessOf(w, e);
      if !pc.Bound? then w
      else if pc.existing.Some? then Goto(w, e, Idle)   // observed on the network, never sent again
      else
        var db1 := RecordBroadcastAttempt(w.db, pc.step, pc.tx.hash);
        if db1.None? then Goto(w, e, Idle) else Goto(w.(db := db1.value), e, Attempted(pc.p, pc.tx, pc.step))
    case Send(e) =>
      var pc := ProcessOf(w, e);
      if pc.Attempted? then Goto(w.(sent := w.sent + [Sent(pc.p, StepKey(e), pc.tx.hash)]), e, Idle) else w
  }

  function Runs(w: World, run: seq<Action>): World {
    if run == [] then w else Act(Runs(w, run[..|run| - 1]), run[|run| - 1])
  }

  /** Any journal, nothing sent by these executors, no process running. */
  function Start(db: Db): World {
    World(db, [], Idle, Idle)
  }

  // ---------------------------------------------------------------- safety

  /** The hash is durably bound to a step of this position and key. */
  ghost predicate Committed(steps: seq<Step>, s: Sent) {
    exists i | 0 <= i < |steps| ::
      steps[i].position == s.p && steps[i].key == s.key && steps[i].txHash == Some(s.hash)
  }

  ghost predicate AtMostOnce(sent: seq<Sent>) {
    forall i, j | 0 <= i < j < |sent| :: !(sent[i].p == sent[j].p && sent[i].key == sent[j].key)
  }

  ghost predicate PastGuard(pc: Process) {
    pc.Ready? || pc.Looked? || pc.Bound? || pc.Attempted?
  }

  ghost predicate NothingSent(sent: seq<Sent>, p: nat, key: string) {
    forall i | 0 <= i < |sent| :: !(sent[i].p == p && sent[i].key == key)
  }

  ghost predicate HoldsHash(steps: seq<Step>, id: nat, p: nat, key: string, hash: string) {
    id < |steps| && steps[id].position == p && steps[id].key == key && steps[id].txHash == Some(hash)
  }

  ghost predicate ProcessInvariant(w: World, e: Executor) {
    var pc := ProcessOf(w, e);
    && (PastGuard(pc) ==> NothingSent(w.sent, pc.p, StepKey(e)))
    && (pc.Bound? || pc.Attempted? ==> HoldsHash(w.db.steps, pc.step, pc.p, StepKey(e), pc.tx.hash))
  }

  ghost predicate Invariant(w: World) {
    && AtMostOnce(w.sent)
    && (forall i | 0 <= i < |w.sent| :: Committed(w.db.steps, w.sent[i]))
    && ProcessInvariant(w, DeFi) && ProcessInvariant(w, Relay)
  }

  lemma {:induction false} CommittedStays(a: seq<Step>, b: seq<Step>, s: Sent)
    requires StepsEvolved(a, b) && Committed(a, s)
    ensures Committed(b, s)
  {
    var i :| 0 <= i < |a| && a[i].position == s.p && a[i].key == s.key && a[i].txHash == Some(s.hash);
    assert Evolved(a[i], b[i]);
  }

  /** What a longer journal does to the invariant: nothing. */
  lemma {:induction false} InvariantSurvives(w: World, db: Db)
    requires Invariant(w) && StepsEvolved(w.db.steps, db.steps)
    ensures Invariant(w.(db := db))
  {
    forall i | 0 <= i < |w.sent| ensures Committed(db.steps, w.sent[i]) {
      CommittedStays(w.db.steps, db.steps, w.sent[i]);
    }
  }

  /** A position that passes the second guard has had nothing sent for this key. */
  lemma {:induction false} GuardMeansUnsent(w: World, e: Executor, p: nat)
    requires forall i | 0 <= i < |w.sent| :: Committed(w.db.steps, w.sent[i])
    requires SecondGuardPasses(w.db, e, p)
    ensures NothingSent(w.sent, p, StepKey(e))
  {
    forall i | 0 <= i < |w.sent| ensures !(w.sent[i].p == p && w.sent[i].key == StepKey(e)) {
      assert Committed(w.db.steps, w.sent[i]);
    }
  }

  lemma {:induction false} IntentBindsHash(db: Db, p: nat, key: string, tx: Signed)
    requires RecordStepIntent(db, p, key, tx.nonce, tx.calldata, tx.payload, Some(tx.hash)).Some?
    ensures var after := RecordStepIntent(db, p, key, tx.nonce, tx.calldata, tx.payload, Some(tx.hash)).value;
            && StepsEvolved(db.steps, after.steps)
            && HoldsHash(after.steps, StepRow(db.steps, p, key, tx.nonce).GetOr(|db.steps|), p, key, tx.hash)
  {
    OpEvolvesSteps(db, Intent(p, key, tx.nonce, tx.calldata, tx.payload, Some(tx.hash)));
  }

  ghost predicate Keeps(w: World, a: Action) {
    Invariant(Act(w, a)) && StepsEvolved(w.db.steps, Act(w, a).db.steps)
  }

  lemma {:induction false} ActKeepsInvariant(w: World, a: Action)
    requires Invariant(w)
    ensures Keeps(w, a)
  {
    match a
    case Other(op) => OtherKeepsInvariant(w, op);
    case SecondGuard(e) => SecondGuardKeepsInvariant(w, e);
    case Bind(e) => BindKeepsInvariant(w, e);
    case RecordAttempt(e) => RecordAttemptKeepsInvariant(w, e);
    case Send(e) => SendKeepsInvariant(w, e);
    case Crash(e) =>
    case FirstGuard(e, p) =>
    case Look(e, tx) =>
  }

  lemma {:induction false} OtherKeepsInvariant(w: World, op: Op)
    requires Invariant(w)
    ensures Keeps(w, Other(op))
  {
    OpEvolvesSteps(w.db, op);
    InvariantSurvives(w, Apply(w.db, op));
  }

  lemma {:induction false} SecondGuardKeepsInvariant(w: World, e: Executor)
    requires Invariant(w)
    ensures Keeps(w, SecondGuard(e))
  {
    var pc := ProcessOf(w, e);
    if pc.Checked? && SecondGuardPasses(w.db, e, pc.p) {
      GuardMeansUnsent(w, e, pc.p);
    }
  }

  lemma {:induction false} BindKeepsInvariant(w: World, e: Executor)
    requires Invariant(w)
    ensures Keeps(w, Bind(e))
  {
    var pc := ProcessOf(w, e);
    if pc.Looked? {
      assert ProcessInvariant(w, e);
      var db1 := RecordStepIntent(w.db, pc.p, StepKey(e), pc.tx.nonce, pc.tx.calldata, pc.tx.payload, Some(pc.tx.hash));
      if db1.Some? {
        IntentBindsHash(w.db, pc.p, StepKey(e), pc.tx);
        InvariantSurvives(w, db1.value);
      }
    }
  }

  lemma {:induction false} HeldHashStays(a: seq<Step>, b: seq<Step>, id: nat, p: nat, key: string, hash: string)
    requires StepsEvolved(a, b) && HoldsHash(a, id, p, key, hash)
    ensures HoldsHash(b, id, p, key, hash)
  {
    assert Evolved(a[id], b[id]);
  }

  lemma {:induction false} RecordAttemptKeepsInvariant(w: World, e: Executor)
    requires Invariant(w)
    ensures Keeps(w, RecordAttempt(e))
  {
    var pc := ProcessOf(w, e);
    if pc.Bound? && pc.existing.None? {
      var db1 := RecordBroadcastAttempt(w.db, pc.step, pc.tx.hash);
      if db1.Some? {
        OpEvolvesSteps(w.db, Attempt(pc.step, pc.tx.hash));
        InvariantSurvives(w, db1.value);
        HeldHashStays(w.db.steps, db1.value.steps, pc.step, pc.p, StepKey(e), pc.tx.hash);
        assert Act(w, RecordAttempt(e)) == Goto(w.(db := db1.value), e, Attempted(pc.p, pc.tx, pc.step));
      }
    }
  }

  lemma {:induction false} SendKeepsInvariant(w: World, e: Executor)
    requires Invariant(w)
    ensures Keeps(w, Send(e))
  {
    var pc := ProcessOf(w, e);
    if pc.Attempted? {
      var s := Sent(pc.p, StepKey(e), pc.tx.hash);
      assert ProcessInvariant(w, e);
      assert Committed(w.db.steps, s);
    }
  }

  /** Over every run: at most one transaction is sent per position and step key, every sent hash is in the journal,
      and whenever a send happens its hash was committed before it. */
  lemma {:induction false} SentAtMostOnce(db: Db, run: seq<Action>)
    ensures var w := Runs(Start(db), run);
            && AtMostOnce(w.sent)
            && (forall i | 0 <= i < |w.sent| :: Committed(w.db.steps, w.sent[i]))
            && (forall e :: var after := Act(w, Send(e));
                  after.sent == w.sent
                  || (|after.sent| == |w.sent| + 1 && Committed(w.db.steps, after.sent[|w.sent|])))
  {
    InvariantHolds(db, run);
    var w := Runs(Start(db), run);
    forall e ensures var after := Act(w, Send(e));
                     after.sent == w.sent
                     || (|after.sent| == |w.sent| + 1 && Committed(w.db.steps, after.sent[|w.sent|]))
    {
      assert ProcessInvariant(w, e);
    }
  }

  lemma {:induction false} InvariantHolds(db: Db, run: seq<Action>)
    ensures Invariant(Runs(Start(db), run))
  {
    if run != [] {
      var n := |run| - 1;
      InvariantHolds(db, run[..n]);
      ActKeepsInvariant(Runs(Start(db), run[..n]), run[n]);
    }
  }

  // ---------------------------------------------------------------- restarts

  /** A step row of the key exists with a hash, and no process is past its guard for the position. */
  ghost predicate Saved(w: World, e: Executor, p: nat) {
    && (exists i | 0 <= i < |w.db.steps| ::
          w.db.steps[i].position == p && w.db.steps[i].key == StepKey(e) && w.db.steps[i].txHash.Some?)
    && !(PastGuard(ProcessOf(w, e)) && ProcessOf(w, e).p == p)
  }

  ghost predicate SentFor(sent: seq<Sent>, p: nat, key: string) {
    exists i | 0 <= i < |sent| :: sent[i].p == p && sent[i].key == key
  }

  /** With a saved hash the second guard stops the executor. */
  lemma {:induction false} SavedStopsGuard(w: World, a: Action, e: Executor, p: nat)
    requires Saved(w, e, p)
    ensures !(PastGuard(ProcessOf(Act(w, a), e)) && ProcessOf(Act(w, a), e).p == p)
  {
    assert !SecondGuardPasses(w.db, e, p);
  }

  lemma {:induction false} SavedStays(w: World, a: Action, e: Executor, p: nat)
    requires Invariant(w) && Saved(w, e, p)
    ensures Saved(Act(w, a), e, p)
    ensures SentFor(Act(w, a).sent, p, StepKey(e)) ==> SentFor(w.sent, p, StepKey(e))
  {
    ActKeepsInvariant(w, a);
    SavedStopsGuard(w, a, e, p);
    var after := Act(w, a).db.steps;
    var i :| 0 <= i < |w.db.steps| && w.db.steps[i].position == p && w.db.steps[i].key == StepKey(e)
             && w.db.steps[i].txHash.Some?;
    assert Evolved(w.db.steps[i], after[i]);
    SendsOnlyPastGuard(w, a, e, p);
  }

  lemma {:induction false} SendsOnlyPastGuard(w: World, a: Action, e: Executor, p: nat)
    requires !(PastGuard(ProcessOf(w, e)) && ProcessOf(w, e).p == p)
    ensures SentFor(Act(w, a).sent, p, StepKey(e)) ==> SentFor(w.sent, p, StepKey(e))
  {
    var sent := Act(w, a).sent;
    if SentFor(sent, p, StepKey(e)) {
      var i :| 0 <= i < |sent| && sent[i].p == p && sent[i].key == StepKey(e);
      assert w.sent[i].p == p && w.sent[i].key == StepKey(e);
    }
  }

  /** After a crash a saved hash is observed, never sent again, whatever happens from then on: crashing with the hash
      committed, before or after the send, leaves the key sent or unsent for good. */
  lemma {:induction false} SavedHashNeverResent(db: Db, run: seq<Action>, later: seq<Action>, e: Executor, p: nat)
    requires Saved(Runs(Start(db), run), e, p)
    ensures var w := Runs(Start(db), run);
            var z := Runs(w, later);
            && Saved(z, e, p)
            && (SentFor(z.sent, p, StepKey(e)) ==> SentFor(w.sent, p, StepKey(e)))
    decreases |later|
  {
    if later != [] {
      var n := |later| - 1;
      SavedHashNeverResent(db, run, later[..n], e, p);
      RunsAppend(Start(db), run, later[..n]);
      InvariantHolds(db, run + later[..n]);
      SavedStays(Runs(Runs(Start(db), run), later[..n]), later[n], e, p);
    }
  }

  lemma {:induction false} RunsAppend(w: World, a: seq<Action>, b: seq<Action>)
    ensures Runs(w, a + b) == Runs(Runs(w, a), b)
  {
    if b == [] {
      assert a + b == a;
    } else {
      var n := |b| - 1;
      assert (a + b)[..|a + b| - 1] == a + b[..n];
      RunsAppend(w, a, b[..n]);
    }
  }
}
