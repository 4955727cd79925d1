/** The group loss ledger: what each position has cost, counted once, and the adoption of costs that an older
    executor had written to the group alone. */
module LossLedger {
  import opened Prelude
  import opened JournalTables

  // ---------------------------------------------------------------- proved costs of old rows

  function Money(c: Option<Cost>): Option<real> {
    if c.Some? && c.value.amount >= 0.0 then Some(c.value.amount) else None
  }

  function Plus(a: Option<real>, b: Option<real>): Option<real> {
    if a.Some? && b.Some? then Some(a.value + b.value) else None
  }

  /** The prepared route of a position: the dependent bridge if there is one. */
  function PreparedOf(db: Db, p: nat): Option<Payload> {
    if (p, "bridge_prepared") in db.checkpoints then Some(db.checkpoints[(p, "bridge_prepared")])
    else if (p, "prepared") in db.checkpoints then Some(db.checkpoints[(p, "prepared")])
    else None
  }

  function TerminalRemainingCost(db: Db, p: nat): Option<real>
    requires p < |db.positions|
  {
    var row := db.positions[p];
    if row.state != Completed || DepositOf(db, p).None? then None
    else
      var context := DepositOf(db, p).value;
      var prepared := PreparedOf(db, p);
      if context.target.None? || context.target.value.assetId == "" || context.target.value.chainId.None?
         || !CreditVerified(db, p) then None
      else if prepared.None? || !prepared.value.Prepared? || prepared.value.preparedTarget != context.target
              || prepared.value.depositAddress != context.recipient
              || Lower(prepared.value.wallet) != row.wallet then None
      else Money(context.loss)
  }

  /** What one member is proved to have cost, or None when nothing proves it. */
  function SiblingCost(db: Db, q: nat): Option<real>
    requires q < |db.positions|
  {
    var row := db.positions[q];
    var source := SwapOf(db, q);
    if row.accounted.Some? then
      var amount := if row.accounted.value >= 0.0 then row.accounted else None;
      if source.Some? && ProvenanceOf(db, q).None? then
        if row.state != Completed then None else Plus(amount, Money(source.value.loss))
      else amount
    else if row.state == Planned && !HasStep(db.steps, q) && source.None? && DepositOf(db, q).None? then Some(0.0)
    else Plus(TerminalRemainingCost(db, q), if source.Some? then Money(source.value.loss) else Some(0.0))
  }

  /** The proved cost of the members of a group among the first n positions, without p. */
  function OthersCost(db: Db, g: nat, p: nat, n: nat): Option<real>
    requires n <= |db.positions|
  {
    if n == 0 then Some(0.0)
    else
      var rest := OthersCost(db, g, p, n - 1);
      if db.positions[n - 1].group == Some(g) && n - 1 != p then Plus(rest, SiblingCost(db, n - 1)) else rest
  }

  // ---------------------------------------------------------------- decompositions

  predicate Fits(charged: bool, remaining: real, others: real, source: real, paid: real, mustCharge: bool) {
    others + remaining + (if charged then source else 0.0) == paid && (mustCharge ==> charged)
  }

  function Decompositions(options: seq<real>, others: real, source: real, paid: real,
        mustCharge: bool): (r: seq<(bool, real)>)
    ensures forall d :: d in r <==> d.1 in options && Fits(d.0, d.1, others, source, paid, mustCharge)
  {
    if options == [] then []
    else
      var o := options[0];
      (if Fits(false, o, others, source, paid, mustCharge) then [(false, o)] else [])
      + (if Fits(true, o, others, source, paid, mustCharge) then [(true, o)] else [])
      + Decompositions(options[1..], others, source, paid, mustCharge)
  }

  /** The values a position's own dependent cost may have had. */
  function RemainingOptions(db: Db, p: nat): Option<seq<real>>
    requires p < |db.positions|
  {
    var row := db.positions[p];
    if row.accounted.Some? then (if row.accounted.value >= 0.0 then Some([row.accounted.value]) else None)
    else if DepositOf(db, p).Some? then
      var loss := Money(DepositOf(db, p).value.loss);
      if loss.None? then None else if loss.value == 0.0 then Some([0.0]) else Some([0.0, loss.value])
    else if exists i | 0 <= i < |db.steps| :: db.steps[i].position == p && !LikePrefix("swap_to_native:", db.steps[i].key)
    then None
    else Some([0.0])
  }

  /** The saved rows show that the source fee was already charged to the group. */
  predicate ChargedProof(db: Db, p: nat, result: Conversion)
    requires p < |db.positions|
  {
    var row := db.positions[p];
    || (row.state == Converted && row.actualAsset == Some(result.asset)
        && result.asText && row.actualBalance == Some(result.balance))
    || exists i | 0 <= i < |db.events| ::
         db.events[i].position == p && db.events[i].kind == RequoteAfterSwap && db.events[i].asset == result.asset
  }

  datatype Baseline = Baseline(group: nat, paid: real, others: real, source: real, charged: bool, remaining: real)

  /** The one exact decomposition of the group's total, if there is exactly one. */
  function LegacyBaseline(db: Db, p: nat, result: Conversion): (r: Option<Baseline>)
    ensures r.Some? ==> p < |db.positions| && r.value.group < |db.groups|
                        && db.positions[p].group == Some(r.value.group)
  {
    if p >= |db.positions| || db.positions[p].group.None? || db.positions[p].group.value >= |db.groups| then None
    else
      var g := db.positions[p].group.value;
      var source := Money(result.loss);
      var others := OthersCost(db, g, p, |db.positions|);
      var options := RemainingOptions(db, p);
      if source.None? || db.groups[g].realized < 0.0 || others.None? || options.None?
         || exists q | q in Members(db.positions, g) :: db.positions[q].wallet != db.positions[p].wallet
      then None
      else
        var ds := Decompositions(options.value, others.value, source.value, db.groups[g].realized,
                                 ChargedProof(db, p, result));
        if |ds| != 1 then None
        else Some(Baseline(g, db.groups[g].realized, others.value, source.value, ds[0].0, ds[0].1))
  }

  function Adopt(db: Db, p: nat, result: Conversion): Option<Db> {
    var proof := LegacyBaseline(db, p, result);
    if proof.None? then None
    else
      var b := proof.value;
      var cumulative := b.source + b.remaining;
      var after := b.paid + (if b.charged then 0.0 else b.source);
      var deposit := DepositOf(db, p);
      var legacy := if deposit.Some? then deposit.value.loss else None;
      if deposit.Some? && legacy.None? then None
      else
        var saved := if deposit.None? then db.checkpoints
                     else db.checkpoints[(p, "route_deposit") :=
                                           deposit.value.(loss := Some(Cost(legacy.value.amount + b.source, false)))];
        Some(db.(positions := db.positions[p := db.positions[p].(accounted := Some(cumulative))],
                 groups := db.groups[b.group := db.groups[b.group].(realized := after)],
                 checkpoints := saved[(p, "source_cost_provenance") :=
                                        SourceCost(Provenance(LegacyAdoption, b.source, cumulative, after, legacy))]))
  }

  // ---------------------------------------------------------------- counting a cost once

  /** Raises a position's accounted cost to `loss` and its group's total by the same difference. */
  function AccountCumulative(db: Db, p: nat, loss: real): Option<Db> {
    if p >= |db.positions| || db.positions[p].group.None? || db.positions[p].group.value >= |db.groups| then None
    else
      var g := db.positions[p].group.value;
      var previous := db.positions[p].accounted.GetOr(0.0);
      var current := MaxReal(previous, loss);
      Some(db.(positions := db.positions[p := db.positions[p].(accounted := Some(current))],
               groups := db.groups[g := db.groups[g].(realized := db.groups[g].realized + current - previous)]))
  }

  /** The adopted tables, and the reported loss restated on top of the source cost when it is the old one. */
  function Adopted(db: Db, p: nat, loss: Cost): Option<(Db, real)> {
    if SwapOf(db, p).None? || ProvenanceOf(db, p).Some? then Some((db, loss.amount))
    else
      var db1 := Adopt(db, p, SwapOf(db, p).value);
      if db1.None? || ProvenanceOf(db1.value, p).None? then None
      else
        var proof := ProvenanceOf(db1.value, p).value;
        Some((db1.value, if proof.legacyRemaining == Some(loss) then loss.amount + proof.source else loss.amount))
  }

  function AccountPositionLoss(db: Db, p: nat, loss: real): Option<Db> {
    if loss < 0.0 then None
    else if SwapOf(db, p).Some? then
      var adopted := Adopted(db, p, Cost(loss, true));
      if adopted.None? then None else AccountCumulative(adopted.value.0, p, adopted.value.1)
    else if p >= |db.positions| || db.positions[p].group.None? || db.positions[p].group.value >= |db.groups| then None
    else if db.positions[p].accounted.Some? then Some(db)
    else
      var g := db.positions[p].group.value;
      Some(db.(positions := db.positions[p := db.positions[p].(accounted := Some(loss))],
               groups := db.groups[g := db.groups[g].(realized := db.groups[g].realized + loss)]))
  }

  predicate ValidConversion(result: Conversion) {
    && result.loss.Some? && result.loss.value.amount >= 0.0
    && result.confirmed && result.asset == "native" && result.balance > 0
  }

  function CheckpointSourceConversion(db: Db, p: nat, result: Conversion): Option<Db> {
    if !ValidConversion(result) then None
    else
      var existing := SwapOf(db, p);
      var adopted := if existing.Some? && ProvenanceOf(db, p).None? then Adopt(db, p, existing.value) else Some(db);
      if adopted.None? || (existing.Some? && existing.value != result) then None
      else
        var loss := result.loss.value.amount;
        var db1 := if existing.Some? then adopted.value
                   else SaveCheckpoint(adopted.value, p, "swap_result", SwapResult(result));
        var db2 := AccountCumulative(db1, p, loss);
        if db2.None? then None
        else
          var total := db2.value.groups[db2.value.positions[p].group.value].realized;
          var db3 := if existing.Some? then db2.value
                     else SaveCheckpoint(db2.value, p, "source_cost_provenance",
                                         SourceCost(Provenance(AtomicConversion, loss, loss, total, None)));
          Some(db3.(positions := db3.positions[p := db3.positions[p].(state := Converted,
                                                                      actualAsset := Some(result.asset),
                                                                      actualBalance := Some(result.balance))]))
  }

  // ---------------------------------------------------------------- conservation

  /** The accounted costs of a group's members; a member without one counts zero. */
  function SumAccounted(positions: seq<Position>, g: nat): real {
    if positions == [] then 0.0
    else
      var n := |positions| - 1;
      SumAccounted(positions[..n], g)
      + (if positions[n].group == Some(g) then positions[n].accounted.GetOr(0.0) else 0.0)
  }

  lemma {:induction false} SumAfterUpdate(positions: seq<Position>, p: nat, row: Position, g: nat)
    requires p < |positions| && row.group == positions[p].group
    ensures SumAccounted(positions[p := row], g)
            == SumAccounted(positions, g)
               + (if row.group == Some(g) then row.accounted.GetOr(0.0) - positions[p].accounted.GetOr(0.0) else 0.0)
  {
    var n := |positions| - 1;
    var updated := positions[p := row];
    if p < n {
      assert updated[..n] == positions[..n][p := row];
      SumAfterUpdate(positions[..n], p, row, g);
    } else {
      assert updated[..n] == positions[..n];
    }
  }

  datatype LedgerOp =
    | Account(p: nat, loss: real)
    | Convert(p: nat, result: Conversion)

  function ApplyLedger(db: Db, op: LedgerOp): Db {
    var after := match op
                 case Account(p, loss) => AccountPositionLoss(db, p, loss)
                 case Convert(p, result) => CheckpointSourceConversion(db, p, result);
    after.GetOr(db)
  }

  function RunLedger(db: Db, ops: seq<LedgerOp>): Db
    decreases |ops|
  {
    if ops == [] then db else RunLedger(ApplyLedger(db, ops[0]), ops[1..])
  }

  /** The operation would have to adopt an old row. */
  predicate NeedsAdoption(db: Db, op: LedgerOp) {
    SwapOf(db, op.p).Some? && ProvenanceOf(db, op.p).None?
  }

  ghost predicate NoAdoption(db: Db, ops: seq<LedgerOp>)
    decreases |ops|
  {
    ops == [] || (!NeedsAdoption(db, ops[0]) && NoAdoption(ApplyLedger(db, ops[0]), ops[1..]))
  }

  /** The part of a group's total that no member accounts for. */
  function Unattributed(db: Db, g: nat): real
    requires g < |db.groups|
  {
    db.groups[g].realized - SumAccounted(db.positions, g)
  }

  lemma {:induction false} AccountCumulativeConserves(db: Db, p: nat, loss: real, g: nat)
    requires AccountCumulative(db, p, loss).Some? && g < |db.groups|
    ensures var after := AccountCumulative(db, p, loss).value;
            |after.groups| == |db.groups| && Unattributed(after, g) == Unattributed(db, g)
  {
    SumAfterUpdate(db.positions, p, AccountCumulative(db, p, loss).value.positions[p], g);
  }

  lemma {:induction false} LedgerStepConserves(db: Db, op: LedgerOp, g: nat)
    requires !NeedsAdoption(db, op) && g < |db.groups|
    ensures |ApplyLedger(db, op).groups| == |db.groups|
    ensures Unattributed(ApplyLedger(db, op), g) == Unattributed(db, g)
  {
    match op
    case Account(p, loss) =>
      if AccountPositionLoss(db, p, loss).Some? {
        if SwapOf(db, p).Some? {
          AccountCumulativeConserves(db, p, loss, g);
        } else {
          SumAfterUpdate(db.positions, p, ApplyLedger(db, op).positions[p], g);
        }
      }
    case Convert(p, result) =>
      if CheckpointSourceConversion(db, p, result).Some? {
        var loss := result.loss.value.amount;
        var db1 := if SwapOf(db, p).Some? then db else SaveCheckpoint(db, p, "swap_result", SwapResult(result));
        AccountCumulativeConserves(db1, p, loss, g);
        var db2 := AccountCumulative(db1, p, loss).value;
        SumAfterUpdate(db2.positions, p, ApplyLedger(db, op).positions[p], g);
      }
  }

  /** Outside adoption, no sequence of reports changes the unattributed part of any group's total. */
  lemma {:induction false} LedgerConserves(db: Db, ops: seq<LedgerOp>, g: nat)
    requires NoAdoption(db, ops) && g < |db.groups|
    ensures |RunLedger(db, ops).groups| == |db.groups|
    ensures Unattributed(RunLedger(db, ops), g) == Unattributed(db, g)
    decreases |ops|
  {
    if ops != [] {
      LedgerStepConserves(db, ops[0], g);
      LedgerConserves(ApplyLedger(db, ops[0]), ops[1..], g);
    }
  }

  // ---------------------------------------------------------------- reports in any order, any number of times

  datatype Report = Report(p: nat, loss: real)

  function RunReports(db: Db, rs: seq<Report>): Db
    decreases |rs|
  {
    if rs == [] then db else RunReports(AccountPositionLoss(db, rs[0].p, rs[0].loss).GetOr(db), rs[1..])
  }

  /** The swap result of p is recorded with its provenance, and p has a group. */
  predicate Settled(db: Db, p: nat) {
    && SwapOf(db, p).Some? && ProvenanceOf(db, p).Some?
    && p < |db.positions| && db.positions[p].group.Some? && db.positions[p].group.value < |db.groups|
  }

  ghost predicate AllSettled(db: Db, rs: seq<Report>) {
    forall r | r in rs :: Settled(db, r.p) && r.loss >= 0.0
  }

  /** What position q should have accounted for after the reports: the greatest of what it had and what was
      reported for it. */
  ghost predicate Counts(db: Db, rs: seq<Report>, q: nat, accounted: Option<real>)
    requires q < |db.positions|
  {
    var before := db.positions[q].accounted.GetOr(0.0);
    if forall r | r in rs :: r.p != q then accounted == db.positions[q].accounted
    else
      && accounted.Some?
      && before <= accounted.value
      && (forall r | r in rs && r.p == q :: r.loss <= accounted.value)
      && (accounted.value == before || exists r | r in rs && r.p == q :: r.loss == accounted.value)
  }

  /** Everything but accounted costs and group totals is as it was. */
  ghost predicate SameRest(a: Db, b: Db) {
    && a.steps == b.steps && a.events == b.events && a.checkpoints == b.checkpoints
    && |a.positions| == |b.positions| && |a.groups| == |b.groups|
    && (forall q | 0 <= q < |a.positions| :: a.positions[q] == b.positions[q].(accounted := a.positions[q].accounted))
    && (forall g | 0 <= g < |a.groups| :: a.groups[g] == b.groups[g].(realized := a.groups[g].realized))
  }

  lemma {:induction false} ReportsCount(db: Db, rs: seq<Report>)
    requires AllSettled(db, rs)
    ensures var after := RunReports(db, rs);
            SameRest(after, db)
            && (forall q | 0 <= q < |db.positions| :: Counts(db, rs, q, after.positions[q].accounted))
            && (forall g | 0 <= g < |db.groups| :: Unattributed(after, g) == Unattributed(db, g))
    decreases |rs|
  {
    if rs != [] {
      var r, rest := rs[0], rs[1..];
      assert rs == [r] + rest;
      assert r in rs && forall x | x in rest :: x in rs;
      var db1 := AccountPositionLoss(db, r.p, r.loss).value;
      assert SameRest(db1, db);
      forall x | x in rest ensures Settled(db1, x.p) {
        assert Settled(db, x.p);
      }
      ReportsCount(db1, rest);
      var after := RunReports(db, rs);
      forall g | 0 <= g < |db.groups| ensures Unattributed(after, g) == Unattributed(db, g) {
        AccountCumulativeConserves(db, r.p, r.loss, g);
        assert Unattributed(after, g) == Unattributed(db1, g);
      }
      forall q | 0 <= q < |db.positions| ensures Counts(db, rs, q, after.positions[q].accounted) {
        assert Counts(db1, rest, q, after.positions[q].accounted);
        if q == r.p {
          CountsOneMore(db, db1, rs, q, after.positions[q].accounted);
        }
      }
    }
  }

  lemma {:induction false} CountsOneMore(db: Db, db1: Db, rs: seq<Report>, q: nat, accounted: Option<real>)
    requires rs != [] && rs[0].p == q && q < |db.positions| && q < |db1.positions|
    requires db1.positions[q].accounted == Some(MaxReal(db.positions[q].accounted.GetOr(0.0), rs[0].loss))
    requires Counts(db1, rs[1..], q, accounted)
    ensures Counts(db, rs, q, accounted)
  {
    assert rs == [rs[0]] + rs[1..];
    assert rs[0] in rs;
    assert forall x | x in rs[1..] :: x in rs;
  }

  lemma {:induction false} CountsDetermine(db: Db, a: seq<Report>, b: seq<Report>, q: nat, x: Option<real>,
        y: Option<real>)
    requires q < |db.positions| && Counts(db, a, q, x) && Counts(db, b, q, y)
    requires ReportsAtMost(a, b) && ReportsAtMost(b, a)
    ensures x == y
  {
    if r :| r in a && r.p == q {
      assert Reached(b, r);
      CountsAtMost(db, a, b, q, x, y);
      CountsAtMost(db, b, a, q, y, x);
    } else {
      forall r | r in b ensures r.p != q {
        assert Reached(a, r);
      }
    }
  }

  lemma {:induction false} CountsAtMost(db: Db, a: seq<Report>, b: seq<Report>, q: nat, x: Option<real>, y: Option<real>)
    requires q < |db.positions| && Counts(db, a, q, x) && Counts(db, b, q, y)
    requires ReportsAtMost(a, b) && exists r :: r in a && r.p == q
    ensures x.Some? && y.Some? && x.value <= y.value
  {
    var r :| r in a && r.p == q;
    assert Reached(b, r);
    if x.value != db.positions[q].accounted.GetOr(0.0) {
      var top :| top in a && top.p == q && top.loss == x.value;
      assert Reached(b, top);
      var cap :| cap in b && cap.p == q && top.loss <= cap.loss;
      assert cap.loss <= y.value;
    }
  }

  lemma {:induction false} SumSame(a: seq<Position>, b: seq<Position>, g: nat)
    requires |a| == |b| && forall q | 0 <= q < |a| :: a[q].group == b[q].group && a[q].accounted == b[q].accounted
    ensures SumAccounted(a, g) == SumAccounted(b, g)
  {
    if a != [] {
      SumSame(a[..|a| - 1], b[..|b| - 1], g);
    }
  }

  /** Some report for the same position is at least as great. */
  ghost predicate Reached(rs: seq<Report>, r: Report) {
    exists s | s in rs :: s.p == r.p && r.loss <= s.loss
  }

  /** For every position the greatest loss in `a` is at most the greatest in `b`. */
  ghost predicate ReportsAtMost(a: seq<Report>, b: seq<Report>) {
    forall r {:trigger Reached(b, r)} | r in a :: Reached(b, r)
  }

  /** Once swap results are recorded, the journal after a batch of reports depends only on the greatest loss reported for each
      position: not on the order, on repetition, or on any smaller report. */
  lemma {:induction false} ReportOrderIrrelevant(db: Db, a: seq<Report>, b: seq<Report>)
    requires AllSettled(db, a) && AllSettled(db, b)
    requires ReportsAtMost(a, b) && ReportsAtMost(b, a)
    ensures RunReports(db, a) == RunReports(db, b)
  {
    ReportsCount(db, a);
    ReportsCount(db, b);
    var x, y := RunReports(db, a), RunReports(db, b);
    forall q | 0 <= q < |db.positions| ensures x.positions[q] == y.positions[q] {
      CountsDetermine(db, a, b, q, x.positions[q].accounted, y.positions[q].accounted);
    }
    forall g | 0 <= g < |db.groups| ensures x.groups[g] == y.groups[g] {
      SumSame(x.positions, y.positions, g);
      assert Unattributed(x, g) == Unattributed(y, g);
    }
    assert x.positions == y.positions && x.groups == y.groups;
  }

  // ---------------------------------------------------------------- adoption

  /** Adoption needs, and uses, the only pair of (charged, remaining) that explains the group's total. */
  lemma {:induction false} AdoptionUsesTheOnlyDecomposition(db: Db, p: nat, result: Conversion, charged: bool,
        remaining: real)
    requires Adopt(db, p, result).Some?
    requires var b := LegacyBaseline(db, p, result).value;
             && remaining in RemainingOptions(db, p).value
             && Fits(charged, remaining, b.others, b.source, b.paid, ChargedProof(db, p, result))
    ensures var b := LegacyBaseline(db, p, result).value;
            var after := Adopt(db, p, result).value;
            && after.positions[p].accounted == Some(b.source + remaining)
            && after.groups[b.group].realized == b.paid + (if charged then 0.0 else b.source)
  {
    var b := LegacyBaseline(db, p, result).value;
    var ds := Decompositions(RemainingOptions(db, p).value, b.others, b.source, b.paid, ChargedProof(db, p, result));
    assert (charged, remaining) in ds;
    assert ds[0] in ds && |ds| == 1;
  }

  ghost predicate Distinct<T>(s: seq<T>) {
    forall i, j | 0 <= i < j < |s| :: s[i] != s[j]
  }

  /** (c, r) explains the total and nothing else does. */
  ghost predicate OnlyFit(options: seq<real>, others: real, source: real, paid: real, mustCharge: bool, c: bool,
        r: real) {
    && r in options && Fits(c, r, others, source, paid, mustCharge)
    && forall c', r' | r' in options && Fits(c', r', others, source, paid, mustCharge) :: c' == c && r' == r
  }

  /** Over distinct options the search finds one decomposition exactly when one and only one exists. */
  lemma {:induction false} OneFoundIffOneExists(options: seq<real>, others: real, source: real, paid: real,
        mustCharge: bool)
    requires Distinct(options)
    ensures |Decompositions(options, others, source, paid, mustCharge)| == 1
            <==> exists c, r :: OnlyFit(options, others, source, paid, mustCharge, c, r)
  {
    var ds := Decompositions(options, others, source, paid, mustCharge);
    DecompositionsDistinct(options, others, source, paid, mustCharge);
    if |ds| == 1 {
      var d := ds[0];
      assert d in ds;
      forall c', r' | r' in options && Fits(c', r', others, source, paid, mustCharge) ensures c' == d.0 && r' == d.1 {
        assert (c', r') in ds;
      }
      assert OnlyFit(options, others, source, paid, mustCharge, d.0, d.1);
    }
    forall c, r | OnlyFit(options, others, source, paid, mustCharge, c, r) ensures |ds| == 1 {
      OnlyFitIsAlone(options, others, source, paid, mustCharge, c, r);
    }
  }

  lemma {:induction false} OnlyFitIsAlone(options: seq<real>, others: real, source: real, paid: real, mustCharge: bool,
                                          c: bool, r: real)
    requires Distinct(options) && OnlyFit(options, others, source, paid, mustCharge, c, r)
    ensures |Decompositions(options, others, source, paid, mustCharge)| == 1
  {
    var ds := Decompositions(options, others, source, paid, mustCharge);
    DecompositionsDistinct(options, others, source, paid, mustCharge);
    assert (c, r) in ds;
    forall i | 0 <= i < |ds| ensures ds[i] == (c, r) {
      assert ds[i] in ds;
    }
    assert ds[0] == ds[|ds| - 1];
  }

  /** With the rows readable and of one wallet, an old row is adopted exactly when its group's total has one and
      only one explanation. */
  lemma {:induction false} AdoptedIffUnambiguous(db: Db, p: nat, result: Conversion)
    requires p < |db.positions| && db.positions[p].group.Some? && db.positions[p].group.value < |db.groups|
    requires var g := db.positions[p].group.value;
             && Money(result.loss).Some? && db.groups[g].realized >= 0.0
             && OthersCost(db, g, p, |db.positions|).Some? && RemainingOptions(db, p).Some?
             && (forall q | q in Members(db.positions, g) :: db.positions[q].wallet == db.positions[p].wallet)
             && (DepositOf(db, p).Some? ==> DepositOf(db, p).value.loss.Some?)
    ensures var g := db.positions[p].group.value;
            Adopt(db, p, result).Some?
            <==> exists c, r :: OnlyFit(RemainingOptions(db, p).value, OthersCost(db, g, p, |db.positions|).value,
                                        Money(result.loss).value, db.groups[g].realized, ChargedProof(db, p, result), c, r)
  {
    var g := db.positions[p].group.value;
    OneFoundIffOneExists(RemainingOptions(db, p).value, OthersCost(db, g, p, |db.positions|).value,
                         Money(result.loss).value, db.groups[g].realized, ChargedProof(db, p, result));
  }

  lemma {:induction false} DecompositionsDistinct(options: seq<real>, others: real, source: real, paid: real,
        mustCharge: bool)
    requires Distinct(options)
    ensures Distinct(Decompositions(options, others, source, paid, mustCharge))
  {
    if options != [] {
      var o := options[0];
      var heads := (if Fits(false, o, others, source, paid, mustCharge) then [(false, o)] else [])
                   + (if Fits(true, o, others, source, paid, mustCharge) then [(true, o)] else []);
      var rest := Decompositions(options[1..], others, source, paid, mustCharge);
      DecompositionsDistinct(options[1..], others, source, paid, mustCharge);
      forall i | 0 <= i < |rest| ensures rest[i].1 != options[0] {
        assert rest[i] in rest;
      }
      assert Distinct(heads + rest);
    }
  }

  /** The proved cost of every member of a group. */
  function ProvedTotal(db: Db, g: nat): Option<real> {
    OthersCost(db, g, |db.positions|, |db.positions|)
  }

  lemma {:induction false} OthersCostKept(a: Db, b: Db, g: nat, p: nat, n: nat)
    requires n <= |a.positions| == |b.positions|
    requires forall q | 0 <= q < n :: a.positions[q].group == b.positions[q].group
    requires forall q | 0 <= q < n && q != p :: SiblingCost(a, q) == SiblingCost(b, q)
    ensures OthersCost(a, g, p, n) == OthersCost(b, g, p, n)
  {
    if n > 0 {
      OthersCostKept(a, b, g, p, n - 1);
    }
  }

  /** Leaving p out of the sum and adding it back. */
  lemma {:induction false} TotalIsOthersPlusOwn(db: Db, g: nat, p: nat, n: nat)
    requires n <= |db.positions| && p < |db.positions| && db.positions[p].group == Some(g)
    ensures OthersCost(db, g, |db.positions|, n)
            == if p < n then Plus(OthersCost(db, g, p, n), SiblingCost(db, p)) else OthersCost(db, g, p, n)
  {
    if n > 0 {
      TotalIsOthersPlusOwn(db, g, p, n - 1);
    }
  }

  /** Two journals that agree on one position and all its rows prove the same cost for it. */
  ghost predicate AgreeOn(a: Db, b: Db, q: nat) {
    && q < |a.positions| && q < |b.positions| && a.positions[q] == b.positions[q] && a.steps == b.steps
    && (forall key: string :: (q, key) in a.checkpoints <==> (q, key) in b.checkpoints)
    && (forall key: string | (q, key) in a.checkpoints :: a.checkpoints[(q, key)] == b.checkpoints[(q, key)])
  }

  lemma {:induction false} AgreeingCost(a: Db, b: Db, q: nat)
    requires AgreeOn(a, b, q)
    ensures SiblingCost(a, q) == SiblingCost(b, q)
  {
    assert SwapOf(a, q) == SwapOf(b, q) && ProvenanceOf(a, q) == ProvenanceOf(b, q);
    assert DepositOf(a, q) == DepositOf(b, q) && PreparedOf(a, q) == PreparedOf(b, q);
    assert CreditVerified(a, q) == CreditVerified(b, q);
  }

  lemma {:induction false} AdoptionSettlesTotal(db: Db, p: nat, result: Conversion)
    requires Adopt(db, p, result).Some?
    ensures var b := LegacyBaseline(db, p, result).value;
            var after := Adopt(db, p, result).value;
            && after.groups[b.group].realized in {b.paid, b.paid + b.source}
            && OthersCost(db, b.group, p, |db.positions|) == Some(b.others)
            && 0.0 <= b.source && 0.0 <= b.remaining
            && after.groups[b.group].realized == b.others + b.source + b.remaining
  {
    var b := LegacyBaseline(db, p, result).value;
    var ds := Decompositions(RemainingOptions(db, p).value, b.others, b.source, b.paid, ChargedProof(db, p, result));
    assert ds[0] in ds;
  }

  lemma {:induction false} AdoptionKeepsOthers(db: Db, p: nat, result: Conversion)
    requires Adopt(db, p, result).Some?
    ensures var b := LegacyBaseline(db, p, result).value;
            var after := Adopt(db, p, result).value;
            OthersCost(after, b.group, p, |after.positions|) == OthersCost(db, b.group, p, |db.positions|)
  {
    var b := LegacyBaseline(db, p, result).value;
    var after := Adopt(db, p, result).value;
    forall q | 0 <= q < |db.positions| && q != p ensures SiblingCost(after, q) == SiblingCost(db, q) {
      AgreeingCost(after, db, q);
    }
    OthersCostKept(after, db, b.group, p, |db.positions|);
  }

  /** The adopted position proves its new cumulative cost. */
  lemma {:induction false} AdoptedProves(db: Db, p: nat, result: Conversion)
    requires Adopt(db, p, result).Some?
    ensures var b := LegacyBaseline(db, p, result).value;
            var after := Adopt(db, p, result).value;
            && p < |after.positions| && after.positions[p].accounted == Some(b.source + b.remaining)
            && ProvenanceOf(after, p).Some? && SiblingCost(after, p) == Some(b.source + b.remaining)
  {
    AdoptionSettlesTotal(db, p, result);
  }

  lemma {:induction false} AdoptionProvesTotal(db: Db, p: nat, result: Conversion)
    requires Adopt(db, p, result).Some?
    ensures var b := LegacyBaseline(db, p, result).value;
            ProvedTotal(Adopt(db, p, result).value, b.group) == Plus(OthersCost(db, b.group, p, |db.positions|), Some(b.source + b.remaining))
  {
    var b := LegacyBaseline(db, p, result).value;
    var after := Adopt(db, p, result).value;
    AdoptionKeepsOthers(db, p, result);
    AdoptedProves(db, p, result);
    TotalIsOthersPlusOwn(after, b.group, p, |db.positions|);
  }

  /** Adoption balances the group: afterwards its realised loss is exactly the proved cost of all its members, the
      adopted one included; it rose by nothing or by the source cost, and the adopted row is never adopted again. */
  lemma {:induction false} AdoptionBalancesGroup(db: Db, p: nat, result: Conversion)
    requires Adopt(db, p, result).Some?
    ensures var b := LegacyBaseline(db, p, result).value;
            var after := Adopt(db, p, result).value;
            && after.groups[b.group].realized in {b.paid, b.paid + b.source}
            && OthersCost(db, b.group, p, |db.positions|) == Some(b.others)
            && after.groups[b.group].realized == b.others + after.positions[p].accounted.GetOr(0.0)
            && ProvedTotal(after, b.group) == Some(after.groups[b.group].realized)
            && ProvenanceOf(after, p).Some?
            && (forall g | 0 <= g < |db.groups| && g != b.group :: after.groups[g] == db.groups[g])
  {
    var b := LegacyBaseline(db, p, result).value;
    var after := Adopt(db, p, result).value;
    AdoptionSettlesTotal(db, p, result);
    AdoptedProves(db, p, result);
    AdoptionProvesTotal(db, p, result);
  }

  /** Reporting the old remaining cost after adoption accounts for it on top of the source cost, whichever
      decomposition the ledger had. */
  lemma {:induction false} LegacyReportLands(db: Db, p: nat, loss: real)
    requires SwapOf(db, p).Some? && ProvenanceOf(db, p).None?
    requires p < |db.positions| && db.positions[p].accounted.None?
    requires DepositOf(db, p).Some? && DepositOf(db, p).value.loss == Some(Cost(loss, true))
    requires AccountPositionLoss(db, p, loss).Some?
    ensures var b := LegacyBaseline(db, p, SwapOf(db, p).value).value;
            var after := AccountPositionLoss(db, p, loss).value;
            && after.positions[p].accounted == Some(b.source + loss)
            && after.groups[b.group].realized == b.others + b.source + loss
  {
    var result := SwapOf(db, p).value;
    AdoptionBalancesGroup(db, p, result);
    var b := LegacyBaseline(db, p, result).value;
    var ds := Decompositions(RemainingOptions(db, p).value, b.others, b.source, b.paid, ChargedProof(db, p, result));
    assert ds[0] in ds;
  }

  lemma {:induction false} ProvenanceStays(db: Db, op: LedgerOp, p: nat)
    requires ProvenanceOf(db, p).Some?
    ensures ProvenanceOf(ApplyLedger(db, op), p).Some?
  {
    match op
    case Account(q, loss) =>
    case Convert(q, result) =>
  }

  /** A position's old swap cost is adopted at most once: from then on no report and no conversion, for any position and in
      any number, makes it adoptable again. */
  lemma {:induction false} AdoptedAtMostOnce(db: Db, p: nat, result: Conversion, ops: seq<LedgerOp>, op: LedgerOp)
    requires Adopt(db, p, result).Some? && op.p == p
    ensures !NeedsAdoption(RunLedger(Adopt(db, p, result).value, ops), op)
  {
    AdoptedProves(db, p, result);
    ProvenanceStaysOverRun(Adopt(db, p, result).value, ops, p);
  }

  lemma {:induction false} ProvenanceStaysOverRun(db: Db, ops: seq<LedgerOp>, p: nat)
    requires ProvenanceOf(db, p).Some?
    ensures ProvenanceOf(RunLedger(db, ops), p).Some?
    decreases |ops|
  {
    if ops != [] {
      ProvenanceStays(db, ops[0], p);
      ProvenanceStaysOverRun(ApplyLedger(db, ops[0]), ops[1..], p);
    }
  }
}
