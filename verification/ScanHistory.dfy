/** What the store holds after a session, told by the calls that were made: attempts are counted, and the last write stands. */
module ScanHistory {
  import opened Prelude
  import opened ScanBuffers
  import opened ScanReplay

  /** The call records a result for the row with index n: in time, and of a row that the store knows. */
  predicate RecordsRow(listed: seq<int>, s: Session<Tables>, a: Attempt, n: nat) {
    !a.expired && a.call.CallRecord? && n < |s.state.assets| && Resolve(listed, s.returned, a.call.handle) == Some(n + 1)
  }

  /** How often a session records a result for the row. */
  function Recordings(listed: seq<int>, t: Tables, attempts: seq<Attempt>, n: nat): nat {
    if attempts == [] then 0
    else
      var last := |attempts| - 1;
      Recordings(listed, t, attempts[..last], n)
      + if RecordsRow(listed, Direct(listed, t, attempts[..last]), attempts[last], n) then 1 else 0
  }

  /** The last result recorded for the row. */
  function LastRecording(listed: seq<int>, t: Tables, attempts: seq<Attempt>, n: nat): Option<Call> {
    if attempts == [] then None
    else
      var last := |attempts| - 1;
      if RecordsRow(listed, Direct(listed, t, attempts[..last]), attempts[last], n) then Some(attempts[last].call)
      else LastRecording(listed, t, attempts[..last], n)
  }

  lemma {:induction false} LastIsRecord(listed: seq<int>, t: Tables, attempts: seq<Attempt>, n: nat)
    ensures LastRecording(listed, t, attempts, n).Some? ==> LastRecording(listed, t, attempts, n).value.CallRecord?
  {
    if attempts != [] {
      LastIsRecord(listed, t, attempts[..|attempts| - 1], n);
    }
  }

  /** The last call, made in time, that upserts the asset of the network. */
  function LastUpsert(attempts: seq<Attempt>, scope: Scope, asset: string): Option<Call> {
    if attempts == [] then None
    else
      var a := attempts[|attempts| - 1];
      if !a.expired && a.call.CallUpsert? && Lower(a.call.wallet) == scope.0 && a.call.chainId == scope.1 && Lower(a.call.assetId) == asset
      then Some(a.call) else LastUpsert(attempts[..|attempts| - 1], scope, asset)
  }

  lemma {:induction false} LastIsUpsert(attempts: seq<Attempt>, scope: Scope, asset: string)
    ensures LastUpsert(attempts, scope, asset).Some? ==> LastUpsert(attempts, scope, asset).value.CallUpsert?
  {
    if attempts != [] {
      LastIsUpsert(attempts[..|attempts| - 1], scope, asset);
    }
  }

  /** The row that a new asset starts as. */
  function Started(scope: Scope, asset: string): AssetRow {
    AssetRow(scope, asset, "", "", "pending", 0, None, None)
  }

  /** The row as the calls leave it, given what it was. */
  ghost predicate RowTold(row: AssetRow, was: AssetRow, recordings: nat, record: Option<Call>, upsert: Option<Call>)
    requires record.Some? ==> record.value.CallRecord?
    requires upsert.Some? ==> upsert.value.CallUpsert?
  {
    && row.scope == was.scope && row.asset == was.asset
    && row.attempts == was.attempts + recordings
    && (match record
        case None => row.result == was.result && row.status == was.status && row.retryAfter == was.retryAfter
        case Some(call) => row.result == Some(call.outcome) && row.status == call.status && row.retryAfter == call.retryAfter)
    && (match upsert
        case None => row.kind == was.kind && row.metadata == was.metadata
        case Some(call) => row.kind == call.kind && row.metadata == call.metadata.GetOr("{}"))
  }

  /** What the row was before the session: a new one is pending, without a result. */
  function Before(t: Tables, row: AssetRow, n: nat): AssetRow {
    if n < |t.assets| then t.assets[n] else Started(row.scope, row.asset)
  }

  lemma {:induction false} DirectGrows(listed: seq<int>, t: Tables, attempts: seq<Attempt>)
    requires Unique(t.assets)
    ensures Unique(Direct(listed, t, attempts).state.assets) && KeysKept(t.assets, Direct(listed, t, attempts).state.assets)
  {
    if attempts != [] {
      var last := |attempts| - 1;
      DirectGrows(listed, t, attempts[..last]);
      CallGrows(listed, Direct(listed, t, attempts[..last]), attempts[last]);
    }
  }

  lemma {:induction false} CallGrows(listed: seq<int>, s: Session<Tables>, a: Attempt)
    requires Unique(s.state.assets)
    ensures Unique(DirectCall(listed, s, a).state.assets) && KeysKept(s.state.assets, DirectCall(listed, s, a).state.assets)
  {
    if a.call.CallUpsert? {
      UpsertKeepsUnique(s.state, ScopeOf(a.call.wallet, a.call.chainId), Lower(a.call.assetId), a.call.kind, a.call.metadata);
    }
  }

  /** Every row of the store is told by the session: its attempts are the recorded results, its state is the last one recorded, its
      kind and metadata are those of the last upsert; calls past the deadline or about unknown rows leave no trace. */
  lemma {:induction false} RowIsHistory(listed: seq<int>, t: Tables, attempts: seq<Attempt>, n: nat)
    requires Unique(t.assets) && n < |Direct(listed, t, attempts).state.assets|
    ensures var row := Direct(listed, t, attempts).state.assets[n];
            var record, upsert := LastRecording(listed, t, attempts, n), LastUpsert(attempts, row.scope, row.asset);
            && (record.Some? ==> record.value.CallRecord?) && (upsert.Some? ==> upsert.value.CallUpsert?)
            && (n >= |t.assets| ==> upsert.Some?)
            && RowTold(row, Before(t, row, n), Recordings(listed, t, attempts, n), record, upsert)
  {
    var row := Direct(listed, t, attempts).state.assets[n];
    LastIsRecord(listed, t, attempts, n);
    LastIsUpsert(attempts, row.scope, row.asset);
    if attempts != [] {
      var last := |attempts| - 1;
      var s := Direct(listed, t, attempts[..last]);
      DirectGrows(listed, t, attempts[..last]);
      CallGrows(listed, s, attempts[last]);
      if n < |s.state.assets| {
        RowIsHistory(listed, t, attempts[..last], n);
        CallTells(listed, s, attempts[last], n);
      } else {
        NothingRecordedBefore(listed, t, attempts[..last], n);
        NewRowTells(listed, s, attempts[last], n);
      }
    }
  }

  /** One call changes a row that the store has in the way it says. */
  lemma {:induction false} CallTells(listed: seq<int>, s: Session<Tables>, a: Attempt, n: nat)
    requires Unique(s.state.assets) && n < |s.state.assets|
    ensures n < |DirectCall(listed, s, a).state.assets|
    ensures var was, row := s.state.assets[n], DirectCall(listed, s, a).state.assets[n];
            var named := !a.expired && a.call.CallUpsert? && ScopeOf(a.call.wallet, a.call.chainId) == was.scope && Lower(a.call.assetId) == was.asset;
            row == if RecordsRow(listed, s, a, n) then
                     was.(result := Some(a.call.outcome), status := a.call.status, retryAfter := a.call.retryAfter, attempts := was.attempts + 1)
                   else if named then was.(kind := a.call.kind, metadata := a.call.metadata.GetOr("{}"))
                   else was
  {
    if a.call.CallUpsert? {
      AssetFound(s.state.assets, n);
    }
  }

  lemma {:induction false} NewRowTells(listed: seq<int>, s: Session<Tables>, a: Attempt, n: nat)
    requires |s.state.assets| <= n < |DirectCall(listed, s, a).state.assets|
    ensures !a.expired && a.call.CallUpsert? && n == |s.state.assets| && !RecordsRow(listed, s, a, n)
    ensures DirectCall(listed, s, a).state.assets[n]
            == Started(ScopeOf(a.call.wallet, a.call.chainId), Lower(a.call.assetId)).(kind := a.call.kind, metadata := a.call.metadata.GetOr("{}"))
  {
  }

  lemma {:induction false} NothingRecordedBefore(listed: seq<int>, t: Tables, attempts: seq<Attempt>, n: nat)
    requires Unique(t.assets) && n >= |Direct(listed, t, attempts).state.assets|
    ensures Recordings(listed, t, attempts, n) == 0 && LastRecording(listed, t, attempts, n).None?
  {
    if attempts != [] {
      var last := |attempts| - 1;
      DirectGrows(listed, t, attempts[..last]);
      CallGrows(listed, Direct(listed, t, attempts[..last]), attempts[last]);
      NothingRecordedBefore(listed, t, attempts[..last], n);
    }
  }

  /** An upsert made in time hands out the one row of its network and lower-case asset. */
  lemma {:induction false} UpsertReturnsItsRow(listed: seq<int>, t: Tables, attempts: seq<Attempt>, i: nat)
    requires Unique(t.assets) && i < |attempts| && !attempts[i].expired && attempts[i].call.CallUpsert?
    ensures var d := Direct(listed, t, attempts);
            var c := attempts[i].call;
            && d.returned[i].Some? && 1 <= d.returned[i].value <= |d.state.assets|
            && d.state.assets[d.returned[i].value - 1].scope == (Lower(c.wallet), c.chainId)
            && d.state.assets[d.returned[i].value - 1].asset == Lower(c.assetId)
  {
    var last := |attempts| - 1;
    var s := Direct(listed, t, attempts[..last]);
    DirectGrows(listed, t, attempts[..last]);
    CallGrows(listed, s, attempts[last]);
    if i < last {
      UpsertReturnsItsRow(listed, t, attempts[..last], i);
    } else {
      var c := attempts[i].call;
      UpsertKeepsUnique(s.state, ScopeOf(c.wallet, c.chainId), Lower(c.assetId), c.kind, c.metadata);
    }
  }

  // ---------------------------------------------------------------- discovery and passes

  function LastDiscovery(attempts: seq<Attempt>, scope: Scope): Option<Given> {
    if attempts == [] then None
    else
      var a := attempts[|attempts| - 1];
      if !a.expired && a.call.CallDiscovery? && Lower(a.call.wallet) == scope.0 && a.call.chainId == scope.1 then Some(a.call.given)
      else LastDiscovery(attempts[..|attempts| - 1], scope)
  }

  function LastPass(attempts: seq<Attempt>, scope: Scope): Option<Json> {
    if attempts == [] then None
    else
      var a := attempts[|attempts| - 1];
      if !a.expired && a.call.CallPass? && Lower(a.call.wallet) == scope.0 && a.call.chainId == scope.1 then Some(a.call.block)
      else LastPass(attempts[..|attempts| - 1], scope)
  }

  /** The state says what was given and the defaults for the rest, whatever it was before. */
  ghost predicate SaysGiven(d: Discovery, given: Given) {
    && d.cursor == (match given.cursor case None => None case Some(c) => c)
    && d.history == (match given.history case None => [] case Some(None) => [] case Some(Some(h)) => h)
    && d.status == (match given.status case None => "pending" case Some(s) => s)
    && d.retryAfter == (match given.retryAfter case None => None case Some(r) => r)
    && d.result == (match given.result case None => None case Some(r) => r)
    && d.error == (match given.error case None => None case Some(e) => e)
  }

  /** The discovery state and the pass of each network are the last ones written, and untouched when none was. */
  lemma {:induction false} LastWriteStands(listed: seq<int>, t: Tables, attempts: seq<Attempt>, scope: Scope)
    ensures var after := Direct(listed, t, attempts).state;
            && (match LastDiscovery(attempts, scope)
                case None => (scope in after.discovery <==> scope in t.discovery)
                             && (scope in t.discovery ==> after.discovery[scope] == t.discovery[scope])
                case Some(given) => scope in after.discovery && SaysGiven(after.discovery[scope], given))
            && (match LastPass(attempts, scope)
                case None => (scope in after.passes <==> scope in t.passes)
                             && (scope in t.passes ==> after.passes[scope] == t.passes[scope])
                case Some(block) => scope in after.passes && after.passes[scope] == block)
  {
    if attempts != [] {
      LastWriteStands(listed, t, attempts[..|attempts| - 1], scope);
    }
  }

  /** So for a buffered session too: what its replay leaves is what the worker's calls say. */
  lemma {:induction false} ReplayedRowIsHistory(b: Buffer, t: Tables, scope: Scope, attempts: seq<Attempt>, n: nat)
    requires SnapshotOf(b, t, scope) && OneHome(b.rows, scope, attempts)
    requires n < |Replay(t, Buffered(Ids(b.rows), b, attempts).state.operations).tables.assets|
    ensures var row := Replay(t, Buffered(Ids(b.rows), b, attempts).state.operations).tables.assets[n];
            var listed := Ids(b.rows);
            var record, upsert := LastRecording(listed, t, attempts, n), LastUpsert(attempts, row.scope, row.asset);
            && (record.Some? ==> record.value.CallRecord?) && (upsert.Some? ==> upsert.value.CallUpsert?)
            && RowTold(row, Before(t, row, n), Recordings(listed, t, attempts, n), record, upsert)
  {
    ReplayIsDirect(b, t, scope, attempts);
    RowIsHistory(Ids(b.rows), t, attempts, n);
  }
}
