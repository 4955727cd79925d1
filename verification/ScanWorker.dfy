/** The asset store and the scan buffer as the mutable objects they are. */
module ScanWorkers {
  import opened Prelude
  import opened ScanBuffers

  class Store {
    var assets: seq<AssetRow>
    var discovery: map<Scope, Discovery>
    var passes: map<Scope, Json>

    function State(): Tables
      reads this
    {
      Tables(assets, discovery, passes)
    }

    constructor ()
      ensures State() == Tables([], map[], map[])
    {
      assets, discovery, passes := [], map[], map[];
    }

    method UpsertAsset(wallet: string, chainId: int, assetId: string, kind: string,
          metadata: Option<Json>) returns (id: int)
      modifies this
      ensures (State(), id) == StoreUpsert(old(State()), ScopeOf(wallet, chainId), Lower(assetId), kind, metadata)
    {
      var text := metadata.GetOr(EMPTY_OBJECT);
      var found := FindAsset(assets, ScopeOf(wallet, chainId), Lower(assetId));
      if found.Some? {
        assets := assets[found.value := assets[found.value].(kind := kind, metadata := text)];
        id := found.value + 1;
      } else {
        assets := assets + [AssetRow(ScopeOf(wallet, chainId), Lower(assetId), kind, text, "pending", 0, None, None)];
        id := |assets|;
      }
    }

    method RecordAsset(id: int, result: Json, status: string, retryAfter: Option<real>) returns (known: bool)
      modifies this
      ensures StoreRecord(old(State()), id, result, status, retryAfter) == if known then Ok(State()) else Err(UnknownRow)
      ensures !known ==> State() == old(State())
    {
      known := 1 <= id <= |assets|;
      if known {
        var row := assets[id - 1];
        assets := assets[id - 1 := row.(result := Some(result), status := status, attempts := row.attempts + 1, retryAfter := retryAfter)];
      }
    }

    method WriteDiscoveryState(wallet: string, chainId: int, given: Given)
      modifies this
      ensures State() == StoreDiscovery(old(State()), ScopeOf(wallet, chainId), given)
    {
      var cursor, status := given.cursor.GetOr(None), given.status.GetOr("pending");
      var history := given.history.GetOr(None).GetOr([]);
      discovery := discovery[ScopeOf(wallet, chainId) := Discovery(cursor, history, status, given.retryAfter.GetOr(None),
                                                                   given.result.GetOr(None), given.error.GetOr(None))];
    }

    method SavePass(wallet: string, chainId: int, block: Json)
      modifies this
      ensures State() == StorePass(old(State()), ScopeOf(wallet, chainId), block)
    {
      passes := passes[ScopeOf(wallet, chainId) := block];
    }

    /** A worker's attempt made on the store: what a step of a direct session does. */
    method Perform(a: Attempt, listed: seq<int>, returned: seq<Option<int>>) returns (id: Option<int>)
      modifies this
      ensures Session(State(), returned + [id]) == DirectCall(listed, Session(old(State()), returned), a)
    {
      id := None;
      if a.expired { return; }
      match a.call {
        case CallUpsert(wallet, chainId, assetId, kind, metadata) =>
          var row := UpsertAsset(wallet, chainId, assetId, kind, metadata);
          id := Some(row);
        case CallRecord(handle, outcome, status, retryAfter) =>
          var row := Resolve(listed, returned, handle);
          if row.Some? { var _ := RecordAsset(row.value, outcome, status, retryAfter); }
        case CallDiscovery(wallet, chainId, given) => WriteDiscoveryState(wallet, chainId, given);
        case CallPass(wallet, chainId, block) => SavePass(wallet, chainId, block);
      }
    }
  }

  class ScanBuffer {
    var rows: seq<Row>
    var state: Option<Noted>
    var operations: seq<Operation>
    var nextId: int
    var sealed: bool

    function State(): Buffer
      reads this
    {
      Buffer(rows, state, operations, nextId, sealed)
    }

    /** Over the rows and the discovery state of one wallet and chain. */
    constructor (rows: seq<Row>, state: Option<Noted>)
      ensures State() == Buffer(rows, state, [], -1, false)
    {
      this.rows, this.state, operations, nextId, sealed := rows, state, [], -1, false;
    }

    /** `expired` says that the deadline check raises. A refused call changes nothing. */
    method UpsertAsset(wallet: string, chainId: int, assetId: string, kind: string, metadata: Option<Json>,
          expired: bool)
      returns (id: Result<int, Error>)
      modifies this
      ensures var refused := Check(old(State()), expired);
              if refused.Some? then id == Err(refused.value) && State() == old(State())
              else id.Ok? && (State(), id.value) == BufferUpsert(old(State()), wallet, chainId, assetId, kind, metadata)
    {
      if sealed { return Err(Sealed); }
      if expired { return Err(Expired); }
      var asset := Lower(assetId);
      var found := FindRow(rows, asset);
      var rowId := if found.Some? then rows[found.value].id else nextId;
      if found.Some? {
        rows := rows[found.value := rows[found.value].(kind := kind, metadata := metadata)];
      } else {
        nextId := nextId - 1;
        rows := rows + [Row(rowId, asset, kind, metadata, "pending", None, None)];
      }
      operations := operations + [Operation.UpsertAsset(wallet, chainId, assetId, kind, metadata, rowId)];
      id := Ok(rowId);
    }

    method RecordAsset(id: int, result: Json, status: string, retryAfter: Option<real>,
          expired: bool) returns (failed: Option<Error>)
      modifies this
      ensures var refused := Check(old(State()), expired);
              var after := if refused.Some? then Err(refused.value) else BufferRecord(old(State()), id, result, status, retryAfter);
              after == if failed.Some? then Err(failed.value) else Ok(State())
      ensures failed.Some? ==> State() == old(State())
    {
      if sealed { return Some(Sealed); }
      if expired { return Some(Expired); }
      var found := FindId(rows, id);
      if found.None? { return Some(UnknownRow); }
      rows := rows[found.value := rows[found.value].(result := Some(result), status := status, retryAfter := retryAfter)];
      operations := operations + [Operation.RecordAsset(id, result, status, retryAfter)];
      failed := None;
    }

    method WriteDiscoveryState(wallet: string, chainId: int, given: Given,
          expired: bool) returns (failed: Option<Error>)
      modifies this
      ensures failed == Check(old(State()), expired)
      ensures State() == if failed.Some? then old(State()) else BufferDiscovery(old(State()), wallet, chainId, given)
    {
      if sealed { return Some(Sealed); }
      if expired { return Some(Expired); }
      state := Some(Noted(given.cursor.GetOr(None), given.history.GetOr(Some([])), given.status.GetOr("pending"),
                          given.retryAfter.GetOr(None), given.result.GetOr(None), given.error.GetOr(None)));
      operations := operations + [WriteDiscovery(wallet, chainId, given)];
      failed := None;
    }

    method SavePass(wallet: string, chainId: int, block: Json, expired: bool) returns (failed: Option<Error>)
      modifies this
      ensures failed == Check(old(State()), expired)
      ensures State() == if failed.Some? then old(State()) else BufferPass(old(State()), wallet, chainId, block)
    {
      if sealed { return Some(Sealed); }
      if expired { return Some(Expired); }
      operations := operations + [Operation.SavePass(wallet, chainId, block)];
      failed := None;
    }

    /** A worker's attempt made on the buffer: what a step of a buffered session does. */
    method Perform(a: Attempt, listed: seq<int>, returned: seq<Option<int>>) returns (id: Option<int>)
      modifies this
      ensures Session(State(), returned + [id]) == BufferedCall(listed, Session(old(State()), returned), a)
    {
      id := None;
      match a.call {
        case CallUpsert(wallet, chainId, assetId, kind, metadata) =>
          var row := UpsertAsset(wallet, chainId, assetId, kind, metadata, a.expired);
          id := if row.Ok? then Some(row.value) else None;
        case CallRecord(handle, outcome, status, retryAfter) =>
          var row := Resolve(listed, returned, handle);
          if row.Some? { var _ := RecordAsset(row.value, outcome, status, retryAfter, a.expired); }
        case CallDiscovery(wallet, chainId, given) => var _ := WriteDiscoveryState(wallet, chainId, given, a.expired);
        case CallPass(wallet, chainId, block) => var _ := SavePass(wallet, chainId, block, a.expired);
      }
    }

    /** Seals first, then replays. A record of an unknown row stops the replay. */
    method Persist(store: Store) returns (discovered: set<int>, failed: bool)
      modifies this, store
      ensures State() == old(State()).(sealed := true)
      ensures var r := Replay(old(store.State()), old(operations));
              store.State() == r.tables && discovered == r.discovered && failed == r.failed
    {
      sealed := true;
      var ids: map<int, int> := map[];
      discovered, failed := {}, false;
      var i := 0;
      while i < |operations| && !failed
        invariant 0 <= i <= |operations| && State() == old(State()).(sealed := true)
        invariant Replay(old(store.State()), operations[..i]) == Replayed(store.State(), ids, discovered, failed)
        modifies store
      {
        match operations[i] {
          case UpsertAsset(wallet, chainId, assetId, kind, metadata, rowId) =>
            var id := store.UpsertAsset(wallet, chainId, assetId, kind, metadata);
            ids, discovered := ids[rowId := id], discovered + {id};
          case RecordAsset(rowId, outcome, status, retryAfter) =>
            var known := store.RecordAsset(Actual(ids, rowId), outcome, status, retryAfter);
            failed := !known;
          case WriteDiscovery(wallet, chainId, given) =>
            store.WriteDiscoveryState(wallet, chainId, given);
          case SavePass(wallet, chainId, block) =>
            store.SavePass(wallet, chainId, block);
        }
        ReplayMore(old(store.State()), operations, i);
        i := i + 1;
      }
      ReplayStops(old(store.State()), operations, i);
      assert operations[..|operations|] == operations;
    }
  }

  lemma {:induction false} ReplayMore(t: Tables, operations: seq<Operation>, i: nat)
    requires i < |operations|
    ensures Replay(t, operations[..i + 1]) == ReplayOne(Replay(t, operations[..i]), operations[i])
  {
    assert operations[..i + 1][..i] == operations[..i];
  }

  /** Nothing is replayed after a refused operation. */
  lemma {:induction false} ReplayStops(t: Tables, operations: seq<Operation>, i: nat)
    requires i <= |operations|
    ensures Replay(t, operations[..i]).failed ==> Replay(t, operations) == Replay(t, operations[..i])
    decreases |operations|
  {
    if i == |operations| {
      assert operations[..i] == operations;
    } else {
      var n := |operations| - 1;
      ReplayStops(t, operations[..n], i);
      assert operations[..n][..i] == operations[..i];
    }
  }
}
