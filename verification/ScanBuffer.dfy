/** A scanner worker's memory snapshot, sealed and then replayed into the asset store on the caller's thread. */
module ScanBuffers {
  import opened Prelude

  /** JSON texts are compared as texts. */
  type Json = string
  const EMPTY_OBJECT: Json := "{}"

  /** A lower-case wallet address and a chain. */
  type Scope = (string, int)

  // ---------------------------------------------------------------- the store

  datatype AssetRow = AssetRow(scope: Scope, asset: string, kind: string, metadata: Json,
                               status: string, attempts: nat, retryAfter: Option<real>, result: Option<Json>)

  datatype Discovery = Discovery(cursor: Option<string>, history: seq<Option<string>>, status: string,
                                 retryAfter: Option<real>, result: Option<Json>, error: Option<Json>)

  /** Rows are never deleted: the row at index `n` has id `n + 1`. */
  datatype Tables = Tables(assets: seq<AssetRow>, discovery: map<Scope, Discovery>, passes: map<Scope, Json>)

  /** Keyword arguments of a discovery write; an argument that was not passed is `None`. */
  datatype Given = Given(cursor: Option<Option<string>>, history: Option<Option<seq<Option<string>>>>,
                         status: Option<string>, retryAfter: Option<Option<real>>,
                         result: Option<Option<Json>>, error: Option<Option<Json>>)

  datatype Error = Sealed | Expired | UnknownRow

  function FindAsset(assets: seq<AssetRow>, scope: Scope, asset: string): (found: Option<nat>)
    ensures found.Some? ==> found.value < |assets| && assets[found.value].scope == scope && assets[found.value].asset == asset
    ensures found.None? ==> forall n | 0 <= n < |assets| :: assets[n].scope != scope || assets[n].asset != asset
  {
    FirstWhere(assets, (row: AssetRow) => row.scope == scope && row.asset == asset)
  }

  function ScopeOf(wallet: string, chainId: int): Scope {
    (Lower(wallet), chainId)
  }

  function StoreUpsert(t: Tables, scope: Scope, asset: string, kind: string, metadata: Option<Json>): (Tables, int) {
    var text := metadata.GetOr(EMPTY_OBJECT);
    var found := FindAsset(t.assets, scope, asset);
    if found.Some? then
      (t.(assets := t.assets[found.value := t.assets[found.value].(kind := kind, metadata := text)]), found.value + 1)
    else
      (t.(assets := t.assets + [AssetRow(scope, asset, kind, text, "pending", 0, None, None)]), |t.assets| + 1)
  }

  function StoreRecord(t: Tables, id: int, result: Json, status: string, retryAfter: Option<real>): Result<Tables,
        Error> {
    if 1 <= id <= |t.assets| then
      var row := t.assets[id - 1];
      Ok(t.(assets := t.assets[id - 1 := row.(result := Some(result), status := status,
                                              attempts := row.attempts + 1, retryAfter := retryAfter)]))
    else Err(UnknownRow)
  }

  function StoreDiscovery(t: Tables, scope: Scope, given: Given): Tables {
    t.(discovery := t.discovery[scope := Discovery(
        given.cursor.GetOr(None), given.history.GetOr(None).GetOr([]), given.status.GetOr("pending"),
        given.retryAfter.GetOr(None), given.result.GetOr(None), given.error.GetOr(None))])
  }

  function StorePass(t: Tables, scope: Scope, block: Json): Tables {
    t.(passes := t.passes[scope := block])
  }

  // ---------------------------------------------------------------- the buffer

  datatype Row = Row(id: int, asset: string, kind: string, metadata: Option<Json>,
                     status: string, result: Option<Json>, retryAfter: Option<real>)

  /** The buffered discovery state: the defaults, overridden by the arguments of the last write. */
  datatype Noted = Noted(cursor: Option<string>, history: Option<seq<Option<string>>>, status: string,
                         retryAfter: Option<real>, result: Option<Json>, error: Option<Json>)

  datatype Operation =
    | UpsertAsset(wallet: string, chainId: int, assetId: string, kind: string, metadata: Option<Json>, rowId: int)
    | RecordAsset(rowId: int, outcome: Json, status: string, retryAfter: Option<real>)
    | WriteDiscovery(wallet: string, chainId: int, given: Given)
    | SavePass(wallet: string, chainId: int, block: Json)

  datatype Buffer = Buffer(rows: seq<Row>, state: Option<Noted>, operations: seq<Operation>, nextId: int, sealed: bool)

  function Check(b: Buffer, expired: bool): Option<Error> {
    if b.sealed then Some(Sealed) else if expired then Some(Expired) else None
  }

  function FindRow(rows: seq<Row>, asset: string): (found: Option<nat>)
    ensures found.Some? ==> found.value < |rows| && rows[found.value].asset == asset
    ensures found.None? ==> forall i | 0 <= i < |rows| :: rows[i].asset != asset
  {
    FirstWhere(rows, (row: Row) => row.asset == asset)
  }

  function FindId(rows: seq<Row>, id: int): (found: Option<nat>)
    ensures found.Some? ==> found.value < |rows| && rows[found.value].id == id
    ensures found.None? ==> forall i | 0 <= i < |rows| :: rows[i].id != id
  {
    FirstWhere(rows, (row: Row) => row.id == id)
  }

  function BufferUpsert(b: Buffer, wallet: string, chainId: int, assetId: string, kind: string,
        metadata: Option<Json>): (Buffer, int) {
    var asset := Lower(assetId);
    var found := FindRow(b.rows, asset);
    if found.Some? then
      var row := b.rows[found.value];
      (b.(rows := b.rows[found.value := row.(kind := kind, metadata := metadata)],
          operations := b.operations + [UpsertAsset(wallet, chainId, assetId, kind, metadata, row.id)]), row.id)
    else
      (b.(rows := b.rows + [Row(b.nextId, asset, kind, metadata, "pending", None, None)], nextId := b.nextId - 1,
          operations := b.operations + [UpsertAsset(wallet, chainId, assetId, kind, metadata, b.nextId)]), b.nextId)
  }

  function BufferRecord(b: Buffer, id: int, result: Json, status: string, retryAfter: Option<real>): Result<Buffer,
        Error> {
    var found := FindId(b.rows, id);
    if found.None? then Err(UnknownRow)
    else
      var row := b.rows[found.value];
      Ok(b.(rows := b.rows[found.value := row.(result := Some(result), status := status, retryAfter := retryAfter)],
            operations := b.operations + [RecordAsset(id, result, status, retryAfter)]))
  }

  function BufferDiscovery(b: Buffer, wallet: string, chainId: int, given: Given): Buffer {
    b.(state := Some(Noted(given.cursor.GetOr(None), given.history.GetOr(Some([])), given.status.GetOr("pending"),
                           given.retryAfter.GetOr(None), given.result.GetOr(None), given.error.GetOr(None))),
       operations := b.operations + [WriteDiscovery(wallet, chainId, given)])
  }

  function BufferPass(b: Buffer, wallet: string, chainId: int, block: Json): Buffer {
    b.(operations := b.operations + [SavePass(wallet, chainId, block)])
  }

  // ---------------------------------------------------------------- replay

  function Actual(ids: map<int, int>, id: int): int {
    if id in ids then ids[id] else id
  }

  /** The store, the real row of each buffered id, the ids that upserts returned, and whether an operation was refused. */
  datatype Replayed = Replayed(tables: Tables, ids: map<int, int>, discovered: set<int>, failed: bool)

  function ReplayOne(r: Replayed, op: Operation): Replayed {
    if r.failed then r
    else match op
      case UpsertAsset(wallet, chainId, assetId, kind, metadata, rowId) =>
        var (tables, id) := StoreUpsert(r.tables, ScopeOf(wallet, chainId), Lower(assetId), kind, metadata);
        Replayed(tables, r.ids[rowId := id], r.discovered + {id}, false)
      case RecordAsset(rowId, outcome, status, retryAfter) =>
        (match StoreRecord(r.tables, Actual(r.ids, rowId), outcome, status, retryAfter)
         case Ok(tables) => r.(tables := tables)
         case Err(_) => r.(failed := true))
      case WriteDiscovery(wallet, chainId, given) => r.(tables := StoreDiscovery(r.tables, ScopeOf(wallet, chainId), given))
      case SavePass(wallet, chainId, block) => r.(tables := StorePass(r.tables, ScopeOf(wallet, chainId), block))
  }

  function Replay(t: Tables, operations: seq<Operation>): Replayed {
    if operations == [] then Replayed(t, map[], {}, false)
    else
      var n := |operations| - 1;
      ReplayOne(Replay(t, operations[..n]), operations[n])
  }

  // ---------------------------------------------------------------- clients

  /** How a worker names a row without looking inside an id: the `row`-th listed asset, or what its `call`-th call returned. */
  datatype Handle = Listed(row: nat) | Returned(call: nat)

  datatype Call =
    | CallUpsert(wallet: string, chainId: int, assetId: string, kind: string, metadata: Option<Json>)
    | CallRecord(handle: Handle, outcome: Json, status: string, retryAfter: Option<real>)
    | CallDiscovery(wallet: string, chainId: int, given: Given)
    | CallPass(wallet: string, chainId: int, block: Json)

  /** A call, and whether the stage deadline has expired when it is made. */
  datatype Attempt = Attempt(call: Call, expired: bool)

  function Resolve(listed: seq<int>, returned: seq<Option<int>>, h: Handle): Option<int> {
    match h
    case Listed(row) => if row < |listed| then Some(listed[row]) else None
    case Returned(call) => if call < |returned| then returned[call] else None
  }

  datatype Session<S> = Session(state: S, returned: seq<Option<int>>)

  /** One call on the buffer. A call that raises changes nothing and returns no id. */
  function BufferedCall(listed: seq<int>, s: Session<Buffer>, a: Attempt): Session<Buffer> {
    if Check(s.state, a.expired).Some? then Session(s.state, s.returned + [None])
    else match a.call
      case CallUpsert(wallet, chainId, assetId, kind, metadata) =>
        var (b, id) := BufferUpsert(s.state, wallet, chainId, assetId, kind, metadata);
        Session(b, s.returned + [Some(id)])
      case CallRecord(handle, outcome, status, retryAfter) =>
        var id := Resolve(listed, s.returned, handle);
        var after := if id.None? then Err(UnknownRow) else BufferRecord(s.state, id.value, outcome, status, retryAfter);
        Session(if after.Ok? then after.value else s.state, s.returned + [None])
      case CallDiscovery(wallet, chainId, given) => Session(BufferDiscovery(s.state, wallet, chainId, given), s.returned + [None])
      case CallPass(wallet, chainId, block) => Session(BufferPass(s.state, wallet, chainId, block), s.returned + [None])
  }

  function Buffered(listed: seq<int>, b: Buffer, attempts: seq<Attempt>): (s: Session<Buffer>)
    ensures |s.returned| == |attempts|
  {
    if attempts == [] then Session(b, [])
    else
      var n := |attempts| - 1;
      BufferedCall(listed, Buffered(listed, b, attempts[..n]), attempts[n])
  }

  /** The same call made on the store itself. */
  function DirectCall(listed: seq<int>, s: Session<Tables>, a: Attempt): Session<Tables> {
    if a.expired then Session(s.state, s.returned + [None])
    else match a.call
      case CallUpsert(wallet, chainId, assetId, kind, metadata) =>
        var (t, id) := StoreUpsert(s.state, ScopeOf(wallet, chainId), Lower(assetId), kind, metadata);
        Session(t, s.returned + [Some(id)])
      case CallRecord(handle, outcome, status, retryAfter) =>
        var id := Resolve(listed, s.returned, handle);
        var after := if id.None? then Err(UnknownRow) else StoreRecord(s.state, id.value, outcome, status, retryAfter);
        Session(if after.Ok? then after.value else s.state, s.returned + [None])
      case CallDiscovery(wallet, chainId, given) =>
        Session(StoreDiscovery(s.state, ScopeOf(wallet, chainId), given), s.returned + [None])
      case CallPass(wallet, chainId, block) => Session(StorePass(s.state, ScopeOf(wallet, chainId), block), s.returned + [None])
  }

  function Direct(listed: seq<int>, t: Tables, attempts: seq<Attempt>): (s: Session<Tables>)
    ensures |s.returned| == |attempts|
  {
    if attempts == [] then Session(t, [])
    else
      var n := |attempts| - 1;
      DirectCall(listed, Direct(listed, t, attempts[..n]), attempts[n])
  }
}
