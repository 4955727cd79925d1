/** When replaying a scan buffer is as good as making its calls on the store. */
module ScanReplay {
  import opened Prelude
  import opened ScanBuffers

  // ---------------------------------------------------------------- agreement

  /** The unique index of the assets table. */
  ghost predicate Unique(assets: seq<AssetRow>) {
    forall n, m | 0 <= n < m < |assets| :: assets[n].scope != assets[m].scope || assets[n].asset != assets[m].asset
  }

  ghost predicate Distinct(rows: seq<Row>) {
    forall i, j | 0 <= i < j < |rows| :: rows[i].id != rows[j].id && rows[i].asset != rows[j].asset
  }

  /** Temporary ids count down: the next one is fresh, and a real id stands for itself. */
  ghost predicate IdsUsed(rows: seq<Row>, nextId: int, ids: map<int, int>) {
    && nextId < 0
    && (forall id | id in ids :: nextId < id)
    && (forall i | 0 <= i < |rows| :: nextId < rows[i].id && (rows[i].id > 0 ==> Actual(ids, rows[i].id) == rows[i].id))
  }

  /** The network that each asset belongs to in a session. */
  type Home = string -> Scope

  /** The buffered row stands for the store's row of its asset. */
  ghost predicate RowLinked(row: Row, assets: seq<AssetRow>, ids: map<int, int>, home: Home) {
    var actual := Actual(ids, row.id);
    1 <= actual <= |assets| && assets[actual - 1].scope == home(row.asset) && assets[actual - 1].asset == row.asset
  }

  ghost predicate RowsLinked(rows: seq<Row>, assets: seq<AssetRow>, ids: map<int, int>, home: Home) {
    forall i {:trigger RowLinked(rows[i], assets, ids, home)} | 0 <= i < |rows| :: RowLinked(rows[i], assets, ids, home)
  }

  ghost predicate Linked(b: Buffer, t: Tables, ids: map<int, int>, home: Home) {
    Unique(t.assets) && Distinct(b.rows) && IdsUsed(b.rows, b.nextId, ids) && RowsLinked(b.rows, t.assets, ids, home)
  }

  lemma {:induction false} IdFound(rows: seq<Row>, i: nat)
    requires i < |rows| && Distinct(rows)
    ensures FindId(rows, rows[i].id) == Some(i)
  {
    var found := FindId(rows, rows[i].id);
    assert rows[found.value].id == rows[i].id;
  }

  lemma {:induction false} RowFound(rows: seq<Row>, i: nat)
    requires i < |rows| && Distinct(rows)
    ensures FindRow(rows, rows[i].asset) == Some(i)
  {
    var found := FindRow(rows, rows[i].asset);
    assert rows[found.value].asset == rows[i].asset;
  }

  lemma {:induction false} AssetFound(assets: seq<AssetRow>, n: nat)
    requires Unique(assets) && n < |assets|
    ensures FindAsset(assets, assets[n].scope, assets[n].asset) == Some(n)
  {
    var found := FindAsset(assets, assets[n].scope, assets[n].asset);
    assert assets[found.value].asset == assets[n].asset;
  }

  /** A buffered asset is found in the store, at the row that its id stands for. */
  lemma {:induction false} SameRowFound(rows: seq<Row>, assets: seq<AssetRow>, ids: map<int, int>, home: Home, asset: string)
    requires Unique(assets) && RowsLinked(rows, assets, ids, home) && FindRow(rows, asset).Some?
    ensures FindAsset(assets, home(asset), asset) == Some(Actual(ids, rows[FindRow(rows, asset).value].id) - 1)
  {
    var row := FindRow(rows, asset);
    assert RowLinked(rows[row.value], assets, ids, home);
    AssetFound(assets, Actual(ids, rows[row.value].id) - 1);
  }

  /** Two buffered rows stand for two rows of the store. */
  lemma {:induction false} ActualDiffers(rows: seq<Row>, assets: seq<AssetRow>, ids: map<int, int>, home: Home, i: nat, j: nat)
    requires Distinct(rows) && RowsLinked(rows, assets, ids, home) && i < |rows| && j < |rows| && i != j
    ensures Actual(ids, rows[i].id) != Actual(ids, rows[j].id)
  {
    assert RowLinked(rows[i], assets, ids, home) && RowLinked(rows[j], assets, ids, home);
    assert if i < j then rows[i].asset != rows[j].asset else rows[j].asset != rows[i].asset;
  }

  /** The same keys under the same ids, and perhaps a new row. */
  ghost predicate KeysKept(assets: seq<AssetRow>, assets': seq<AssetRow>) {
    && |assets| <= |assets'|
    && forall n | 0 <= n < |assets| :: assets'[n].scope == assets[n].scope && assets'[n].asset == assets[n].asset
  }

  ghost predicate RowsKept(rows: seq<Row>, rows': seq<Row>) {
    |rows| <= |rows'| && forall i | 0 <= i < |rows| :: rows'[i].id == rows[i].id && rows'[i].asset == rows[i].asset
  }

  /** Rewriting rows on either side, with their keys, changes nothing about the links. */
  lemma {:induction false} RewriteKeepsLink(b: Buffer, t: Tables, ids: map<int, int>, home: Home, rows: seq<Row>, assets: seq<AssetRow>)
    requires Linked(b, t, ids, home)
    requires |rows| == |b.rows| && RowsKept(b.rows, rows) && |assets| == |t.assets| && KeysKept(t.assets, assets)
    ensures Linked(b.(rows := rows), t.(assets := assets), ids, home)
  {
    forall k | 0 <= k < |rows| ensures RowLinked(rows[k], assets, ids, home) {
      assert RowLinked(b.rows[k], t.assets, ids, home);
    }
  }

  /** Noting the row that an id already stands for changes nothing either. */
  lemma {:induction false} RenotedKeepsLink(b: Buffer, t: Tables, ids: map<int, int>, home: Home, id: int)
    requires Linked(b, t, ids, home) && b.nextId < id
    ensures Linked(b, t, ids[id := Actual(ids, id)], home)
  {
    var ids' := ids[id := Actual(ids, id)];
    forall k | 0 <= k < |b.rows| ensures RowLinked(b.rows[k], t.assets, ids', home) {
      assert RowLinked(b.rows[k], t.assets, ids, home);
    }
  }

  /** A new buffered row under a fresh temporary id, for a row that the store has or gets. */
  lemma {:induction false} AttachKeepsLink(b: Buffer, t: Tables, ids: map<int, int>, home: Home, row: Row, assets: seq<AssetRow>, n: nat)
    requires Linked(b, t, ids, home) && FindRow(b.rows, row.asset).None? && row.id == b.nextId
    requires Unique(assets) && KeysKept(t.assets, assets)
    requires n < |assets| && assets[n].scope == home(row.asset) && assets[n].asset == row.asset
    ensures Linked(b.(rows := b.rows + [row], nextId := b.nextId - 1), t.(assets := assets), ids[b.nextId := n + 1], home)
  {
    var rows, ids' := b.rows + [row], ids[b.nextId := n + 1];
    forall k | 0 <= k < |rows| ensures RowLinked(rows[k], assets, ids', home) {
      if k < |b.rows| {
        assert RowLinked(b.rows[k], t.assets, ids, home);
      }
    }
  }

  /** An upsert for the asset's own network keeps the links, and every held id its row. */
  lemma {:induction false} UpsertKeepsLink(b: Buffer, t: Tables, ids: map<int, int>, home: Home,
                                           wallet: string, chainId: int, assetId: string, kind: string, metadata: Option<Json>)
    requires Linked(b, t, ids, home) && ScopeOf(wallet, chainId) == home(Lower(assetId))
    ensures var (after, id) := BufferUpsert(b, wallet, chainId, assetId, kind, metadata);
            var (tables, actual) := StoreUpsert(t, ScopeOf(wallet, chainId), Lower(assetId), kind, metadata);
            Linked(after, tables, ids[id := actual], home)
  {
    var asset := Lower(assetId);
    var (after, id) := BufferUpsert(b, wallet, chainId, assetId, kind, metadata);
    var (tables, actual) := StoreUpsert(t, home(asset), asset, kind, metadata);
    if FindRow(b.rows, asset).Some? {
      SameRowFound(b.rows, t.assets, ids, home, asset);
      RewriteKeepsLink(b, t, ids, home, after.rows, tables.assets);
      RenotedKeepsLink(b.(rows := after.rows), tables, ids, home, id);
    } else {
      UpsertKeepsUnique(t, home(asset), asset, kind, metadata);
      AttachKeepsLink(b, t, ids, home, after.rows[|b.rows|], tables.assets, actual - 1);
    }
  }

  lemma {:induction false} UpsertKeepsUnique(t: Tables, scope: Scope, asset: string, kind: string, metadata: Option<Json>)
    requires Unique(t.assets)
    ensures var (tables, actual) := StoreUpsert(t, scope, asset, kind, metadata);
            && Unique(tables.assets) && KeysKept(t.assets, tables.assets)
            && 1 <= actual <= |tables.assets| && tables.assets[actual - 1].scope == scope && tables.assets[actual - 1].asset == asset
  {
  }

  lemma {:induction false} UpsertKeepsIds(b: Buffer, t: Tables, ids: map<int, int>, home: Home, held: int,
                                          wallet: string, chainId: int, assetId: string, kind: string, metadata: Option<Json>)
    requires Linked(b, t, ids, home) && ScopeOf(wallet, chainId) == home(Lower(assetId)) && FindId(b.rows, held).Some?
    ensures var (after, id) := BufferUpsert(b, wallet, chainId, assetId, kind, metadata);
            var (tables, actual) := StoreUpsert(t, ScopeOf(wallet, chainId), Lower(assetId), kind, metadata);
            FindId(after.rows, held).Some? && Actual(ids[id := actual], held) == Actual(ids, held)
  {
    if FindRow(b.rows, Lower(assetId)).Some? {
      SameRowFound(b.rows, t.assets, ids, home, Lower(assetId));
    }
    var (after, id) := BufferUpsert(b, wallet, chainId, assetId, kind, metadata);
    var i := FindId(b.rows, held).value;
    assert after.rows[i].id == held;
  }

  lemma {:induction false} RecordKeepsLink(b: Buffer, t: Tables, ids: map<int, int>, home: Home,
                                           id: int, result: Json, status: string, retryAfter: Option<real>)
    requires Linked(b, t, ids, home) && FindId(b.rows, id).Some?
    ensures var after := BufferRecord(b, id, result, status, retryAfter);
            var tables := StoreRecord(t, Actual(ids, id), result, status, retryAfter);
            && after.Ok? && tables.Ok? && Linked(after.value, tables.value, ids, home)
            && forall held | FindId(b.rows, held).Some? :: FindId(after.value.rows, held).Some?
  {
    var i := FindId(b.rows, id).value;
    assert RowLinked(b.rows[i], t.assets, ids, home);
    var after := BufferRecord(b, id, result, status, retryAfter).value;
    var tables := StoreRecord(t, Actual(ids, id), result, status, retryAfter).value;
    RewriteKeepsLink(b, t, ids, home, after.rows, tables.assets);
    forall held | FindId(b.rows, held).Some? ensures FindId(after.rows, held).Some? {
      assert after.rows[FindId(b.rows, held).value].id == held;
    }
  }

  // ---------------------------------------------------------------- opening and naming

  ghost predicate Shows(row: Row, stored: AssetRow) {
    ContentShown(row, stored) && StateShown(row, stored)
  }

  ghost predicate ContentShown(row: Row, stored: AssetRow) {
    row.asset == stored.asset && row.kind == stored.kind && row.metadata.GetOr(EMPTY_OBJECT) == stored.metadata
  }

  ghost predicate StateShown(row: Row, stored: AssetRow) {
    row.status == stored.status && row.result == stored.result && row.retryAfter == stored.retryAfter
  }

  ghost predicate HasRow(rows: seq<Row>, asset: string) {
    exists i | 0 <= i < |rows| :: rows[i].asset == asset
  }

  ghost predicate ListedRow(row: Row, assets: seq<AssetRow>, scope: Scope) {
    1 <= row.id <= |assets| && assets[row.id - 1].scope == scope && Shows(row, assets[row.id - 1])
  }

  /** Exactly the store's rows of one wallet and chain, under their ids. */
  ghost predicate Lists(rows: seq<Row>, assets: seq<AssetRow>, scope: Scope) {
    && (forall i {:trigger ListedRow(rows[i], assets, scope)} | 0 <= i < |rows| :: ListedRow(rows[i], assets, scope))
    && (forall n {:trigger HasRow(rows, assets[n].asset)} | 0 <= n < |assets| && assets[n].scope == scope :: HasRow(rows, assets[n].asset))
  }

  /** A new buffer over the rows of one wallet and chain, as the store has them. */
  ghost predicate SnapshotOf(b: Buffer, t: Tables, scope: Scope) {
    && Unique(t.assets) && Distinct(b.rows) && Lists(b.rows, t.assets, scope)
    && b.operations == [] && b.nextId == -1 && !b.sealed
  }

  /** An upsert that is not refused for the deadline. */
  predicate Upserts(a: Attempt) {
    !a.expired && a.call.CallUpsert?
  }

  function Named(a: Attempt): Scope
    requires a.call.CallUpsert?
  {
    ScopeOf(a.call.wallet, a.call.chainId)
  }

  function AssetOf(a: Attempt): string
    requires a.call.CallUpsert?
  {
    Lower(a.call.assetId)
  }

  /** No asset is named on two networks: neither by two upserts, nor by an upsert and the listing the buffer was opened with. */
  ghost predicate OneHome(rows: seq<Row>, scope: Scope, attempts: seq<Attempt>) {
    && (forall i, k | 0 <= i < |attempts| && Upserts(attempts[i]) && 0 <= k < |rows| && rows[k].asset == AssetOf(attempts[i]) ::
          Named(attempts[i]) == scope)
    && (forall i, j | 0 <= i < j < |attempts| && Upserts(attempts[i]) && Upserts(attempts[j])
                      && AssetOf(attempts[i]) == AssetOf(attempts[j]) ::
          Named(attempts[i]) == Named(attempts[j]))
  }

  /** `home` gives every listed and every upserted asset the network it is named on. */
  ghost predicate Fits(home: Home, rows: seq<Row>, scope: Scope, attempts: seq<Attempt>) {
    && (forall k | 0 <= k < |rows| :: home(rows[k].asset) == scope)
    && (forall i | 0 <= i < |attempts| && Upserts(attempts[i]) :: home(AssetOf(attempts[i])) == Named(attempts[i]))
  }

  /** The network of the first upsert of the asset, or the buffer's own. */
  function HomeOf(scope: Scope, attempts: seq<Attempt>, asset: string): Scope {
    if attempts == [] then scope
    else if Upserts(attempts[0]) && AssetOf(attempts[0]) == asset then Named(attempts[0])
    else HomeOf(scope, attempts[1..], asset)
  }

  lemma {:induction false} HomeIsNamed(scope: Scope, attempts: seq<Attempt>, asset: string)
    ensures || (&& HomeOf(scope, attempts, asset) == scope
                && forall i | 0 <= i < |attempts| && Upserts(attempts[i]) :: AssetOf(attempts[i]) != asset)
            || exists i | 0 <= i < |attempts| && Upserts(attempts[i]) && AssetOf(attempts[i]) == asset ::
                 Named(attempts[i]) == HomeOf(scope, attempts, asset)
  {
    if attempts != [] && !(Upserts(attempts[0]) && AssetOf(attempts[0]) == asset) {
      HomeIsNamed(scope, attempts[1..], asset);
      if i :| 0 <= i < |attempts[1..]| && Upserts(attempts[1..][i]) && AssetOf(attempts[1..][i]) == asset
              && Named(attempts[1..][i]) == HomeOf(scope, attempts[1..], asset) {
        assert attempts[i + 1] == attempts[1..][i];
      } else {
        assert forall i | 0 < i < |attempts| :: attempts[i] == attempts[1..][i - 1];
      }
    }
  }

  lemma {:induction false} HomeFits(rows: seq<Row>, scope: Scope, attempts: seq<Attempt>)
    requires OneHome(rows, scope, attempts)
    ensures Fits(asset => HomeOf(scope, attempts, asset), rows, scope, attempts)
  {
    forall k | 0 <= k < |rows| ensures HomeOf(scope, attempts, rows[k].asset) == scope {
      HomeIsNamed(scope, attempts, rows[k].asset);
    }
    forall i | 0 <= i < |attempts| && Upserts(attempts[i]) ensures HomeOf(scope, attempts, AssetOf(attempts[i])) == Named(attempts[i]) {
      HomeIsNamed(scope, attempts, AssetOf(attempts[i]));
    }
  }

  // ---------------------------------------------------------------- whole sessions

  /** The ids that the worker finds in the listing of its assets. */
  function Ids(rows: seq<Row>): seq<int> {
    seq(|rows|, i requires 0 <= i < |rows| => rows[i].id)
  }

  /** An id the buffer handed out and the id the store handed out in its place are one row. */
  ghost predicate SameRow(rows: seq<Row>, ids: map<int, int>, buffered: Option<int>, direct: Option<int>) {
    if buffered.None? then direct.None?
    else direct.Some? && FindId(rows, buffered.value).Some? && Actual(ids, buffered.value) == direct.value
  }

  /** The ids the worker holds, on either side. */
  ghost predicate HandlesMatch(rows: seq<Row>, ids: map<int, int>, listed: seq<int>, buffered: seq<Option<int>>,
                               direct: seq<Option<int>>) {
    && |buffered| == |direct|
    && (forall k {:trigger SameRow(rows, ids, buffered[k], direct[k])} | 0 <= k < |buffered| ::
          SameRow(rows, ids, buffered[k], direct[k]))
    && (forall i {:trigger SameRow(rows, ids, Some(listed[i]), Some(listed[i]))} | 0 <= i < |listed| ::
          SameRow(rows, ids, Some(listed[i]), Some(listed[i])))
  }

  ghost function IdsIn(returned: seq<Option<int>>): set<int> {
    set k | 0 <= k < |returned| && returned[k].Some? :: returned[k].value
  }

  ghost predicate Matched(s: Session<Buffer>, d: Session<Tables>, r: Replayed, listed: seq<int>, home: Home) {
    && !r.failed && r.tables == d.state && r.discovered == IdsIn(d.returned)
    && !s.state.sealed && Linked(s.state, r.tables, r.ids, home)
    && HandlesMatch(s.state.rows, r.ids, listed, s.returned, d.returned)
  }

  lemma {:induction false} ResolvedMatch(rows: seq<Row>, ids: map<int, int>, listed: seq<int>,
                                         buffered: seq<Option<int>>, direct: seq<Option<int>>, h: Handle)
    requires HandlesMatch(rows, ids, listed, buffered, direct)
    ensures SameRow(rows, ids, Resolve(listed, buffered, h), Resolve(listed, direct, h))
  {
    match h
    case Listed(i) => if i < |listed| { assert SameRow(rows, ids, Some(listed[i]), Some(listed[i])); }
    case Returned(k) => if k < |buffered| { assert SameRow(rows, ids, buffered[k], direct[k]); }
  }

  /** Handles still match after a step that keeps every held id, with what the step returned. */
  lemma {:induction false} HandlesStayMatched(rows: seq<Row>, ids: map<int, int>, listed: seq<int>,
                                              buffered: seq<Option<int>>, direct: seq<Option<int>>,
                                              rows': seq<Row>, ids': map<int, int>, b: Option<int>, d: Option<int>)
    requires HandlesMatch(rows, ids, listed, buffered, direct) && SameRow(rows', ids', b, d)
    requires forall held | FindId(rows, held).Some? :: FindId(rows', held).Some? && Actual(ids', held) == Actual(ids, held)
    ensures HandlesMatch(rows', ids', listed, buffered + [b], direct + [d])
  {
    forall k | 0 <= k < |buffered| + 1 ensures SameRow(rows', ids', (buffered + [b])[k], (direct + [d])[k]) {
      if k < |buffered| { assert SameRow(rows, ids, buffered[k], direct[k]); }
    }
    forall i | 0 <= i < |listed| ensures SameRow(rows', ids', Some(listed[i]), Some(listed[i])) {
      assert SameRow(rows, ids, Some(listed[i]), Some(listed[i]));
    }
  }

  lemma {:induction false} IdsInAppend(returned: seq<Option<int>>, last: Option<int>)
    ensures IdsIn(returned + [last]) == IdsIn(returned) + if last.Some? then {last.value} else {}
  {
    var more := returned + [last];
    forall id | id in IdsIn(returned) + (if last.Some? then {last.value} else {}) ensures id in IdsIn(more) {
      if id in IdsIn(returned) {
        var k :| 0 <= k < |returned| && returned[k].Some? && returned[k].value == id;
        assert more[k].Some? && more[k].value == id;
      } else {
        assert more[|returned|].Some? && more[|returned|].value == id;
      }
    }
    forall id | id in IdsIn(more) ensures id in IdsIn(returned) + if last.Some? then {last.value} else {} {
      var k :| 0 <= k < |more| && more[k].Some? && more[k].value == id;
      if k < |returned| { assert returned[k].Some? && returned[k].value == id; }
    }
  }

  /** One more buffered operation is one more replayed operation. */
  ghost predicate Extends(s: Session<Buffer>, s': Session<Buffer>, r: Replayed, r': Replayed) {
    && |s'.state.operations| == |s.state.operations| + 1
    && s'.state.operations[..|s.state.operations|] == s.state.operations
    && r' == ReplayOne(r, s'.state.operations[|s.state.operations|])
  }

  lemma {:induction false} UpsertStays(s: Session<Buffer>, d: Session<Tables>, r: Replayed, listed: seq<int>, home: Home,
                                       a: Attempt)
    returns (r': Replayed)
    requires Matched(s, d, r, listed, home) && Upserts(a) && home(AssetOf(a)) == Named(a)
    ensures Extends(s, BufferedCall(listed, s, a), r, r')
    ensures Matched(BufferedCall(listed, s, a), DirectCall(listed, d, a), r', listed, home)
  {
    var c := a.call;
    var (b', id) := BufferUpsert(s.state, c.wallet, c.chainId, c.assetId, c.kind, c.metadata);
    var (t', actual) := StoreUpsert(r.tables, Named(a), AssetOf(a), c.kind, c.metadata);
    r' := ReplayOne(r, UpsertAsset(c.wallet, c.chainId, c.assetId, c.kind, c.metadata, id));
    UpsertKeepsLink(s.state, r.tables, r.ids, home, c.wallet, c.chainId, c.assetId, c.kind, c.metadata);
    forall held | FindId(s.state.rows, held).Some?
      ensures FindId(b'.rows, held).Some? && Actual(r.ids[id := actual], held) == Actual(r.ids, held)
    {
      UpsertKeepsIds(s.state, r.tables, r.ids, home, held, c.wallet, c.chainId, c.assetId, c.kind, c.metadata);
    }
    HandedOut(s.state, c.wallet, c.chainId, c.assetId, c.kind, c.metadata);
    HandlesStayMatched(s.state.rows, r.ids, listed, s.returned, d.returned, b'.rows, r.ids[id := actual], Some(id), Some(actual));
    IdsInAppend(d.returned, Some(actual));
  }

  lemma {:induction false} HandedOut(b: Buffer, wallet: string, chainId: int, assetId: string, kind: string, metadata: Option<Json>)
    ensures var (after, id) := BufferUpsert(b, wallet, chainId, assetId, kind, metadata); FindId(after.rows, id).Some?
  {
    var (after, id) := BufferUpsert(b, wallet, chainId, assetId, kind, metadata);
    var found := FindRow(b.rows, Lower(assetId));
    assert after.rows[if found.Some? then found.value else |b.rows|].id == id;
  }

  lemma {:induction false} RecordStays(s: Session<Buffer>, d: Session<Tables>, r: Replayed, listed: seq<int>, home: Home,
                                       a: Attempt)
    returns (r': Replayed)
    requires Matched(s, d, r, listed, home)
    requires !a.expired && a.call.CallRecord? && Resolve(listed, s.returned, a.call.handle).Some?
    ensures Extends(s, BufferedCall(listed, s, a), r, r')
    ensures Matched(BufferedCall(listed, s, a), DirectCall(listed, d, a), r', listed, home)
  {
    var c := a.call;
    ResolvedMatch(s.state.rows, r.ids, listed, s.returned, d.returned, c.handle);
    var id := Resolve(listed, s.returned, c.handle).value;
    RecordKeepsLink(s.state, r.tables, r.ids, home, id, c.outcome, c.status, c.retryAfter);
    var b' := BufferRecord(s.state, id, c.outcome, c.status, c.retryAfter).value;
    r' := ReplayOne(r, RecordAsset(id, c.outcome, c.status, c.retryAfter));
    HandlesStayMatched(s.state.rows, r.ids, listed, s.returned, d.returned, b'.rows, r.ids, None, None);
    IdsInAppend(d.returned, None);
  }

  /** Attempts that change neither rows nor ids. */
  lemma {:induction false} OthersStay(s: Session<Buffer>, d: Session<Tables>, r: Replayed, listed: seq<int>, home: Home,
                                      a: Attempt)
    returns (r': Replayed)
    requires Matched(s, d, r, listed, home)
    requires !a.expired && (a.call.CallDiscovery? || a.call.CallPass?)
    ensures Extends(s, BufferedCall(listed, s, a), r, r')
    ensures Matched(BufferedCall(listed, s, a), DirectCall(listed, d, a), r', listed, home)
  {
    var n := |s.state.operations|;
    r' := ReplayOne(r, BufferedCall(listed, s, a).state.operations[n]);
    HandlesStayMatched(s.state.rows, r.ids, listed, s.returned, d.returned, s.state.rows, r.ids, None, None);
    IdsInAppend(d.returned, None);
  }

  lemma {:induction false} RefusedStays(s: Session<Buffer>, d: Session<Tables>, r: Replayed, listed: seq<int>, home: Home,
                                        a: Attempt)
    requires Matched(s, d, r, listed, home)
    requires a.expired || (a.call.CallRecord? && Resolve(listed, s.returned, a.call.handle).None?)
    ensures BufferedCall(listed, s, a).state == s.state
    ensures Matched(BufferedCall(listed, s, a), DirectCall(listed, d, a), r, listed, home)
  {
    if a.call.CallRecord? {
      ResolvedMatch(s.state.rows, r.ids, listed, s.returned, d.returned, a.call.handle);
    }
    HandlesStayMatched(s.state.rows, r.ids, listed, s.returned, d.returned, s.state.rows, r.ids, None, None);
    IdsInAppend(d.returned, None);
  }

  lemma {:induction false} AttemptStays(t: Tables, s: Session<Buffer>, d: Session<Tables>, listed: seq<int>, home: Home, a: Attempt)
    requires Matched(s, d, Replay(t, s.state.operations), listed, home)
    requires Upserts(a) ==> home(AssetOf(a)) == Named(a)
    ensures Matched(BufferedCall(listed, s, a), DirectCall(listed, d, a), Replay(t, BufferedCall(listed, s, a).state.operations),
                    listed, home)
  {
    var r := Replay(t, s.state.operations);
    if a.expired || (a.call.CallRecord? && Resolve(listed, s.returned, a.call.handle).None?) {
      RefusedStays(s, d, r, listed, home, a);
    } else {
      var r';
      match a.call
      case CallUpsert(_, _, _, _, _) => r' := UpsertStays(s, d, r, listed, home, a);
      case CallRecord(_, _, _, _) => r' := RecordStays(s, d, r, listed, home, a);
      case CallDiscovery(_, _, _) => r' := OthersStay(s, d, r, listed, home, a);
      case CallPass(_, _, _) => r' := OthersStay(s, d, r, listed, home, a);
    }
  }

  lemma {:induction false} SnapshotLinked(b: Buffer, t: Tables, scope: Scope, home: Home)
    requires SnapshotOf(b, t, scope) && forall k | 0 <= k < |b.rows| :: home(b.rows[k].asset) == scope
    ensures Linked(b, t, map[], home)
    ensures HandlesMatch(b.rows, map[], Ids(b.rows), [], [])
  {
    forall i | 0 <= i < |b.rows| ensures RowLinked(b.rows[i], t.assets, map[], home) && b.rows[i].id > 0 {
      assert ListedRow(b.rows[i], t.assets, scope);
    }
    forall i | 0 <= i < |b.rows| ensures SameRow(b.rows, map[], Some(Ids(b.rows)[i]), Some(Ids(b.rows)[i])) {
      IdFound(b.rows, i);
    }
  }

  lemma {:induction false} SessionsMatch(b: Buffer, t: Tables, scope: Scope, home: Home, attempts: seq<Attempt>)
    requires SnapshotOf(b, t, scope) && Fits(home, b.rows, scope, attempts)
    ensures var s := Buffered(Ids(b.rows), b, attempts);
            Matched(s, Direct(Ids(b.rows), t, attempts), Replay(t, s.state.operations), Ids(b.rows), home)
    decreases |attempts|
  {
    var listed := Ids(b.rows);
    if attempts == [] {
      SnapshotLinked(b, t, scope, home);
    } else {
      var n := |attempts| - 1;
      SessionsMatch(b, t, scope, home, attempts[..n]);
      AttemptStays(t, Buffered(listed, b, attempts[..n]), Direct(listed, t, attempts[..n]), listed, home, attempts[n]);
    }
  }

  /** The replay leaves the store exactly as the same calls made directly on it would have, whichever calls met the deadline:
      same rows and ids, attempts, results, discovery states and passes; no recorded id is unknown, and the discovered rows are
      the ones the direct upserts return. */
  ghost predicate Replays(b: Buffer, t: Tables, attempts: seq<Attempt>) {
    var r := Replay(t, Buffered(Ids(b.rows), b, attempts).state.operations);
    var d := Direct(Ids(b.rows), t, attempts);
    !r.failed && r.tables == d.state && r.discovered == IdsIn(d.returned)
  }

  lemma {:induction false} ReplayIsDirect(b: Buffer, t: Tables, scope: Scope, attempts: seq<Attempt>)
    requires SnapshotOf(b, t, scope) && OneHome(b.rows, scope, attempts)
    ensures Replays(b, t, attempts)
  {
    HomeFits(b.rows, scope, attempts);
    SessionsMatch(b, t, scope, asset => HomeOf(scope, attempts, asset), attempts);
  }

  // ---------------------------------------------------------------- the condition is exact

  ghost predicate NoUpserts(attempts: seq<Attempt>) {
    forall i | 0 <= i < |attempts| :: !attempts[i].call.CallUpsert?
  }

  lemma {:induction false} BufferedMore(listed: seq<int>, b: Buffer, t: Tables, attempts: seq<Attempt>, a: Attempt)
    ensures Buffered(listed, b, attempts + [a]) == BufferedCall(listed, Buffered(listed, b, attempts), a)
    ensures Direct(listed, t, attempts + [a]) == DirectCall(listed, Direct(listed, t, attempts), a)
  {
    assert (attempts + [a])[..|attempts|] == attempts;
  }

  /** Whatever is called, the buffer keeps its rows and ids, and an upsert hands out the id of its asset's row. */
  ghost predicate BufferSound(b: Buffer, s: Session<Buffer>, attempts: seq<Attempt>) {
    && !s.state.sealed && Distinct(s.state.rows) && s.state.nextId < 0
    && (forall i | 0 <= i < |s.state.rows| :: s.state.nextId < s.state.rows[i].id)
    && RowsKept(b.rows, s.state.rows) && |s.returned| == |attempts|
    && (forall i {:trigger HoldsRow(s.state.rows, s.returned[i], attempts[i])} | 0 <= i < |attempts| && Upserts(attempts[i]) ::
          HoldsRow(s.state.rows, s.returned[i], attempts[i]))
  }

  ghost predicate HoldsRow(rows: seq<Row>, id: Option<int>, a: Attempt)
    requires a.call.CallUpsert?
  {
    var found := FindRow(rows, AssetOf(a));
    id.Some? && found.Some? && rows[found.value].id == id.value
  }

  lemma {:induction false} HoldsRowStays(rows: seq<Row>, rows': seq<Row>, id: Option<int>, a: Attempt)
    requires a.call.CallUpsert? && HoldsRow(rows, id, a) && RowsKept(rows, rows') && Distinct(rows')
    ensures HoldsRow(rows', id, a)
  {
    RowFound(rows', FindRow(rows, AssetOf(a)).value);
  }

  lemma {:induction false} CallKeepsRows(listed: seq<int>, s: Session<Buffer>, a: Attempt)
    requires !s.state.sealed && Distinct(s.state.rows) && s.state.nextId < 0
    requires forall i | 0 <= i < |s.state.rows| :: s.state.nextId < s.state.rows[i].id
    ensures var s' := BufferedCall(listed, s, a);
            && !s'.state.sealed && Distinct(s'.state.rows) && s'.state.nextId < 0
            && (forall i | 0 <= i < |s'.state.rows| :: s'.state.nextId < s'.state.rows[i].id)
            && RowsKept(s.state.rows, s'.state.rows) && |s'.returned| == |s.returned| + 1 && s'.returned[..|s.returned|] == s.returned
            && (Upserts(a) ==> HoldsRow(s'.state.rows, s'.returned[|s.returned|], a))
  {
    var s' := BufferedCall(listed, s, a);
    if Upserts(a) {
      var found := FindRow(s.state.rows, AssetOf(a));
      RowFound(s'.state.rows, if found.Some? then found.value else |s.state.rows|);
    }
  }

  lemma {:induction false} BufferStaysSound(b: Buffer, attempts: seq<Attempt>)
    requires !b.sealed && Distinct(b.rows) && b.nextId < 0 && forall i | 0 <= i < |b.rows| :: b.nextId < b.rows[i].id
    ensures BufferSound(b, Buffered(Ids(b.rows), b, attempts), attempts)
    decreases |attempts|
  {
    if attempts != [] {
      var n := |attempts| - 1;
      BufferStaysSound(b, attempts[..n]);
      var s := Buffered(Ids(b.rows), b, attempts[..n]);
      var s' := Buffered(Ids(b.rows), b, attempts);
      CallKeepsRows(Ids(b.rows), s, attempts[n]);
      forall i | 0 <= i < |attempts| && Upserts(attempts[i]) ensures HoldsRow(s'.state.rows, s'.returned[i], attempts[i]) {
        if i < n {
          assert HoldsRow(s.state.rows, s.returned[i], attempts[..n][i]);
          assert s'.returned[i] == s'.returned[..n][i];
          HoldsRowStays(s.state.rows, s'.state.rows, s.returned[i], attempts[i]);
        }
      }
    }
  }

  /** The store hands out the id of the row of the network and asset that an upsert names, and keeps every row's key. */
  ghost predicate DirectSound(t: Tables, d: Session<Tables>, attempts: seq<Attempt>) {
    && Unique(d.state.assets) && KeysKept(t.assets, d.state.assets) && |d.returned| == |attempts|
    && (forall i {:trigger IsRow(d.state.assets, d.returned[i], attempts[i])} | 0 <= i < |attempts| && Upserts(attempts[i]) ::
          IsRow(d.state.assets, d.returned[i], attempts[i]))
  }

  ghost predicate IsRow(assets: seq<AssetRow>, id: Option<int>, a: Attempt)
    requires a.call.CallUpsert?
  {
    && id.Some? && 1 <= id.value <= |assets|
    && assets[id.value - 1].scope == Named(a) && assets[id.value - 1].asset == AssetOf(a)
  }

  lemma {:induction false} CallKeepsKeys(listed: seq<int>, d: Session<Tables>, a: Attempt)
    requires Unique(d.state.assets)
    ensures var d' := DirectCall(listed, d, a);
            && Unique(d'.state.assets) && KeysKept(d.state.assets, d'.state.assets)
            && |d'.returned| == |d.returned| + 1 && d'.returned[..|d.returned|] == d.returned
            && (Upserts(a) ==> IsRow(d'.state.assets, d'.returned[|d.returned|], a))
  {
    if Upserts(a) {
      UpsertKeepsUnique(d.state, Named(a), AssetOf(a), a.call.kind, a.call.metadata);
    }
  }

  lemma {:induction false} DirectStaysSound(listed: seq<int>, t: Tables, attempts: seq<Attempt>)
    requires Unique(t.assets)
    ensures DirectSound(t, Direct(listed, t, attempts), attempts)
    decreases |attempts|
  {
    if attempts != [] {
      var n := |attempts| - 1;
      DirectStaysSound(listed, t, attempts[..n]);
      var d := Direct(listed, t, attempts[..n]);
      var d' := Direct(listed, t, attempts);
      CallKeepsKeys(listed, d, attempts[n]);
      forall i | 0 <= i < |attempts| && Upserts(attempts[i]) ensures IsRow(d'.state.assets, d'.returned[i], attempts[i]) {
        if i < n {
          assert IsRow(d.state.assets, d.returned[i], attempts[..n][i]);
          assert d'.returned[i] == d'.returned[..n][i];
        }
      }
    }
  }

  /** Two handles that are one row of the buffer but two rows of the store. */
  ghost predicate Mixed(b: Buffer, t: Tables, attempts: seq<Attempt>, h: Handle, k: Handle) {
    var s, d := Buffered(Ids(b.rows), b, attempts), Direct(Ids(b.rows), t, attempts);
    var x, y, z := Resolve(Ids(b.rows), s.returned, h), Resolve(Ids(b.rows), d.returned, h), Resolve(Ids(b.rows), d.returned, k);
    && !s.state.sealed && x.Some? && FindId(s.state.rows, x.value).Some? && Resolve(Ids(b.rows), s.returned, k) == x
    && y.Some? && z.Some? && y != z && 1 <= y.value <= |d.state.assets| && 1 <= z.value <= |d.state.assets|
  }

  /** One record through one of them tells the replay from the direct calls, if nothing did before. */
  lemma {:induction false} MixedIsSeen(b: Buffer, t: Tables, attempts: seq<Attempt>, h: Handle, k: Handle) returns (more: seq<Attempt>)
    requires Mixed(b, t, attempts, h, k)
    ensures NoUpserts(more) && !Replays(b, t, attempts + more)
  {
    var s, d := Buffered(Ids(b.rows), b, attempts), Direct(Ids(b.rows), t, attempts);
    var r := Replay(t, s.state.operations);
    var x := Resolve(Ids(b.rows), s.returned, h).value;
    var wrong := if Actual(r.ids, x) != Resolve(Ids(b.rows), d.returned, h).value then h else k;
    if !Replays(b, t, attempts) {
      more := [];
      assert attempts + more == attempts;
    } else {
      var a := Attempt(CallRecord(wrong, EMPTY_OBJECT, "success", None), false);
      more := [a];
      BufferedMore(Ids(b.rows), b, t, attempts, a);
      var op := RecordAsset(x, EMPTY_OBJECT, "success", None);
      var ops := Buffered(Ids(b.rows), b, attempts + more).state.operations;
      assert ops == s.state.operations + [op] && ops[..|ops| - 1] == s.state.operations;
      RecordsDiffer(r.tables, Actual(r.ids, x), Resolve(Ids(b.rows), d.returned, wrong).value);
    }
  }

  lemma {:induction false} RecordsDiffer(t: Tables, m: int, n: int)
    requires m != n && 1 <= n <= |t.assets|
    ensures StoreRecord(t, m, EMPTY_OBJECT, "success", None) != StoreRecord(t, n, EMPTY_OBJECT, "success", None)
  {
    var b := StoreRecord(t, n, EMPTY_OBJECT, "success", None).value;
    assert b.assets[n - 1].attempts == t.assets[n - 1].attempts + 1;
    var a := StoreRecord(t, m, EMPTY_OBJECT, "success", None);
    if a.Ok? {
      assert a.value.assets[n - 1].attempts == t.assets[n - 1].attempts;
    }
  }

  /** An upsert on another network than the one its asset is listed on. */
  lemma {:induction false} ListedMixes(b: Buffer, t: Tables, scope: Scope, attempts: seq<Attempt>, i: nat, k: nat)
    requires SnapshotOf(b, t, scope) && i < |attempts| && k < |b.rows| && Upserts(attempts[i])
    requires b.rows[k].asset == AssetOf(attempts[i]) && Named(attempts[i]) != scope
    ensures Mixed(b, t, attempts, Returned(i), Listed(k))
  {
    SnapshotIdsAbove(b, t, scope);
    BufferStaysSound(b, attempts);
    DirectStaysSound(Ids(b.rows), t, attempts);
    var s, d := Buffered(Ids(b.rows), b, attempts), Direct(Ids(b.rows), t, attempts);
    assert HoldsRow(s.state.rows, s.returned[i], attempts[i]) && IsRow(d.state.assets, d.returned[i], attempts[i]);
    RowFound(s.state.rows, k);
    IdFound(s.state.rows, k);
    assert ListedRow(b.rows[k], t.assets, scope);
  }

  lemma {:induction false} SnapshotIdsAbove(b: Buffer, t: Tables, scope: Scope)
    requires SnapshotOf(b, t, scope)
    ensures forall i | 0 <= i < |b.rows| :: b.nextId < b.rows[i].id
  {
    forall i | 0 <= i < |b.rows| ensures b.nextId < b.rows[i].id {
      assert ListedRow(b.rows[i], t.assets, scope);
    }
  }

  /** Two upserts of one asset on two networks. */
  lemma {:induction false} UpsertsMix(b: Buffer, t: Tables, scope: Scope, attempts: seq<Attempt>, i: nat, j: nat)
    requires SnapshotOf(b, t, scope) && i < j < |attempts| && Upserts(attempts[i]) && Upserts(attempts[j])
    requires AssetOf(attempts[i]) == AssetOf(attempts[j]) && Named(attempts[i]) != Named(attempts[j])
    ensures Mixed(b, t, attempts, Returned(i), Returned(j))
  {
    SnapshotIdsAbove(b, t, scope);
    BufferStaysSound(b, attempts);
    DirectStaysSound(Ids(b.rows), t, attempts);
    var s, d := Buffered(Ids(b.rows), b, attempts), Direct(Ids(b.rows), t, attempts);
    assert HoldsRow(s.state.rows, s.returned[i], attempts[i]) && HoldsRow(s.state.rows, s.returned[j], attempts[j]);
    assert IsRow(d.state.assets, d.returned[i], attempts[i]) && IsRow(d.state.assets, d.returned[j], attempts[j]);
    IdFound(s.state.rows, FindRow(s.state.rows, AssetOf(attempts[i])).value);
  }

  lemma {:induction false} OneHomeStays(rows: seq<Row>, scope: Scope, attempts: seq<Attempt>, more: seq<Attempt>)
    requires OneHome(rows, scope, attempts) && NoUpserts(more)
    ensures OneHome(rows, scope, attempts + more)
  {
    assert forall i | 0 <= i < |attempts + more| && Upserts((attempts + more)[i]) :: i < |attempts| && (attempts + more)[i] == attempts[i];
  }

  /** Exactly when a buffer is as good as the store: for every session, whatever it names and whatever else follows it, replay and
      direct calls agree if and only if the session names no asset on two networks. */
  lemma {:induction false} ReplayIsDirectIff(b: Buffer, t: Tables, scope: Scope, attempts: seq<Attempt>)
    requires SnapshotOf(b, t, scope)
    ensures OneHome(b.rows, scope, attempts) <==> forall more | NoUpserts(more) :: Replays(b, t, attempts + more)
  {
    if OneHome(b.rows, scope, attempts) {
      forall more | NoUpserts(more) ensures Replays(b, t, attempts + more) {
        OneHomeStays(b.rows, scope, attempts, more);
        ReplayIsDirect(b, t, scope, attempts + more);
      }
    } else if i, k :| 0 <= i < |attempts| && Upserts(attempts[i]) && 0 <= k < |b.rows| && b.rows[k].asset == AssetOf(attempts[i])
                      && Named(attempts[i]) != scope {
      ListedMixes(b, t, scope, attempts, i, k);
      var more := MixedIsSeen(b, t, attempts, Returned(i), Listed(k));
    } else {
      var i, j :| 0 <= i < j < |attempts| && Upserts(attempts[i]) && Upserts(attempts[j])
                  && AssetOf(attempts[i]) == AssetOf(attempts[j]) && Named(attempts[i]) != Named(attempts[j]);
      UpsertsMix(b, t, scope, attempts, i, j);
      var more := MixedIsSeen(b, t, attempts, Returned(i), Returned(j));
    }
  }

  /** Nothing attempted after sealing changes what will be replayed. */
  lemma {:induction false} SealedIsFinal(listed: seq<int>, b: Buffer, late: seq<Attempt>)
    requires b.sealed
    ensures Buffered(listed, b, late).state == b
    decreases |late|
  {
    if late != [] {
      SealedIsFinal(listed, b, late[..|late| - 1]);
    }
  }
}
