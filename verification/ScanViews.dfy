/** What a worker sees through its scan buffer, and several buffers over one store. */
module ScanViews {
  import opened Prelude
  import opened ScanBuffers
  import opened ScanReplay

  // ---------------------------------------------------------------- what the worker sees

  /** A buffered row of another network that the store had before: the worker has not recorded it yet, so it sees a blank row
      where the store still has the old state. */
  ghost predicate Unseen(row: Row, stored: AssetRow, n: nat, original: seq<AssetRow>, scope: Scope) {
    && row.status == "pending" && row.result.None? && row.retryAfter.None?
    && n < |original| && original[n].scope != scope
    && stored.status == original[n].status && stored.result == original[n].result && stored.retryAfter == original[n].retryAfter
  }

  ghost predicate RowViewed(row: Row, assets: seq<AssetRow>, ids: map<int, int>, original: seq<AssetRow>, scope: Scope) {
    var actual := Actual(ids, row.id);
    && 1 <= actual <= |assets| && ContentShown(row, assets[actual - 1])
    && (StateShown(row, assets[actual - 1]) || Unseen(row, assets[actual - 1], actual - 1, original, scope))
  }

  /** Every row is seen in one of these ways, every row in scope and every new row is buffered, and a row that is not buffered is
      untouched. */
  ghost predicate Views(rows: seq<Row>, assets: seq<AssetRow>, ids: map<int, int>, original: seq<AssetRow>, scope: Scope) {
    && KeysKept(original, assets)
    && (forall i {:trigger RowViewed(rows[i], assets, ids, original, scope)} | 0 <= i < |rows| ::
          RowViewed(rows[i], assets, ids, original, scope))
    && (forall n {:trigger HasRow(rows, assets[n].asset)} | 0 <= n < |assets| && (assets[n].scope == scope || n >= |original|) ::
          HasRow(rows, assets[n].asset))
    && (forall n {:trigger Touched(rows, original[n])} | 0 <= n < |original| && !Touched(rows, original[n]) :: assets[n] == original[n])
  }

  ghost predicate Touched(rows: seq<Row>, stored: AssetRow) {
    HasRow(rows, stored.asset)
  }

  lemma {:induction false} HasRowStays(rows: seq<Row>, rows': seq<Row>, asset: string)
    requires RowsKept(rows, rows') && HasRow(rows, asset)
    ensures HasRow(rows', asset)
  {
    var i :| 0 <= i < |rows| && rows[i].asset == asset;
    assert rows'[i].asset == asset;
  }

  /** A step that touches one store row, which is buffered then, keeps the views if it keeps the view of every buffered row. */
  lemma {:induction false} StepKeepsViews(rows: seq<Row>, assets: seq<AssetRow>, ids: map<int, int>,
                                          rows': seq<Row>, assets': seq<AssetRow>, ids': map<int, int>,
                                          original: seq<AssetRow>, scope: Scope, m: nat)
    requires Views(rows, assets, ids, original, scope) && RowsKept(rows, rows') && KeysKept(assets, assets')
    requires m < |assets'| <= |assets| + 1 && (|assets'| > |assets| ==> m == |assets|)
    requires forall n | 0 <= n < |assets| && n != m :: assets'[n] == assets[n]
    requires HasRow(rows', assets'[m].asset)
    requires forall i {:trigger RowViewed(rows'[i], assets', ids', original, scope)} | 0 <= i < |rows'| ::
               RowViewed(rows'[i], assets', ids', original, scope)
    ensures Views(rows', assets', ids', original, scope)
  {
    forall n | 0 <= n < |assets'| && (assets'[n].scope == scope || n >= |original|) ensures HasRow(rows', assets'[n].asset) {
      if n != m {
        assert HasRow(rows, assets[n].asset);
        HasRowStays(rows, rows', assets[n].asset);
      }
    }
    forall n | 0 <= n < |original| && !Touched(rows', original[n]) ensures assets'[n] == original[n] {
      if Touched(rows, original[n]) {
        HasRowStays(rows, rows', original[n].asset);
      }
      assert n != m;
    }
  }

  /** A row whose own side is untouched is seen as before. */
  lemma {:induction false} ViewStays(row: Row, assets: seq<AssetRow>, ids: map<int, int>, assets': seq<AssetRow>, ids': map<int, int>,
                                     original: seq<AssetRow>, scope: Scope)
    requires RowViewed(row, assets, ids, original, scope) && Actual(ids', row.id) == Actual(ids, row.id)
    requires Actual(ids, row.id) <= |assets'| && assets'[Actual(ids, row.id) - 1] == assets[Actual(ids, row.id) - 1]
    ensures RowViewed(row, assets', ids', original, scope)
  {
  }

  /** Rewriting one buffered row and the row it stands for keeps the views if it keeps that one. */
  lemma {:induction false} RewriteKeepsViews(b: Buffer, t: Tables, ids: map<int, int>, home: Home, original: seq<AssetRow>,
        scope: Scope, i: nat, row: Row, stored: AssetRow, ids': map<int, int>)
    requires Linked(b, t, ids, home) && Views(b.rows, t.assets, ids, original, scope) && i < |b.rows|
    requires row.id == b.rows[i].id && row.asset == b.rows[i].asset == stored.asset && stored.scope == home(row.asset)
    requires forall k | 0 <= k < |b.rows| :: Actual(ids', b.rows[k].id) == Actual(ids, b.rows[k].id)
    requires 1 <= Actual(ids, row.id) <= |t.assets|
    requires RowViewed(row, t.assets[Actual(ids, row.id) - 1 := stored], ids', original, scope)
    ensures Views(b.rows[i := row], t.assets[Actual(ids, row.id) - 1 := stored], ids', original, scope)
  {
    var rows, m := b.rows[i := row], Actual(ids, row.id) - 1;
    var assets := t.assets[m := stored];
    assert RowLinked(b.rows[i], t.assets, ids, home);
    forall k | 0 <= k < |rows| ensures RowViewed(rows[k], assets, ids', original, scope) {
      if k != i {
        assert RowViewed(b.rows[k], t.assets, ids, original, scope);
        ActualDiffers(b.rows, t.assets, ids, home, k, i);
        ViewStays(b.rows[k], t.assets, ids, assets, ids', original, scope);
      }
    }
    assert rows[i].asset == assets[m].asset;
    StepKeepsViews(b.rows, t.assets, ids, rows, assets, ids', original, scope, m);
  }

  lemma {:induction false} UpdateKeepsViews(b: Buffer, t: Tables, ids: map<int, int>, home: Home, original: seq<AssetRow>, scope: Scope,
                                            wallet: string, chainId: int, assetId: string, kind: string, metadata: Option<Json>)
    requires Linked(b, t, ids, home) && Views(b.rows, t.assets, ids, original, scope)
    requires ScopeOf(wallet, chainId) == home(Lower(assetId)) && FindRow(b.rows, Lower(assetId)).Some?
    ensures var (after, id) := BufferUpsert(b, wallet, chainId, assetId, kind, metadata);
            var (tables, actual) := StoreUpsert(t, ScopeOf(wallet, chainId), Lower(assetId), kind, metadata);
            Views(after.rows, tables.assets, ids[id := actual], original, scope)
  {
    SameRowFound(b.rows, t.assets, ids, home, Lower(assetId));
    var i := FindRow(b.rows, Lower(assetId)).value;
    var n := Actual(ids, b.rows[i].id) - 1;
    var row := b.rows[i].(kind := kind, metadata := metadata);
    var stored := t.assets[n].(kind := kind, metadata := metadata.GetOr(EMPTY_OBJECT));
    assert RowViewed(b.rows[i], t.assets, ids, original, scope);
    RewriteKeepsViews(b, t, ids, home, original, scope, i, row, stored, ids[row.id := n + 1]);
  }

  /** A store row that is not buffered yet is another network's, and still as it was. */
  lemma {:induction false} UnbufferedIsForeign(rows: seq<Row>, assets: seq<AssetRow>, ids: map<int, int>, original: seq<AssetRow>,
                                               scope: Scope, n: nat)
    requires Views(rows, assets, ids, original, scope) && n < |assets| && FindRow(rows, assets[n].asset).None?
    ensures n < |original| && assets[n] == original[n] && original[n].scope != scope
  {
    assert !HasRow(rows, assets[n].asset);
    assert !Touched(rows, original[n]);
  }

  lemma {:induction false} NewRowKeepsViews(b: Buffer, t: Tables, ids: map<int, int>, home: Home, original: seq<AssetRow>,
        scope: Scope, row: Row, assets: seq<AssetRow>, m: nat)
    requires Linked(b, t, ids, home) && Views(b.rows, t.assets, ids, original, scope)
    requires FindRow(b.rows, row.asset).None? && row.id == b.nextId && KeysKept(t.assets, assets)
    requires m < |assets| <= |t.assets| + 1 && (|assets| > |t.assets| ==> m == |t.assets|) && assets[m].asset == row.asset
    requires forall n | 0 <= n < |t.assets| && n != m :: assets[n] == t.assets[n]
    requires RowViewed(row, assets, ids[row.id := m + 1], original, scope)
    ensures Views(b.rows + [row], assets, ids[row.id := m + 1], original, scope)
  {
    var rows, ids' := b.rows + [row], ids[row.id := m + 1];
    forall k | 0 <= k < |rows| ensures RowViewed(rows[k], assets, ids', original, scope) {
      if k < |b.rows| {
        assert RowViewed(b.rows[k], t.assets, ids, original, scope) && RowLinked(b.rows[k], t.assets, ids, home);
        ViewStays(b.rows[k], t.assets, ids, assets, ids', original, scope);
      }
    }
    assert rows[|b.rows|].asset == assets[m].asset;
    StepKeepsViews(b.rows, t.assets, ids, rows, assets, ids', original, scope, m);
  }

  /** The row that an upsert buffers is seen: as stored if the store adds it too, and else as another network's. */
  lemma {:induction false} AttachedIsViewed(rows: seq<Row>, t: Tables, ids': map<int, int>, ids: map<int, int>, original: seq<AssetRow>,
        scope: Scope, id: int, named: Scope, asset: string, kind: string, metadata: Option<Json>)
    requires Views(rows, t.assets, ids, original, scope) && FindRow(rows, asset).None? && id < 0
    requires var (tables, actual) := StoreUpsert(t, named, asset, kind, metadata); Actual(ids', id) == actual
    ensures var (tables, actual) := StoreUpsert(t, named, asset, kind, metadata);
            RowViewed(Row(id, asset, kind, metadata, "pending", None, None), tables.assets, ids', original, scope)
  {
    var found := FindAsset(t.assets, named, asset);
    if found.Some? {
      UnbufferedIsForeign(rows, t.assets, ids, original, scope, found.value);
    }
  }

  lemma {:induction false} AttachKeepsViews(b: Buffer, t: Tables, ids: map<int, int>, home: Home, original: seq<AssetRow>, scope: Scope,
                                            wallet: string, chainId: int, assetId: string, kind: string, metadata: Option<Json>)
    requires Linked(b, t, ids, home) && Views(b.rows, t.assets, ids, original, scope)
    requires FindRow(b.rows, Lower(assetId)).None?
    ensures var (after, id) := BufferUpsert(b, wallet, chainId, assetId, kind, metadata);
            var (tables, actual) := StoreUpsert(t, ScopeOf(wallet, chainId), Lower(assetId), kind, metadata);
            Views(after.rows, tables.assets, ids[id := actual], original, scope)
  {
    var (tables, actual) := StoreUpsert(t, ScopeOf(wallet, chainId), Lower(assetId), kind, metadata);
    UpsertKeepsUnique(t, ScopeOf(wallet, chainId), Lower(assetId), kind, metadata);
    AttachedIsViewed(b.rows, t, ids[b.nextId := actual], ids, original, scope, b.nextId, ScopeOf(wallet, chainId), Lower(assetId), kind,
                     metadata);
    NewRowKeepsViews(b, t, ids, home, original, scope,
                     Row(b.nextId, Lower(assetId), kind, metadata, "pending", None, None), tables.assets, actual - 1);
  }

  lemma {:induction false} RecordKeepsViews(b: Buffer, t: Tables, ids: map<int, int>, home: Home, original: seq<AssetRow>, scope: Scope,
                                            id: int, result: Json, status: string, retryAfter: Option<real>)
    requires Linked(b, t, ids, home) && Views(b.rows, t.assets, ids, original, scope) && FindId(b.rows, id).Some?
    ensures var after := BufferRecord(b, id, result, status, retryAfter);
            var tables := StoreRecord(t, Actual(ids, id), result, status, retryAfter);
            && after.Ok? && tables.Ok? && Views(after.value.rows, tables.value.assets, ids, original, scope)
  {
    var i := FindId(b.rows, id).value;
    assert RowLinked(b.rows[i], t.assets, ids, home) && RowViewed(b.rows[i], t.assets, ids, original, scope);
    var stored := t.assets[Actual(ids, id) - 1];
    RewriteKeepsViews(b, t, ids, home, original, scope, i,
                      b.rows[i].(result := Some(result), status := status, retryAfter := retryAfter),
                      stored.(result := Some(result), status := status, attempts := stored.attempts + 1, retryAfter := retryAfter),
                      ids);
  }

  lemma {:induction false} AttemptKeepsViews(t: Tables, s: Session<Buffer>, d: Session<Tables>, listed: seq<int>, home: Home,
                                             original: seq<AssetRow>, scope: Scope, a: Attempt)
    requires Matched(s, d, Replay(t, s.state.operations), listed, home)
    requires Views(s.state.rows, d.state.assets, Replay(t, s.state.operations).ids, original, scope)
    requires Upserts(a) ==> home(AssetOf(a)) == Named(a)
    ensures var s' := BufferedCall(listed, s, a);
            Views(s'.state.rows, DirectCall(listed, d, a).state.assets, Replay(t, s'.state.operations).ids, original, scope)
  {
    var r := Replay(t, s.state.operations);
    if a.expired || (a.call.CallRecord? && Resolve(listed, s.returned, a.call.handle).None?) {
      RefusedStays(s, d, r, listed, home, a);
    } else {
      var c := a.call;
      match c
      case CallUpsert(wallet, chainId, assetId, kind, metadata) =>
        var r' := UpsertStays(s, d, r, listed, home, a);
        if FindRow(s.state.rows, AssetOf(a)).Some? {
          UpdateKeepsViews(s.state, d.state, r.ids, home, original, scope, wallet, chainId, assetId, kind, metadata);
        } else {
          AttachKeepsViews(s.state, d.state, r.ids, home, original, scope, wallet, chainId, assetId, kind, metadata);
        }
      case CallRecord(handle, outcome, status, retryAfter) =>
        var r' := RecordStays(s, d, r, listed, home, a);
        ResolvedMatch(s.state.rows, r.ids, listed, s.returned, d.returned, handle);
        RecordKeepsViews(s.state, d.state, r.ids, home, original, scope, Resolve(listed, s.returned, handle).value,
                         outcome, status, retryAfter);
      case CallDiscovery(_, _, _) => var r' := OthersStay(s, d, r, listed, home, a);
      case CallPass(_, _, _) => var r' := OthersStay(s, d, r, listed, home, a);
    }
  }

  lemma {:induction false} SessionViews(b: Buffer, t: Tables, scope: Scope, home: Home, attempts: seq<Attempt>)
    requires SnapshotOf(b, t, scope) && Fits(home, b.rows, scope, attempts)
    ensures var s := Buffered(Ids(b.rows), b, attempts);
            && Matched(s, Direct(Ids(b.rows), t, attempts), Replay(t, s.state.operations), Ids(b.rows), home)
            && Views(s.state.rows, Direct(Ids(b.rows), t, attempts).state.assets, Replay(t, s.state.operations).ids, t.assets, scope)
    decreases |attempts|
  {
    var listed := Ids(b.rows);
    SessionsMatch(b, t, scope, home, attempts);
    if attempts == [] {
      forall i | 0 <= i < |b.rows| ensures RowViewed(b.rows[i], t.assets, map[], t.assets, scope) {
        assert ListedRow(b.rows[i], t.assets, scope);
      }
    } else {
      var n := |attempts| - 1;
      SessionViews(b, t, scope, home, attempts[..n]);
      AttemptKeepsViews(t, Buffered(listed, b, attempts[..n]), Direct(listed, t, attempts[..n]), listed, home, t.assets, scope,
                        attempts[n]);
    }
  }

  /** What the worker saw is what is stored: every id it was handed is one row of the store, of its asset's network; temporary
      ids of different rows are different rows; kind and metadata are the stored ones; and so is the state, unless the row is
      another network's, was there before, and has not been recorded since. */
  lemma {:induction false} WorkerSawTheStore(b: Buffer, t: Tables, scope: Scope, attempts: seq<Attempt>, i: nat, j: nat)
    requires SnapshotOf(b, t, scope) && OneHome(b.rows, scope, attempts)
    requires var rows := Buffered(Ids(b.rows), b, attempts).state.rows; i < |rows| && j < |rows| && i != j
    ensures var rows := Buffered(Ids(b.rows), b, attempts).state.rows;
            var r := Replay(t, Buffered(Ids(b.rows), b, attempts).state.operations);
            && rows[i].id != rows[j].id && Actual(r.ids, rows[i].id) != Actual(r.ids, rows[j].id)
            && RowLinked(rows[i], r.tables.assets, r.ids, asset => HomeOf(scope, attempts, asset))
            && RowViewed(rows[i], r.tables.assets, r.ids, t.assets, scope)
  {
    HomeFits(b.rows, scope, attempts);
    var home := asset => HomeOf(scope, attempts, asset);
    SessionViews(b, t, scope, home, attempts);
    var s := Buffered(Ids(b.rows), b, attempts);
    var r := Replay(t, s.state.operations);
    ActualDiffers(s.state.rows, r.tables.assets, r.ids, home, i, j);
    assert RowLinked(s.state.rows[i], r.tables.assets, r.ids, home);
    assert RowViewed(s.state.rows[i], r.tables.assets, r.ids, t.assets, scope);
  }

  ghost predicate Blank(stored: AssetRow) {
    stored.status == "pending" && stored.result.None? && stored.retryAfter.None?
  }

  /** The upsert names a row of another network that the store has with a state of its own. */
  ghost predicate Blind(t: Tables, scope: Scope, a: Attempt) {
    && Upserts(a) && Named(a) != scope
    && var found := FindAsset(t.assets, Named(a), AssetOf(a));
       found.Some? && !Blank(t.assets[found.value])
  }

  /** At the end of a session every buffered row shows its stored row. */
  ghost predicate AllShown(b: Buffer, t: Tables, attempts: seq<Attempt>) {
    var rows := Buffered(Ids(b.rows), b, attempts).state.rows;
    var r := Replay(t, Buffered(Ids(b.rows), b, attempts).state.operations);
    forall i {:trigger ShownBy(rows[i], r)} | 0 <= i < |rows| :: ShownBy(rows[i], r)
  }

  ghost predicate ShownBy(row: Row, r: Replayed) {
    var actual := Actual(r.ids, row.id);
    1 <= actual <= |r.tables.assets| && Shows(row, r.tables.assets[actual - 1])
  }

  lemma {:induction false} PrefixHasOneHome(rows: seq<Row>, scope: Scope, attempts: seq<Attempt>, n: nat)
    requires OneHome(rows, scope, attempts) && n <= |attempts|
    ensures OneHome(rows, scope, attempts[..n])
  {
  }

  lemma {:induction false} ShownWithoutBlind(b: Buffer, t: Tables, scope: Scope, attempts: seq<Attempt>)
    requires SnapshotOf(b, t, scope) && OneHome(b.rows, scope, attempts)
    requires forall i | 0 <= i < |attempts| :: !Blind(t, scope, attempts[i])
    ensures AllShown(b, t, attempts)
  {
    HomeFits(b.rows, scope, attempts);
    var home := asset => HomeOf(scope, attempts, asset);
    SessionViews(b, t, scope, home, attempts);
    var rows := Buffered(Ids(b.rows), b, attempts).state.rows;
    var r := Replay(t, Buffered(Ids(b.rows), b, attempts).state.operations);
    forall i | 0 <= i < |rows| ensures ShownBy(rows[i], r) {
      assert RowViewed(rows[i], r.tables.assets, r.ids, t.assets, scope) && RowLinked(rows[i], r.tables.assets, r.ids, home);
      var n := Actual(r.ids, rows[i].id) - 1;
      if !StateShown(rows[i], r.tables.assets[n]) {
        HomeIsNamed(scope, attempts, rows[i].asset);
        AssetFound(t.assets, n);
      }
    }
  }

  /** A row enters the buffer with the listing or with an upsert. */
  lemma {:induction false} RowsAreNamed(b: Buffer, attempts: seq<Attempt>, k: nat)
    requires !b.sealed && k < |Buffered(Ids(b.rows), b, attempts).state.rows|
    ensures !Buffered(Ids(b.rows), b, attempts).state.sealed
    ensures var row := Buffered(Ids(b.rows), b, attempts).state.rows[k];
            HasRow(b.rows, row.asset) || exists i | 0 <= i < |attempts| && Upserts(attempts[i]) :: AssetOf(attempts[i]) == row.asset
    decreases |attempts|
  {
    if attempts == [] {
      assert b.rows[k].asset == b.rows[k].asset;
    } else {
      var n := |attempts| - 1;
      var before := Buffered(Ids(b.rows), b, attempts[..n]);
      if k < |before.state.rows| {
        RowsAreNamed(b, attempts[..n], k);
        if i :| 0 <= i < n && Upserts(attempts[..n][i]) && AssetOf(attempts[..n][i]) == before.state.rows[k].asset {
          assert attempts[i] == attempts[..n][i];
        }
      } else {
        NotSealed(b, attempts[..n]);
        assert Upserts(attempts[n]);
      }
    }
  }

  lemma {:induction false} NotSealed(b: Buffer, attempts: seq<Attempt>)
    requires !b.sealed
    ensures !Buffered(Ids(b.rows), b, attempts).state.sealed
    decreases |attempts|
  {
    if attempts != [] {
      NotSealed(b, attempts[..|attempts| - 1]);
    }
  }

  /** Right after the first upsert of such an asset its buffered row is blank and the stored one is not. */
  lemma {:induction false} BlindIsNotShown(b: Buffer, t: Tables, scope: Scope, attempts: seq<Attempt>, i: nat)
    requires SnapshotOf(b, t, scope) && OneHome(b.rows, scope, attempts) && i < |attempts| && Blind(t, scope, attempts[i])
    requires forall k | 0 <= k < i && Upserts(attempts[k]) :: AssetOf(attempts[k]) != AssetOf(attempts[i])
    ensures !AllShown(b, t, attempts[..i + 1])
  {
    HomeFits(b.rows, scope, attempts);
    var home := asset => HomeOf(scope, attempts, asset);
    FitsPrefix(home, b.rows, scope, attempts, i);
    assert attempts[..i + 1][..i] == attempts[..i] && attempts[..i + 1][i] == attempts[i];
    SessionViews(b, t, scope, home, attempts[..i]);
    var s, d := Buffered(Ids(b.rows), b, attempts[..i]), Direct(Ids(b.rows), t, attempts[..i]);
    NotBufferedYet(b, scope, attempts, i);
    var s', r' := BlindCall(b.rows, t, s, d, scope, home, attempts[i]);
    assert s' == Buffered(Ids(b.rows), b, attempts[..i + 1]);
  }

  lemma {:induction false} BlindCall(rows: seq<Row>, t: Tables, s: Session<Buffer>, d: Session<Tables>, scope: Scope, home: Home,
                                     a: Attempt)
    returns (s': Session<Buffer>, r': Replayed)
    requires Matched(s, d, Replay(t, s.state.operations), Ids(rows), home)
    requires Views(s.state.rows, d.state.assets, Replay(t, s.state.operations).ids, t.assets, scope)
    requires Blind(t, scope, a) && home(AssetOf(a)) == Named(a)
    requires !HasRow(s.state.rows, AssetOf(a)) && FindRow(s.state.rows, AssetOf(a)).None?
    ensures s' == BufferedCall(Ids(rows), s, a) && r' == Replay(t, s'.state.operations)
    ensures |s'.state.rows| > |s.state.rows| && !ShownBy(s'.state.rows[|s.state.rows|], r')
  {
    var r := Replay(t, s.state.operations);
    var n := FindAsset(t.assets, Named(a), AssetOf(a)).value;
    assert !Touched(s.state.rows, t.assets[n]);
    AssetFound(d.state.assets, n);
    s' := BufferedCall(Ids(rows), s, a);
    r' := UpsertStays(s, d, r, Ids(rows), home, a);
    var row := s'.state.rows[|s.state.rows|];
    assert Actual(r'.ids, row.id) == n + 1;
  }

  lemma {:induction false} FitsPrefix(home: Home, rows: seq<Row>, scope: Scope, attempts: seq<Attempt>, n: nat)
    requires Fits(home, rows, scope, attempts) && n <= |attempts|
    ensures Fits(home, rows, scope, attempts[..n])
  {
  }

  lemma {:induction false} NotBufferedYet(b: Buffer, scope: Scope, attempts: seq<Attempt>, i: nat)
    requires !b.sealed && OneHome(b.rows, scope, attempts) && i < |attempts| && Upserts(attempts[i]) && Named(attempts[i]) != scope
    requires forall k | 0 <= k < i && Upserts(attempts[k]) :: AssetOf(attempts[k]) != AssetOf(attempts[i])
    ensures !HasRow(Buffered(Ids(b.rows), b, attempts[..i]).state.rows, AssetOf(attempts[i]))
    ensures FindRow(Buffered(Ids(b.rows), b, attempts[..i]).state.rows, AssetOf(attempts[i])).None?
  {
    var rows := Buffered(Ids(b.rows), b, attempts[..i]).state.rows;
    forall k | 0 <= k < |rows| ensures rows[k].asset != AssetOf(attempts[i]) {
      RowsAreNamed(b, attempts[..i], k);
    }
  }

  /** The earliest upsert of the asset is blind with it. */
  lemma {:induction false} FirstBlind(b: Buffer, t: Tables, scope: Scope, attempts: seq<Attempt>, i: nat) returns (k: nat)
    requires OneHome(b.rows, scope, attempts) && i < |attempts| && Blind(t, scope, attempts[i])
    ensures k <= i && Blind(t, scope, attempts[k])
    ensures forall m | 0 <= m < k && Upserts(attempts[m]) :: AssetOf(attempts[m]) != AssetOf(attempts[k])
  {
    k := i;
    if m :| 0 <= m < i && Upserts(attempts[m]) && AssetOf(attempts[m]) == AssetOf(attempts[i]) {
      k := FirstBlind(b, t, scope, attempts, m);
    }
  }

  /** Exactly when the worker sees the stored rows at every moment of its session. */
  lemma {:induction false} AlwaysShownIff(b: Buffer, t: Tables, scope: Scope, attempts: seq<Attempt>)
    requires SnapshotOf(b, t, scope) && OneHome(b.rows, scope, attempts)
    ensures (forall n | 0 <= n <= |attempts| :: AllShown(b, t, attempts[..n]))
            <==> forall i | 0 <= i < |attempts| :: !Blind(t, scope, attempts[i])
  {
    if i :| 0 <= i < |attempts| && Blind(t, scope, attempts[i]) {
      var k := FirstBlind(b, t, scope, attempts, i);
      BlindIsNotShown(b, t, scope, attempts, k);
    } else {
      forall n | 0 <= n <= |attempts| ensures AllShown(b, t, attempts[..n]) {
        PrefixHasOneHome(b.rows, scope, attempts, n);
        ShownWithoutBlind(b, t, scope, attempts[..n]);
      }
    }
  }

  // ---------------------------------------------------------------- discovery state

  ghost predicate StateShows(state: Option<Noted>, t: Tables, scope: Scope) {
    match state
    case None => scope !in t.discovery
    case Some(noted) =>
      scope in t.discovery && t.discovery[scope] ==
        Discovery(noted.cursor, noted.history.GetOr([]), noted.status, noted.retryAfter, noted.result, noted.error)
  }

  /** The network that the last accepted discovery write names; the buffer's own when there is none. */
  function LastNamed(scope: Scope, attempts: seq<Attempt>): Scope {
    if attempts == [] then scope
    else
      var a := attempts[|attempts| - 1];
      if !a.expired && a.call.CallDiscovery? then ScopeOf(a.call.wallet, a.call.chainId)
      else LastNamed(scope, attempts[..|attempts| - 1])
  }

  lemma {:induction false} DiscoveryStaysShown(s: Session<Buffer>, d: Session<Tables>, listed: seq<int>, at: Scope, a: Attempt)
    requires !s.state.sealed && StateShows(s.state.state, d.state, at)
    ensures var named := if !a.expired && a.call.CallDiscovery? then ScopeOf(a.call.wallet, a.call.chainId) else at;
            && !BufferedCall(listed, s, a).state.sealed
            && StateShows(BufferedCall(listed, s, a).state.state, DirectCall(listed, d, a).state, named)
  {
    match a.call
    case CallUpsert(wallet, chainId, assetId, kind, metadata) =>
    case CallRecord(handle, outcome, status, retryAfter) =>
    case CallDiscovery(wallet, chainId, given) =>
    case CallPass(wallet, chainId, block) =>
  }

  /** In every session the discovery state that the worker reads back is the stored one of the network it wrote last: its own,
      as long as it writes no other. */
  lemma {:induction false} DiscoveryIsShown(b: Buffer, t: Tables, scope: Scope, attempts: seq<Attempt>)
    requires !b.sealed && StateShows(b.state, t, scope)
    ensures !Buffered(Ids(b.rows), b, attempts).state.sealed
    ensures StateShows(Buffered(Ids(b.rows), b, attempts).state.state, Direct(Ids(b.rows), t, attempts).state,
                       LastNamed(scope, attempts))
    decreases |attempts|
  {
    if attempts != [] {
      var n := |attempts| - 1;
      var listed := Ids(b.rows);
      DiscoveryIsShown(b, t, scope, attempts[..n]);
      DiscoveryStaysShown(Buffered(listed, b, attempts[..n]), Direct(listed, t, attempts[..n]), listed,
                          LastNamed(scope, attempts[..n]), attempts[n]);
    }
  }

  // ---------------------------------------------------------------- several buffers

  /** The rows in scope are the same rows, at the same ids. */
  ghost predicate ScopeKept(assets: seq<AssetRow>, assets': seq<AssetRow>, scope: Scope) {
    && |assets| <= |assets'|
    && forall n {:trigger assets'[n]} | 0 <= n < |assets'| ::
         (n < |assets| && assets[n].scope == scope) || assets'[n].scope == scope ==> n < |assets| && assets'[n] == assets[n]
  }

  lemma {:induction false} CallElsewhere(t: Tables, s: Session<Buffer>, d: Session<Tables>, listed: seq<int>,
                                         home: Home, other: Scope, a: Attempt)
    requires Matched(s, d, Replay(t, s.state.operations), listed, home) && forall asset :: home(asset) != other
    requires Upserts(a) ==> Named(a) != other
    ensures ScopeKept(d.state.assets, DirectCall(listed, d, a).state.assets, other)
  {
    if a.call.CallRecord? {
      var ids := Replay(t, s.state.operations).ids;
      ResolvedMatch(s.state.rows, ids, listed, s.returned, d.returned, a.call.handle);
      var id := Resolve(listed, s.returned, a.call.handle);
      if id.Some? {
        var i := FindId(s.state.rows, id.value).value;
        assert RowLinked(s.state.rows[i], d.state.assets, ids, home);
      }
    }
  }

  lemma {:induction false} SessionElsewhere(b: Buffer, t: Tables, scope: Scope, home: Home, other: Scope, attempts: seq<Attempt>)
    requires SnapshotOf(b, t, scope) && Fits(home, b.rows, scope, attempts) && forall asset :: home(asset) != other
    requires forall i | 0 <= i < |attempts| && Upserts(attempts[i]) :: Named(attempts[i]) != other
    ensures ScopeKept(t.assets, Direct(Ids(b.rows), t, attempts).state.assets, other)
    decreases |attempts|
  {
    if attempts != [] {
      var n := |attempts| - 1;
      var listed := Ids(b.rows);
      FitsPrefix(home, b.rows, scope, attempts, n);
      SessionElsewhere(b, t, scope, home, other, attempts[..n]);
      SessionsMatch(b, t, scope, home, attempts[..n]);
      CallElsewhere(t, Buffered(listed, b, attempts[..n]), Direct(listed, t, attempts[..n]), listed, home, other, attempts[n]);
    }
  }

  /** Buffers of different networks are replayed one after the other in any order: replaying one whose session does not name the
      network of another leaves the rows that the other was opened on as they were, so the other's replay is still as good as
      its direct calls. */
  lemma {:induction false} ReplayKeepsOtherSnapshots(b: Buffer, t: Tables, scope: Scope, attempts: seq<Attempt>, waiting: Buffer,
        other: Scope)
    requires SnapshotOf(b, t, scope) && OneHome(b.rows, scope, attempts)
    requires scope != other && SnapshotOf(waiting, t, other)
    requires forall i | 0 <= i < |attempts| && Upserts(attempts[i]) :: Named(attempts[i]) != other
    ensures SnapshotOf(waiting, Replay(t, Buffered(Ids(b.rows), b, attempts).state.operations).tables, other)
  {
    var home := asset => HomeOf(scope, attempts, asset);
    HomeFits(b.rows, scope, attempts);
    forall asset ensures home(asset) != other {
      HomeIsNamed(scope, attempts, asset);
    }
    SessionsMatch(b, t, scope, home, attempts);
    SessionElsewhere(b, t, scope, home, other, attempts);
    SnapshotSurvives(waiting, t, Direct(Ids(b.rows), t, attempts).state, other);
  }

  lemma {:induction false} SnapshotSurvives(waiting: Buffer, t: Tables, after: Tables, other: Scope)
    requires SnapshotOf(waiting, t, other) && ScopeKept(t.assets, after.assets, other) && Unique(after.assets)
    ensures SnapshotOf(waiting, after, other)
  {
    forall i | 0 <= i < |waiting.rows| ensures ListedRow(waiting.rows[i], after.assets, other) {
      assert ListedRow(waiting.rows[i], t.assets, other);
    }
    forall n | 0 <= n < |after.assets| && after.assets[n].scope == other ensures HasRow(waiting.rows, after.assets[n].asset) {
      assert HasRow(waiting.rows, t.assets[n].asset);
    }
  }

  /** The listing of a scope, in table order. */
  function Listing(assets: seq<AssetRow>, scope: Scope): seq<Row> {
    if assets == [] then []
    else
      var n := |assets| - 1;
      var a := assets[n];
      Listing(assets[..n], scope) +
        if a.scope == scope then [Row(n + 1, a.asset, a.kind, Some(a.metadata), a.status, a.result, a.retryAfter)] else []
  }

  function Open(t: Tables, scope: Scope): Buffer {
    Buffer(Listing(t.assets, scope),
           if scope in t.discovery then
             var d := t.discovery[scope];
             Some(Noted(d.cursor, Some(d.history), d.status, d.retryAfter, d.result, d.error))
           else None,
           [], -1, false)
  }

  lemma {:induction false} ListingLists(assets: seq<AssetRow>, scope: Scope)
    requires Unique(assets)
    ensures Distinct(Listing(assets, scope)) && Lists(Listing(assets, scope), assets, scope)
    decreases |assets|
  {
    if assets != [] {
      var n := |assets| - 1;
      var before := assets[..n];
      ListingLists(before, scope);
      var was := Listing(before, scope);
      var rows := Listing(assets, scope);
      forall i | 0 <= i < |rows| ensures ListedRow(rows[i], assets, scope) {
        if i < |was| { assert ListedRow(was[i], before, scope); }
      }
      forall i, j | 0 <= i < j < |rows| ensures rows[i].id != rows[j].id && rows[i].asset != rows[j].asset {
        assert ListedRow(was[i], before, scope);
      }
      forall k | 0 <= k < |assets| && assets[k].scope == scope ensures HasRow(rows, assets[k].asset) {
        if k < n {
          assert HasRow(was, before[k].asset);
          var i :| 0 <= i < |was| && was[i].asset == before[k].asset;
          assert rows[i].asset == assets[k].asset;
        } else {
          assert rows[|was|].asset == assets[k].asset;
        }
      }
    }
  }

  /** A buffer opened on the store starts as its snapshot. */
  lemma {:induction false} OpenIsSnapshot(t: Tables, scope: Scope)
    requires Unique(t.assets)
    ensures SnapshotOf(Open(t, scope), t, scope) && StateShows(Open(t, scope).state, t, scope)
  {
    ListingLists(t.assets, scope);
  }

  const FOREIGN_ATTEMPTS := [Attempt(CallUpsert("w", 1, "a", "mandatory", None), false)]
                          + [Attempt(CallUpsert("w", 2, "a", "mandatory", None), false)]
                          + [Attempt(CallRecord(Returned(0), "{}", "success", None), false)]

  const FOREIGN_OPERATIONS := [UpsertAsset("w", 1, "a", "mandatory", None, -1)]
                            + [UpsertAsset("w", 2, "a", "mandatory", None, -1)]
                            + [RecordAsset(-1, "{}", "success", None)]

  /** A concrete session that names another chain: the buffer finds rows by asset alone, so the second upsert shares the
      temporary id of the first, and the replay records the result on the wrong row. */
  lemma {:induction false} ForeignUpsertMixesRows()
    ensures var t := Tables([], map[], map[]);
            var b := Open(t, ("w", 1));
            SnapshotOf(b, t, ("w", 1)) && !Replays(b, t, FOREIGN_ATTEMPTS)
  {
    var t := Tables([], map[], map[]);
    OpenIsSnapshot(t, ("w", 1));
    ForeignBuffered(Open(t, ("w", 1)), t);
    ForeignReplay(t);
    ForeignDirect(Open(t, ("w", 1)), t);
  }

  lemma {:induction false} ForeignBuffered(b: Buffer, t: Tables)
    requires b == Buffer([], None, [], -1, false)
    ensures Buffered(Ids(b.rows), b, FOREIGN_ATTEMPTS).state.operations == FOREIGN_OPERATIONS
  {
    var a0, a1, a2 := FOREIGN_ATTEMPTS[0], FOREIGN_ATTEMPTS[1], FOREIGN_ATTEMPTS[2];
    var listed := Ids(b.rows);
    BufferedMore(listed, b, t, [], a0);
    BufferedMore(listed, b, t, [a0], a1);
    BufferedMore(listed, b, t, [a0] + [a1], a2);
    assert [] + [a0] == [a0];
    assert Lower("w") == "w" && Lower("a") == "a";
    var s1 := Buffered(listed, b, [a0]);
    assert s1.returned == [Some(-1)] && s1.state.rows[0].id == -1;
    var s2 := Buffered(listed, b, [a0] + [a1]);
    assert s2.returned[0] == Some(-1) && s2.state.rows[0].id == -1;
  }

  lemma {:induction false} ForeignDirect(b: Buffer, t: Tables)
    requires t == Tables([], map[], map[])
    ensures var after := Direct(Ids(b.rows), t, FOREIGN_ATTEMPTS).state;
            |after.assets| == 2 && after.assets[1].attempts == 0
  {
    var a0, a1, a2 := FOREIGN_ATTEMPTS[0], FOREIGN_ATTEMPTS[1], FOREIGN_ATTEMPTS[2];
    var listed := Ids(b.rows);
    BufferedMore(listed, b, t, [], a0);
    BufferedMore(listed, b, t, [a0], a1);
    BufferedMore(listed, b, t, [a0] + [a1], a2);
    assert [] + [a0] == [a0];
    assert Lower("w") == "w" && Lower("a") == "a";
    var d2 := Direct(listed, t, [a0] + [a1]);
    assert d2.returned[0] == Some(1) && |d2.state.assets| == 2 && d2.state.assets[1].attempts == 0;
  }

  lemma {:induction false} ForeignReplay(t: Tables)
    requires t == Tables([], map[], map[])
    ensures var after := Replay(t, FOREIGN_OPERATIONS).tables;
            |after.assets| == 2 && after.assets[1].attempts == 1
  {
    var o0, o1, o2 := FOREIGN_OPERATIONS[0], FOREIGN_OPERATIONS[1], FOREIGN_OPERATIONS[2];
    assert ([o0] + [o1] + [o2])[..2] == [o0] + [o1] && ([o0] + [o1])[..1] == [o0] && [o0][..0] == [];
    assert Lower("w") == "w" && Lower("a") == "a";
    var r1 := Replay(t, [o0]);
    assert r1 == ReplayOne(Replay(t, []), o0);
    assert |r1.tables.assets| == 1 && r1.ids == map[-1 := 1] && r1.tables.assets[0].scope == ("w", 1);
    var r2 := Replay(t, [o0] + [o1]);
    assert |r2.tables.assets| == 2 && r2.ids[-1] == 2 && r2.tables.assets[1].attempts == 0;
  }
}
