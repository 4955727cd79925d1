/** Durable quote jobs: one row per job, claimed under an expiring lease by one of many owners and completed by
    compare-and-set.  `Result` stands for a stored response.  Attempt ids, which the program draws at random, are
    numbered here in the order in which they are drawn. */
module QuoteJobsModel {
  import opened Prelude

  const LEASE_SECONDS: real := 60.0

  datatype JobState = Inflight | Complete | NoRoute | QuotaWait | Error | Expired

  datatype Response = Response(noRoutes: bool, body: string)

  datatype Diagnostic = Diagnostic(reason: Option<string>)

  datatype Row = Row(state: JobState, observedAt: Option<real>, expiresAt: Option<real>, retryAt: Option<real>,
                     result: Option<Response>, diagnostic: Diagnostic, owner: string, attempt: nat,
                     leaseUntil: Option<real>)

  /** What one owner remembers while it lives. */
  datatype Memory = Memory(attempted: set<string>, failures: map<string, (Diagnostic, Option<real>)>)

  datatype Token = Token(key: string, attempt: nat, owner: string)

  predicate IsBadRequest(d: Diagnostic) {
    d.reason == Some("bad_request")
  }

  // ---------------------------------------------------------------- one transaction

  predicate PastExpiry(row: Row, now: real) {
    row.expiresAt.None? || row.expiresAt.value <= now
  }

  /** The row after a read. */
  function ReadRow(row: Row, now: real): Row {
    if row.state in {Complete, NoRoute} && PastExpiry(row, now) then row.(state := Expired) else row
  }

  function ReadAnswer(row: Row, includeInflight: bool, now: real): Option<Row> {
    match row.state
    case Complete | NoRoute => if PastExpiry(row, now) then None else Some(row)
    case Inflight => if includeInflight then Some(row) else None
    case Error | QuotaWait => Some(row)
    case Expired => None
  }

  /** `recheck` is what the optional recheck of a quota wait answers. */
  predicate ClaimAllowed(row: Option<Row>, key: string, memory: Memory, owner: string, recheck: Option<real>,
        now: real) {
    && key !in memory.failures
    && (row.Some? ==>
          var r := row.value;
          && !(r.state == Inflight && r.leaseUntil.Some? && r.leaseUntil.value > now)
          && !(r.state in {Complete, NoRoute} && !PastExpiry(r, now))
          && !(r.state == Error && (IsBadRequest(r.diagnostic) || key in memory.attempted || r.owner == owner))
          && !(r.state in {QuotaWait, Error} && r.retryAt.Some?
               && (if r.state == QuotaWait then recheck.GetOr(r.retryAt.value) else r.retryAt.value) > now))
  }

  function ClaimedRow(owner: string, attempt: nat, now: real): Row {
    Row(Inflight, None, None, None, None, Diagnostic(None), owner, attempt, Some(now + LEASE_SECONDS))
  }

  /** The token holds the row: its update matches exactly one row. */
  predicate Holds(row: Option<Row>, token: Token, owner: string, now: real) {
    && token.owner == owner
    && row.Some?
    && row.value.state == Inflight && row.value.owner == token.owner && row.value.attempt == token.attempt
    && row.value.leaseUntil.Some? && row.value.leaseUntil.value > now
  }

  function Renewed(row: Row, now: real): Row {
    row.(leaseUntil := Some(now + LEASE_SECONDS))
  }

  function Finished(row: Row, response: Response, observedAt: real, ttl: real): Row {
    row.(state := if response.noRoutes then NoRoute else Complete, result := Some(response),
         observedAt := Some(observedAt), expiresAt := Some(observedAt + ttl), retryAt := None,
         diagnostic := Diagnostic(None), leaseUntil := None)
  }

  /** A refused request, other than for its rate, is a bad request. */
  predicate Refused(statuses: seq<int>) {
    exists i | 0 <= i < |statuses| :: 400 <= statuses[i] < 500 && statuses[i] != 429
  }

  function FailureDiagnostic(statuses: seq<int>): Diagnostic {
    Diagnostic(if Refused(statuses) then Some("bad_request") else None)
  }

  function Failed(row: Row, wait: bool, diagnostic: Diagnostic, retryAt: Option<real>): Row {
    row.(state := if wait then QuotaWait else Error, diagnostic := diagnostic, retryAt := retryAt, leaseUntil := None)
  }

  function RememberFailure(memory: Memory, token: Token, owner: string, wait: bool, diagnostic: Diagnostic,
                           retryAt: Option<real>): Memory {
    if !wait && token.owner == owner then memory.(failures := memory.failures[token.key := (diagnostic, retryAt)])
    else memory
  }

  // ---------------------------------------------------------------- many owners, whole runs

  /** One dispatch: from its claim to the end of its lease, or to its completion if that comes first. */
  datatype Span = Span(key: string, from: real, until: real)

  /** One stored response. */
  datatype Stored = Stored(key: string, attempt: nat, response: Response, at: real, expiresAt: real)

  /** The table and the owners' memories; `spans` and `stored` record what happened. */
  datatype World = World(rows: map<string, Row>, memories: map<string, Memory>, spans: seq<Span>, stored: seq<Stored>)

  datatype Call =
    | Read(key: string)
    | Claim(owner: string, key: string, recheck: Option<real>)
    | Renew(owner: string, token: Token)
    | Finish(owner: string, token: Token, response: Response, observedAt: real, ttl: real)
    | Fail(owner: string, token: Token, wait: bool, statuses: seq<int>, retryAt: Option<real>)

  datatype Event = Event(call: Call, at: real)

  const START := World(map[], map[], [], [])

  function RowOf(w: World, key: string): Option<Row> {
    if key in w.rows then Some(w.rows[key]) else None
  }

  function MemoryOf(w: World, owner: string): Memory {
    if owner in w.memories then w.memories[owner] else Memory({}, map[])
  }

  function EndSpan(w: World, attempt: nat, until: real): World {
    if attempt < |w.spans| then w.(spans := w.spans[attempt := w.spans[attempt].(until := until)]) else w
  }

  function Step(w: World, e: Event): World {
    match e.call
    case Read(key) =>
      if key in w.rows then w.(rows := w.rows[key := ReadRow(w.rows[key], e.at)]) else w
    case Claim(owner, key, recheck) =>
      var memory := MemoryOf(w, owner);
      if !ClaimAllowed(RowOf(w, key), key, memory, owner, recheck, e.at) then w
      else
        w.(rows := w.rows[key := ClaimedRow(owner, |w.spans|, e.at)],
           memories := w.memories[owner := memory.(attempted := memory.attempted + {key})],
           spans := w.spans + [Span(key, e.at, e.at + LEASE_SECONDS)])
    case Renew(owner, token) =>
      if !Holds(RowOf(w, token.key), token, owner, e.at) then w
      else EndSpan(w.(rows := w.rows[token.key := Renewed(w.rows[token.key], e.at)]), token.attempt, e.at + LEASE_SECONDS)
    case Finish(owner, token, response, observedAt, ttl) =>
      if !Holds(RowOf(w, token.key), token, owner, e.at) then w
      else
        EndSpan(w.(rows := w.rows[token.key := Finished(w.rows[token.key], response, observedAt, ttl)],
                   stored := w.stored + [Stored(token.key, token.attempt, response, e.at, observedAt + ttl)]),
                token.attempt, e.at)
    case Fail(owner, token, wait, statuses, retryAt) =>
      var diagnostic := FailureDiagnostic(statuses);
      var w1 := w.(memories := w.memories[owner := RememberFailure(MemoryOf(w, owner), token, owner, wait, diagnostic, retryAt)]);
      if !Holds(RowOf(w, token.key), token, owner, e.at) then w1
      else EndSpan(w1.(rows := w1.rows[token.key := Failed(w.rows[token.key], wait, diagnostic, retryAt)]), token.attempt, e.at)
  }

  function Run(w: World, es: seq<Event>): World {
    if es == [] then w else Step(Run(w, es[..|es| - 1]), es[|es| - 1])
  }

  ghost predicate NonDecreasing(es: seq<Event>) {
    forall i, j | 0 <= i < j < |es| :: es[i].at <= es[j].at
  }

  ghost predicate NoOverlap(spans: seq<Span>) {
    forall i, j | 0 <= i < j < |spans| && spans[i].key == spans[j].key :: spans[i].until <= spans[j].from
  }

  /** A row belongs to the dispatch its attempt names; an unfinished one ends with its lease. */
  ghost predicate RowSound(w: World, key: string)
    requires key in w.rows
  {
    var r := w.rows[key];
    && r.attempt < |w.spans| && w.spans[r.attempt].key == key
    && (r.state == Inflight ==> r.leaseUntil == Some(w.spans[r.attempt].until))
    && (r.state in {Complete, NoRoute} ==>
          r.result.Some? && r.expiresAt.Some?
          && exists i | 0 <= i < |w.stored| ::
               w.stored[i].key == key && w.stored[i].attempt == r.attempt && w.stored[i].response == r.result.value
               && w.stored[i].expiresAt == r.expiresAt.value)
  }

  /** Every dispatch but the unfinished ones is over. */
  ghost predicate SpanSound(w: World, i: nat, now: real)
    requires i < |w.spans|
  {
    var s := w.spans[i];
    && s.from <= s.until
    && (Unfinished(w, s.key, i) || s.until <= now)
  }

  ghost predicate Unfinished(w: World, key: string, attempt: nat) {
    key in w.rows && w.rows[key].attempt == attempt && w.rows[key].state == Inflight
  }

  /** A stored response came from its dispatch while that dispatch was live. */
  ghost predicate StoredSound(w: World, i: nat)
    requires i < |w.stored|
  {
    var s := w.stored[i];
    && s.attempt < |w.spans| && w.spans[s.attempt].key == s.key
    && w.spans[s.attempt].from <= s.at == w.spans[s.attempt].until
    && !Unfinished(w, s.key, s.attempt)
  }

  ghost predicate Invariant(w: World, now: real) {
    && NoOverlap(w.spans)
    && (forall key | key in w.rows :: RowSound(w, key))
    && (forall i: nat | i < |w.spans| :: SpanSound(w, i, now))
    && (forall i: nat | i < |w.stored| :: StoredSound(w, i))
    && (forall i: nat | i < |w.spans| :: w.spans[i].from <= now)
  }

  lemma {:induction false} ReadKeeps(w: World, key: string, now: real, at: real)
    requires Invariant(w, now) && now <= at
    ensures Invariant(Step(w, Event(Read(key), at)), at)
  {
    var z := Step(w, Event(Read(key), at));
    forall k | k in z.rows ensures RowSound(z, k) {
      assert RowSound(w, k);
    }
    forall i: nat | i < |z.spans| ensures SpanSound(z, i, at) {
      assert SpanSound(w, i, now);
    }
    forall i: nat | i < |z.stored| ensures StoredSound(z, i) {
      assert StoredSound(w, i);
    }
  }

  /** A job that may be claimed has no dispatch still running. */
  lemma {:induction false} ClaimableIsIdle(w: World, owner: string, key: string, recheck: Option<real>, now: real,
        at: real)
    requires Invariant(w, now) && now <= at
    requires ClaimAllowed(RowOf(w, key), key, MemoryOf(w, owner), owner, recheck, at)
    ensures forall i: nat | i < |w.spans| && w.spans[i].key == key :: w.spans[i].until <= at
  {
    if key in w.rows {
      assert RowSound(w, key);
    }
    forall i: nat | i < |w.spans| && w.spans[i].key == key ensures w.spans[i].until <= at {
      assert SpanSound(w, i, now);
    }
  }

  lemma {:induction false} ClaimKeeps(w: World, owner: string, key: string, recheck: Option<real>, now: real, at: real)
    requires Invariant(w, now) && now <= at
    ensures Invariant(Step(w, Event(Claim(owner, key, recheck), at)), at)
  {
    var z := Step(w, Event(Claim(owner, key, recheck), at));
    if !ClaimAllowed(RowOf(w, key), key, MemoryOf(w, owner), owner, recheck, at) {
      TimePasses(w, z, now, at);
    } else {
      ClaimableIsIdle(w, owner, key, recheck, now, at);
      NewDispatchKeeps(w, z, key, now, at);
    }
  }

  lemma {:induction false} NewDispatchKeeps(w: World, z: World, key: string, now: real, at: real)
    requires Invariant(w, now) && now <= at
    requires forall i: nat | i < |w.spans| && w.spans[i].key == key :: w.spans[i].until <= at
    requires exists owner :: z.rows == w.rows[key := ClaimedRow(owner, |w.spans|, at)]
    requires z.spans == w.spans + [Span(key, at, at + LEASE_SECONDS)] && z.stored == w.stored
    ensures Invariant(z, at)
  {
    forall k | k in z.rows ensures RowSound(z, k) {
      if k in w.rows {
        assert RowSound(w, k);
      }
    }
    forall i: nat | i < |z.spans| ensures SpanSound(z, i, at) {
      if i < |w.spans| {
        assert SpanSound(w, i, now);
      }
    }
    forall i: nat | i < |z.stored| ensures StoredSound(z, i) {
      assert StoredSound(w, i);
    }
  }

  /** What a successful update of the row it holds does, whatever it writes. */
  lemma {:induction false} UpdateKeeps(w: World, z: World, token: Token, until: real, now: real, at: real)
    requires Invariant(w, now) && now <= at
    requires Holds(RowOf(w, token.key), token, token.owner, at)
    requires until >= at
    requires z.rows.Keys == w.rows.Keys && z.rows[token.key].attempt == token.attempt
    requires forall k | k in w.rows && k != token.key :: z.rows[k] == w.rows[k]
    requires z.rows[token.key].state == Inflight ==> z.rows[token.key].leaseUntil == Some(until)
    requires z.rows[token.key].state != Inflight ==> until == at
    requires token.attempt < |w.spans| && z.spans == w.spans[token.attempt := w.spans[token.attempt].(until := until)]
    requires w.stored <= z.stored
    requires forall i: nat | |w.stored| <= i < |z.stored| :: StoredSound(z, i)
    requires RowSound(z, token.key)
    ensures Invariant(z, at)
  {
    assert RowSound(w, token.key);
    forall k | k in z.rows ensures RowSound(z, k) {
      assert RowSound(w, k);
      if k != token.key && z.rows[k].state in {Complete, NoRoute} {
        var i :| 0 <= i < |w.stored| && w.stored[i].key == k && w.stored[i].attempt == z.rows[k].attempt
                 && w.stored[i].response == z.rows[k].result.value && w.stored[i].expiresAt == z.rows[k].expiresAt.value;
        assert z.stored[i] == w.stored[i];
      }
    }
    forall i: nat | i < |z.spans| ensures SpanSound(z, i, at) {
      assert SpanSound(w, i, now);
    }
    forall i: nat | i < |z.stored| ensures StoredSound(z, i) {
      if i < |w.stored| {
        assert StoredSound(w, i) && z.stored[i] == w.stored[i];
        assert Unfinished(w, token.key, token.attempt);
      }
    }
    forall i, j | 0 <= i < j < |z.spans| && z.spans[i].key == z.spans[j].key ensures z.spans[i].until <= z.spans[j].from {
      assert w.spans[i].until <= w.spans[j].from <= now;
    }
  }

  lemma {:induction false} StepKeeps(w: World, e: Event, now: real)
    requires Invariant(w, now) && now <= e.at
    ensures Invariant(Step(w, e), e.at)
  {
    match e.call
    case Read(key) => ReadKeeps(w, key, now, e.at);
    case Claim(owner, key, recheck) => ClaimKeeps(w, owner, key, recheck, now, e.at);
    case _ =>
      if Holds(RowOf(w, e.call.token.key), e.call.token, e.call.owner, e.at) {
        if e.call.Finish? {
          FinishKeeps(w, e, now);
        } else {
          RenewOrFailKeeps(w, e, now);
        }
      } else {
        TimePasses(w, Step(w, e), now, e.at);
      }
  }

  lemma {:induction false} RenewOrFailKeeps(w: World, e: Event, now: real)
    requires Invariant(w, now) && now <= e.at && (e.call.Renew? || e.call.Fail?)
    requires Holds(RowOf(w, e.call.token.key), e.call.token, e.call.owner, e.at)
    ensures Invariant(Step(w, e), e.at)
  {
    var token := e.call.token;
    assert RowSound(w, token.key);
    UpdateKeeps(w, Step(w, e), token, if e.call.Renew? then e.at + LEASE_SECONDS else e.at, now, e.at);
  }

  lemma {:induction false} FinishKeeps(w: World, e: Event, now: real)
    requires Invariant(w, now) && now <= e.at && e.call.Finish?
    requires Holds(RowOf(w, e.call.token.key), e.call.token, e.call.owner, e.at)
    ensures Invariant(Step(w, e), e.at)
  {
    var token := e.call.token;
    assert RowSound(w, token.key);
    var z := Step(w, e);
    var s := z.stored[|w.stored|];
    assert z.stored[..|w.stored|] == w.stored;
    assert s.key == token.key && s.attempt == token.attempt && s.at == e.at;
    assert w.spans[token.attempt].from <= now;
    UpdateKeeps(w, z, token, e.at, now, e.at);
  }

  lemma {:induction false} TimePasses(w: World, z: World, now: real, at: real)
    requires Invariant(w, now) && now <= at
    requires z.rows == w.rows && z.spans == w.spans && z.stored == w.stored
    ensures Invariant(z, at)
  {
    forall key | key in z.rows ensures RowSound(z, key) {
      assert RowSound(w, key);
    }
    forall i: nat | i < |z.spans| ensures SpanSound(z, i, at) {
      assert SpanSound(w, i, now);
    }
    forall i: nat | i < |z.stored| ensures StoredSound(z, i) {
      assert StoredSound(w, i);
    }
  }

  lemma {:induction false} RunKeeps(es: seq<Event>, now: real)
    requires NonDecreasing(es) && forall i | 0 <= i < |es| :: es[i].at <= now
    ensures Invariant(Run(START, es), now)
  {
    if es != [] {
      var n := |es| - 1;
      RunKeeps(es[..n], es[n].at);
      StepKeeps(Run(START, es[..n]), es[n], es[n].at);
      TimePasses(Run(START, es), Run(START, es), es[n].at, now);
    }
  }

  /** Over every run with any number of owners: the dispatches of one job never overlap, and every readable response
      was stored by a dispatch while it was live. */
  lemma {:induction false} DispatchesNeverOverlap(es: seq<Event>, now: real)
    requires NonDecreasing(es) && forall i | 0 <= i < |es| :: es[i].at <= now
    ensures NoOverlap(Run(START, es).spans)
    ensures forall i | 0 <= i < |Run(START, es).stored| :: StoredSound(Run(START, es), i)
  {
    RunKeeps(es, now);
  }

  /** A stored response can be read exactly until its expiry, and it is the one its live dispatch stored. */
  lemma {:induction false} ReadableIsStored(es: seq<Event>, key: string, includeInflight: bool, now: real)
    requires NonDecreasing(es) && forall i | 0 <= i < |es| :: es[i].at <= now
    requires key in Run(START, es).rows && Run(START, es).rows[key].state in {Complete, NoRoute}
    ensures var w := Run(START, es);
            var row := w.rows[key];
            && (ReadAnswer(row, includeInflight, now).Some? <==> row.expiresAt.Some? && now < row.expiresAt.value)
            && row.result.Some?
            && exists i: nat | i < |w.stored| ::
                 StoredSound(w, i) && w.stored[i].key == key && w.stored[i].response == row.result.value
                 && Some(w.stored[i].expiresAt) == row.expiresAt
  {
    RunKeeps(es, now);
    var w := Run(START, es);
    assert RowSound(w, key);
    var i :| 0 <= i < |w.stored| && w.stored[i].key == key && w.stored[i].attempt == w.rows[key].attempt
             && w.stored[i].response == w.rows[key].result.value && w.stored[i].expiresAt == w.rows[key].expiresAt.value;
    assert StoredSound(w, i);
  }

  // ---------------------------------------------------------------- stale tokens

  /** The token cannot update its row any more: a later claim replaced it, the job ended, or the lease ran out. */
  predicate Dead(w: World, token: Token, now: real) {
    && token.attempt < |w.spans|
    && !Holds(RowOf(w, token.key), token, token.owner, now)
  }

  predicate Uses(c: Call, token: Token) {
    (c.Renew? || c.Finish? || c.Fail?) && c.token == token
  }

  /** How one call can leave a row: untouched, claimed afresh, no longer in flight, or renewed by its own token. */
  lemma {:induction false} RowAfterStep(w: World, e: Event, key: string)
    requires key in w.rows
    ensures var z := Step(w, e);
            && key in z.rows
            && (|| z.rows[key] == w.rows[key]
                || z.rows[key].attempt == |w.spans|
                || z.rows[key].state != Inflight
                || (z.rows[key].attempt == w.rows[key].attempt && z.rows[key].owner == w.rows[key].owner
                    && Holds(RowOf(w, key), Token(key, w.rows[key].attempt, w.rows[key].owner), w.rows[key].owner, e.at)))
  {
  }

  lemma {:induction false} DeadStepStaysDead(w: World, token: Token, e: Event, now: real)
    requires Invariant(w, now) && now <= e.at && Dead(w, token, now)
    ensures Dead(Step(w, e), token, e.at)
    ensures Uses(e.call, token) ==> Step(w, e).rows == w.rows
  {
    assert |w.spans| <= |Step(w, e).spans|;
    assert Uses(e.call, token) ==> Step(w, e).rows == w.rows;
    if token.key in w.rows {
      assert RowSound(w, token.key);
      RowAfterStep(w, e, token.key);
    } else {
      assert token.key in Step(w, e).rows ==> Step(w, e).rows[token.key].attempt == |w.spans|;
    }
  }

  lemma {:induction false} DeadStaysDead(es: seq<Event>, token: Token, e: Event, now: real)
    requires NonDecreasing(es) && (forall i | 0 <= i < |es| :: es[i].at <= now) && now <= e.at
    requires Dead(Run(START, es), token, now)
    ensures Dead(Run(START, es + [e]), token, e.at)
    ensures Uses(e.call, token) ==> Run(START, es + [e]).rows == Run(START, es).rows
  {
    assert (es + [e])[..|es|] == es;
    RunKeeps(es, now);
    DeadStepStaysDead(Run(START, es), token, e, now);
  }

  /** The run up to a later event is over by the time of the last event before it, and not after that event. */
  lemma {:induction false} TimesBefore(es: seq<Event>, later: seq<Event>, n: nat, now: real)
    requires n < |later| && NonDecreasing(es + later)
    requires forall i | 0 <= i < |es| :: es[i].at <= now
    requires forall i | 0 <= i < |later| :: now <= later[i].at
    ensures var at := if n == 0 then now else later[n - 1].at;
            && NonDecreasing(es + later[..n]) && at <= later[n].at
            && forall i | 0 <= i < |es + later[..n]| :: (es + later[..n])[i].at <= at
  {
    var all := es + later;
    assert all[|es| + n] == later[n];
    assert es + later[..n] == all[..|es| + n];
    if n > 0 {
      assert all[|es| + n - 1] == later[n - 1];
    }
  }

  /** A dead token stays dead over every run, and no call with it ever changes the table again. */
  lemma {:induction false} DeadForever(es: seq<Event>, later: seq<Event>, token: Token, now: real)
    requires NonDecreasing(es + later)
    requires forall i | 0 <= i < |es| :: es[i].at <= now
    requires forall i | 0 <= i < |later| :: now <= later[i].at
    requires Dead(Run(START, es), token, now)
    ensures var at := if later == [] then now else later[|later| - 1].at;
            && Dead(Run(START, es + later), token, at)
            && (later != [] && Uses(later[|later| - 1].call, token) ==>
                  Run(START, es + later).rows == Run(START, es + later[..|later| - 1]).rows)
    decreases |later|
  {
    if later == [] {
      assert es + later == es;
    } else {
      var n := |later| - 1;
      TimesBefore(es, later, n, now);
      assert (es + later)[..|es| + n] == es + later[..n];
      DeadForever(es, later[..n], token, now);
      DeadStaysDead(es + later[..n], token, later[n], if n == 0 then now else later[n - 1].at);
      assert es + later == es + later[..n] + [later[n]];
    }
  }

  // ---------------------------------------------------------------- bad requests

  /** A row that failed as a bad request is final: no run changes it. */
  lemma {:induction false} BadRequestIsFinal(w: World, es: seq<Event>, key: string)
    requires key in w.rows && w.rows[key].state == Error && IsBadRequest(w.rows[key].diagnostic)
    ensures key in Run(w, es).rows && Run(w, es).rows[key] == w.rows[key]
  {
    if es != [] {
      BadRequestIsFinal(w, es[..|es| - 1], key);
    }
  }

  /** With a bad-request diagnostic a job can never be claimed again, by
      anyone at any time, exactly when it was recorded as an error. */
  lemma {:induction false} BadRequestBlocksIffError(row: Row, key: string)
    requires row.state in {Error, QuotaWait} && IsBadRequest(row.diagnostic)
    ensures (forall memory, owner, recheck, now :: !ClaimAllowed(Some(row), key, memory, owner, recheck, now))
            <==> row.state == Error
  {
    if row.state == QuotaWait {
      assert ClaimAllowed(Some(row), key, Memory({}, map[]), "other", None, row.retryAt.GetOr(0.0));
    }
  }

  lemma {:induction false} OneMoreEvent(w: World, es: seq<Event>, e: Event)
    ensures Run(w, es + [e]) == Step(Run(w, es), e)
  {
    assert (es + [e])[..|es|] == es;
  }

  lemma {:induction false} FreshName(names: set<string>) returns (name: string)
    ensures name !in names
  {
    var n := LongerThanAll(names);
    name := seq(n, _ => 'x');
  }

  lemma {:induction false} LongerThanAll(names: set<string>) returns (n: nat)
    ensures forall name | name in names :: |name| < n
  {
    n := 0;
    if names != {} {
      var name :| name in names;
      var rest := LongerThanAll(names - {name});
      n := |name| + rest + 1;
    }
  }

  /** In every run: a refused request whose failure is stored stays final over everything that can follow, exactly when it is
      stored as an error.  Stored as a wait, a later claim takes it. */
  lemma {:induction false} BadRequestFinalIffError(es: seq<Event>, owner: string, token: Token, wait: bool, statuses: seq<int>,
        retryAt: Option<real>, now: real)
    requires Holds(RowOf(Run(START, es), token.key), token, owner, now) && Refused(statuses)
    ensures var failed := Step(Run(START, es), Event(Fail(owner, token, wait, statuses, retryAt), now));
            && token.key in failed.rows && IsBadRequest(failed.rows[token.key].diagnostic)
            && ((forall later :: RowOf(Run(failed, later), token.key) == RowOf(failed, token.key)) <==> !wait)
  {
    var failed := Step(Run(START, es), Event(Fail(owner, token, wait, statuses, retryAt), now));
    var row := failed.rows[token.key];
    if !wait {
      forall later ensures RowOf(Run(failed, later), token.key) == RowOf(failed, token.key) {
        BadRequestIsFinal(failed, later, token.key);
      }
    } else {
      var other := FreshName(failed.memories.Keys);
      var claim := Event(Claim(other, token.key, None), MaxReal(now, retryAt.GetOr(now)));
      assert ClaimAllowed(Some(row), token.key, MemoryOf(failed, other), other, None, claim.at);
      OneMoreEvent(failed, [], claim);
      assert RowOf(Run(failed, [] + [claim]), token.key).value.state == Inflight;
    }
  }

  /** A concrete run: claimed, refused with status 400 but recorded as a wait, and claimed again. */
  lemma {:induction false} WaitingBadRequestIsClaimed()
    ensures var es := [Event(Claim("a", "job", None), 0.0)] + [Event(Fail("a", Token("job", 0, "a"), true, [400], None), 1.0)];
            var again := es + [Event(Claim("b", "job", None), 2.0)];
            && "job" in Run(START, es).rows && IsBadRequest(Run(START, es).rows["job"].diagnostic)
            && "job" in Run(START, again).rows && Run(START, again).rows["job"] == ClaimedRow("b", 1, 2.0)
  {
    var claim, fail, reclaim := Event(Claim("a", "job", None), 0.0),
      Event(Fail("a", Token("job", 0, "a"), true, [400], None), 1.0), Event(Claim("b", "job", None), 2.0);
    OneMoreEvent(START, [], claim);
    OneMoreEvent(START, [claim], fail);
    OneMoreEvent(START, [claim] + [fail], reclaim);
    assert [] + [claim] == [claim] && [400][0] == 400;
    var failed := Run(START, [claim] + [fail]);
    assert failed.rows["job"].state == QuotaWait && "b" !in failed.memories;
  }

  /** The program's own use: only a request that was not refused is recorded as a wait. */
  predicate WaitsAreLimits(es: seq<Event>) {
    forall i | 0 <= i < |es| && es[i].call.Fail? :: es[i].call.wait ==> !Refused(es[i].call.statuses)
  }

  /** Then every refused request is final: whatever has happened and whatever follows, its row never changes again. */
  lemma {:induction false} RefusedIsFinal(es: seq<Event>, later: seq<Event>, key: string)
    requires WaitsAreLimits(es)
    requires key in Run(START, es).rows && IsBadRequest(Run(START, es).rows[key].diagnostic)
    ensures RowOf(Run(Run(START, es), later), key) == RowOf(Run(START, es), key)
  {
    RefusedIsError(es, key);
    BadRequestIsFinal(Run(START, es), later, key);
  }

  lemma {:induction false} RefusedIsError(es: seq<Event>, key: string)
    requires WaitsAreLimits(es) && key in Run(START, es).rows
    ensures IsBadRequest(Run(START, es).rows[key].diagnostic) ==> Run(START, es).rows[key].state == Error
  {
    var n := |es| - 1;
    assert es != [];
    if key in Run(START, es[..n]).rows {
      RefusedIsError(es[..n], key);
    }
  }

  // ---------------------------------------------------------------- the object

  /** The shared table. */
  class JobTable {
    var rows: map<string, Row>
    var nextAttempt: nat

    constructor ()
      ensures rows == map[] && nextAttempt == 0
    {
      rows, nextAttempt := map[], 0;
    }
  }

  class QuoteJobs {
    const table: JobTable
    const owner: string
    var attempted: set<string>
    var failures: map<string, (Diagnostic, Option<real>)>

    constructor (table: JobTable, owner: string)
      ensures this.table == table && this.owner == owner && Remembered() == Memory({}, map[])
    {
      this.table, this.owner := table, owner;
      attempted, failures := {}, map[];
    }

    function Remembered(): Memory
      reads this
    {
      Memory(attempted, failures)
    }

    function Saved(key: string): Option<Row>
      reads table
    {
      if key in table.rows then Some(table.rows[key]) else None
    }

    method Read(key: string, includeInflight: bool, now: real) returns (answer: Option<Row>)
      modifies table`rows
      ensures table.rows == if key in old(table.rows)
                            then old(table.rows)[key := ReadRow(old(table.rows)[key], now)] else old(table.rows)
      ensures answer == if key in old(table.rows) then ReadAnswer(old(table.rows)[key], includeInflight, now) else None
    {
      if key !in table.rows {
        return None;
      }
      var row := table.rows[key];
      assert table.rows == table.rows[key := row];
      if row.state in {Complete, NoRoute} {
        if PastExpiry(row, now) {
          table.rows := table.rows[key := row.(state := Expired)];
          return None;
        }
        return Some(row);
      }
      if (includeInflight && row.state == Inflight) || row.state in {Error, QuotaWait} {
        return Some(row);
      }
      return None;
    }

    method Claim(key: string, recheck: Option<real>, now: real) returns (token: Option<Token>)
      modifies table, `attempted
      ensures token.Some? <==> ClaimAllowed(old(Saved(key)), key, old(Remembered()), owner, recheck, now)
      ensures token.Some? ==> token.value == Token(key, old(table.nextAttempt), owner)
      ensures table.rows == if token.Some?
                            then old(table.rows)[key := ClaimedRow(owner, old(table.nextAttempt), now)] else old(table.rows)
      ensures table.nextAttempt == old(table.nextAttempt) + (if token.Some? then 1 else 0)
      ensures attempted == if token.Some? then old(attempted) + {key} else old(attempted)
    {
      if key in failures {
        return None;
      }
      if key in table.rows {
        var row := table.rows[key];
        if row.state == Inflight && row.leaseUntil.Some? && row.leaseUntil.value > now {
          return None;
        }
        if row.state in {Complete, NoRoute} && !PastExpiry(row, now) {
          return None;
        }
        if row.state == Error && (IsBadRequest(row.diagnostic) || key in attempted || row.owner == owner) {
          return None;
        }
        if row.state in {QuotaWait, Error} && row.retryAt.Some? {
          var retryAt := row.retryAt.value;
          if row.state == QuotaWait && recheck.Some? {
            retryAt := recheck.value;
          }
          if retryAt > now {
            return None;
          }
        }
      }
      token := Some(Token(key, table.nextAttempt, owner));
      table.rows := table.rows[key := ClaimedRow(owner, table.nextAttempt, now)];
      table.nextAttempt := table.nextAttempt + 1;
      attempted := attempted + {key};
    }

    /** Whether the compare-and-set of a token matches its row. */
    method StillHeld(token: Token, now: real) returns (held: bool)
      ensures held <==> Holds(Saved(token.key), token, owner, now)
    {
      if token.owner != owner || token.key !in table.rows { return false; }
      var row := table.rows[token.key];
      held := row.state == Inflight && row.owner == token.owner && row.attempt == token.attempt
              && row.leaseUntil.Some? && row.leaseUntil.value > now;
    }

    method Renew(token: Token, now: real) returns (saved: bool)
      modifies table`rows
      ensures saved <==> Holds(old(Saved(token.key)), token, owner, now)
      ensures table.rows == if saved then old(table.rows)[token.key := Renewed(old(table.rows)[token.key], now)]
                            else old(table.rows)
    {
      saved := StillHeld(token, now);
      if saved {
        table.rows := table.rows[token.key := table.rows[token.key].(leaseUntil := Some(now + LEASE_SECONDS))];
      }
    }

    method Finish(token: Token, response: Response, observedAt: real, ttl: real, now: real) returns (saved: bool)
      modifies table`rows
      ensures saved <==> Holds(old(Saved(token.key)), token, owner, now)
      ensures table.rows == if saved
                            then old(table.rows)[token.key := Finished(old(table.rows)[token.key], response, observedAt, ttl)]
                            else old(table.rows)
    {
      saved := StillHeld(token, now);
      if saved {
        table.rows := table.rows[token.key := Finished(table.rows[token.key], response, observedAt, ttl)];
      }
    }

    method Fail(token: Token, wait: bool, statuses: seq<int>, retryAt: Option<real>, now: real)
      returns (saved: bool)
      modifies table`rows, `failures
      ensures saved <==> Holds(old(Saved(token.key)), token, owner, now)
      ensures var diagnostic := FailureDiagnostic(statuses);
              && table.rows == (if saved
                                then old(table.rows)[token.key := Failed(old(table.rows)[token.key], wait, diagnostic, retryAt)]
                                else old(table.rows))
              && Remembered() == RememberFailure(old(Remembered()), token, owner, wait, diagnostic, retryAt)
    {
      var diagnostic := FailureDiagnostic(statuses);
      saved := StillHeld(token, now);
      if saved {
        table.rows := table.rows[token.key := Failed(table.rows[token.key], wait, diagnostic, retryAt)];
      }
      if !wait && token.owner == owner {
        failures := failures[token.key := (diagnostic, retryAt)];
      }
    }

    /** One call of this owner does to the table and to its memory what a step of a run does. */
    method Perform(e: Event, ghost w: World)
      requires e.call.Read? || e.call.owner == owner
      requires w.rows == table.rows && MemoryOf(w, owner) == Remembered() && |w.spans| == table.nextAttempt
      modifies table, `attempted, `failures
      ensures table.rows == Step(w, e).rows && |Step(w, e).spans| == table.nextAttempt
      ensures MemoryOf(Step(w, e), owner) == Remembered()
    {
      match e.call {
        case Read(key) => var _ := Read(key, false, e.at);
        case Claim(_, key, recheck) => var _ := Claim(key, recheck, e.at);
        case Renew(_, token) => var _ := Renew(token, e.at);
        case Finish(_, token, response, observedAt, ttl) => var _ := Finish(token, response, observedAt, ttl, e.at);
        case Fail(_, token, wait, statuses, retryAt) => var _ := Fail(token, wait, statuses, retryAt, e.at);
      }
    }
  }
}
