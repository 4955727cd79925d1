/** When a quote job becomes free again, and what a stored job says: the other half of the leases' safety. */
module QuoteJobsProgress {
  import opened Prelude
  import opened QuoteJobsModel

  // ---------------------------------------------------------------- when a job is free

  datatype Freedom = Never | Always | From(at: real)

  /** From when on the row leaves a job to owners that have nothing to do with it: after the lease of a running dispatch, the expiry
      of a response, the retry time of a failure; a bad request never. */
  function FreeFrom(row: Row): Freedom {
    match row.state
    case Inflight => if row.leaseUntil.Some? then From(row.leaseUntil.value) else Always
    case Complete | NoRoute => if row.expiresAt.Some? then From(row.expiresAt.value) else Always
    case QuotaWait => if row.retryAt.Some? then From(row.retryAt.value) else Always
    case Error =>
      if row.diagnostic.reason == Some("bad_request") then Never
      else if row.retryAt.Some? then From(row.retryAt.value)
      else Always
    case Expired => Always
  }

  predicate IsFree(row: Row, now: real) {
    match FreeFrom(row)
    case Never => false
    case Always => true
    case From(at) => at <= now
  }

  /** The owner never failed or tried the job. */
  predicate Stranger(w: World, owner: string, key: string) {
    owner in w.memories ==> key !in w.memories[owner].failures && key !in w.memories[owner].attempted
  }

  /** Another owner claims a job exactly when its row leaves it free; the claim then holds it for a minute. */
  lemma {:induction false} StrangerClaimsIff(w: World, owner: string, key: string, now: real)
    requires Stranger(w, owner, key) && (key in w.rows ==> w.rows[key].owner != owner)
    ensures var z := Step(w, Event(Claim(owner, key, None), now));
            if key !in w.rows || IsFree(w.rows[key], now)
            then && key in z.rows && z.rows[key].state == Inflight && z.rows[key].owner == owner
                 && z.rows[key].leaseUntil == Some(now + 60.0) && z.rows[key].result.None? && |z.spans| == |w.spans| + 1
            else z == w
  {
  }

  /** So a dead owner blocks nobody for longer than its lease: whatever has happened, a job that is still in flight when its lease
      ends is claimed by the next stranger that asks, and by nobody before. */
  lemma {:induction false} AbandonedIsClaimed(es: seq<Event>, owner: string, key: string, now: real)
    requires var w := Run(START, es);
             && key in w.rows && w.rows[key].state == Inflight && w.rows[key].leaseUntil.Some?
             && Stranger(w, owner, key) && w.rows[key].owner != owner
    ensures var w := Run(START, es);
            var z := Step(w, Event(Claim(owner, key, None), now));
            if now >= w.rows[key].leaseUntil.value then z.rows[key].owner == owner && z.rows[key].leaseUntil == Some(now + 60.0)
            else z == w
  {
    StrangerClaimsIff(Run(START, es), owner, key, now);
  }

  /** A failure is not asked again before its time; a recheck replaces the time of a quota wait and of nothing else. */
  lemma {:induction false} EarlyRetryRefused(w: World, owner: string, key: string, recheck: Option<real>, now: real)
    requires key in w.rows && w.rows[key].state in {QuotaWait, Error} && w.rows[key].retryAt.Some?
    requires now < if w.rows[key].state == QuotaWait && recheck.Some? then recheck.value else w.rows[key].retryAt.value
    ensures Step(w, Event(Claim(owner, key, recheck), now)) == w
  {
  }

  lemma {:induction false} RecheckedWaitIsClaimed(w: World, owner: string, key: string, recheck: real, now: real)
    requires key in w.rows && w.rows[key].state == QuotaWait && w.rows[key].retryAt.Some? && recheck <= now
    requires owner in w.memories ==> key !in w.memories[owner].failures
    ensures var z := Step(w, Event(Claim(owner, key, Some(recheck)), now));
            key in z.rows && z.rows[key].state == Inflight && z.rows[key].owner == owner
  {
  }

  /** An owner does not repeat its own error: neither one it remembers, nor one of a job that it tried before. */
  lemma {:induction false} OwnErrorRefused(w: World, owner: string, key: string, recheck: Option<real>, now: real)
    requires || (owner in w.memories && key in w.memories[owner].failures)
             || (key in w.rows && w.rows[key].state == Error
                 && (w.rows[key].owner == owner || (owner in w.memories && key in w.memories[owner].attempted)))
    ensures Step(w, Event(Claim(owner, key, recheck), now)) == w
  {
  }

  /** Over its whole life: once an owner has failed a job of its own with an error, none of its claims ever takes that job. */
  lemma {:induction false} FailedIsRemembered(w: World, es: seq<Event>, owner: string, token: Token, statuses: seq<int>,
        retryAt: Option<real>, at: real, recheck: Option<real>, now: real)
    requires token.owner == owner
    ensures var failed := Step(w, Event(Fail(owner, token, false, statuses, retryAt), at));
            && Remembers(Run(failed, es), owner, token.key)
            && Step(Run(failed, es), Event(Claim(owner, token.key, recheck), now)) == Run(failed, es)
  {
    var failed := Step(w, Event(Fail(owner, token, false, statuses, retryAt), at));
    if es != [] {
      var n := |es| - 1;
      FailedIsRemembered(w, es[..n], owner, token, statuses, retryAt, at, recheck, now);
      RememberedStays(Run(failed, es[..n]), es[n], owner, token.key);
    }
    OwnErrorRefused(Run(failed, es), owner, token.key, recheck, now);
  }

  predicate Remembers(w: World, owner: string, key: string) {
    owner in w.memories && key in w.memories[owner].failures
  }

  lemma {:induction false} RememberedStays(w: World, e: Event, owner: string, key: string)
    requires Remembers(w, owner, key)
    ensures Remembers(Step(w, e), owner, key)
  {
  }

  /** A quota wait is not remembered: the owner may claim the job again when its time has come. */
  lemma {:induction false} WaitIsNotHeldAgainst(w: World, owner: string, token: Token, statuses: seq<int>, retryAt: Option<real>,
        at: real, now: real)
    requires Holds(RowOf(w, token.key), token, owner, at) && !Remembers(w, owner, token.key)
    requires retryAt.Some? ==> retryAt.value <= now
    ensures var failed := Step(w, Event(Fail(owner, token, true, statuses, retryAt), at));
            var z := Step(failed, Event(Claim(owner, token.key, None), now));
            token.key in z.rows && z.rows[token.key].state == Inflight && z.rows[token.key].leaseUntil == Some(now + 60.0)
  {
  }

  // ---------------------------------------------------------------- what a row says

  /** A stored response without routes is marked so, and only that one; nothing but a stored response has a result. */
  ghost predicate SaysItsResult(row: Row) {
    && (row.state == NoRoute ==> row.result.Some? && row.result.value.noRoutes)
    && (row.state == Complete ==> row.result.Some? && !row.result.value.noRoutes)
    && (row.state in {Inflight, Error, QuotaWait} ==> row.result.None? && row.expiresAt.None?)
    && (row.state != Inflight ==> row.leaseUntil.None?)
  }

  lemma {:induction false} RowsSayTheirResults(es: seq<Event>, key: string)
    requires key in Run(START, es).rows
    ensures SaysItsResult(Run(START, es).rows[key])
  {
    var n := |es| - 1;
    assert es != [];
    var w := Run(START, es[..n]);
    if key in w.rows {
      RowsSayTheirResults(es[..n], key);
      StepSaysResult(w, es[n], key);
    }
  }

  lemma {:induction false} StepSaysResult(w: World, e: Event, key: string)
    requires key in w.rows && SaysItsResult(w.rows[key])
    ensures key in Step(w, e).rows && SaysItsResult(Step(w, e).rows[key])
  {
    match e.call
    case Read(other) =>
    case Claim(owner, other, recheck) => assert SaysItsResult(ClaimedRow(owner, |w.spans|, e.at));
    case Renew(_, _) =>
    case Finish(_, _, _, _, _) =>
    case Fail(_, _, _, _, _) =>
  }

  /** A stored failure is always answered and left as it is; a running dispatch is answered only to those who ask for it; reading
      marks a response as expired from its expiry on, and changes nothing else. */
  lemma {:induction false} ReadsAreHarmless(w: World, key: string, includeInflight: bool, now: real)
    requires key in w.rows
    ensures var row := w.rows[key];
            var z := Step(w, Event(Read(key), now));
            var stale := row.state in {Complete, NoRoute} && (row.expiresAt.None? || row.expiresAt.value <= now);
            && z == w.(rows := w.rows[key := if stale then row.(state := Expired) else row])
            && (row.state in {Error, QuotaWait} ==> ReadAnswer(row, includeInflight, now) == Some(row))
            && (row.state == Inflight ==> ReadAnswer(row, includeInflight, now) == if includeInflight then Some(row) else None)
            && (row.state == Expired || stale ==> ReadAnswer(row, includeInflight, now).None?)
  {
  }

  /** Renewing keeps the job for another minute from then on. */
  lemma {:induction false} RenewedIsKept(w: World, owner: string, token: Token, at: real, other: string, now: real)
    requires Holds(RowOf(w, token.key), token, owner, at)
    ensures var z := Step(w, Event(Renew(owner, token), at));
            now < at + 60.0 ==> Step(z, Event(Claim(other, token.key, None), now)) == z
  {
  }

  /** Finishing stores exactly the response: readable until its expiry, and free for others from then on. */
  lemma {:induction false} FinishedIsServed(w: World, owner: string, token: Token, response: Response, observedAt: real, ttl: real,
        at: real, now: real)
    requires Holds(RowOf(w, token.key), token, owner, at)
    ensures var z := Step(w, Event(Finish(owner, token, response, observedAt, ttl), at));
            && token.key in z.rows && z.rows[token.key].state == (if response.noRoutes then NoRoute else Complete)
            && FreeFrom(z.rows[token.key]) == From(observedAt + ttl)
            && ReadAnswer(z.rows[token.key], false, now)
               == (if now < observedAt + ttl then Some(z.rows[token.key]) else None)
            && z.rows[token.key].result == Some(response) && z.rows[token.key].observedAt == Some(observedAt)
  {
  }

  // ---------------------------------------------------------------- tokens and memories

  /** A response is stored exactly when the token is the caller's own and names the dispatch that holds the row, within its lease. */
  lemma {:induction false} FinishTakenIff(w: World, owner: string, token: Token, response: Response, observedAt: real, ttl: real, now: real)
    ensures var z := Step(w, Event(Finish(owner, token, response, observedAt, ttl), now));
            var taken := && token.owner == owner && token.key in w.rows && w.rows[token.key].state == Inflight
                         && w.rows[token.key].owner == owner && w.rows[token.key].attempt == token.attempt
                         && w.rows[token.key].leaseUntil.Some? && now < w.rows[token.key].leaseUntil.value;
            if taken then |z.stored| == |w.stored| + 1 else z == w
  {
  }

  /** A token of another owner is of no use: no call with it changes the table, and a failure reported with it is not remembered. */
  lemma {:induction false} ForeignTokenRefused(w: World, e: Event)
    requires (e.call.Renew? || e.call.Finish? || e.call.Fail?) && e.call.token.owner != e.call.owner
    ensures Step(w, e).rows == w.rows && Step(w, e).stored == w.stored
    ensures MemoryOf(Step(w, e), e.call.owner) == MemoryOf(w, e.call.owner)
  {
  }

  /** A bad request is an answer of the four hundreds that is not a rate limit, and nothing else. */
  lemma {:induction false} BadRequestIff(statuses: seq<int>)
    ensures FailureDiagnostic(statuses).reason == Some("bad_request") <==> exists s | s in statuses :: 400 <= s <= 499 && s != 429
    ensures FailureDiagnostic([429]).reason.None? && FailureDiagnostic([500]).reason.None?
  {
    if s :| s in statuses && 400 <= s <= 499 && s != 429 {
      var i :| 0 <= i < |statuses| && statuses[i] == s;
      assert 400 <= statuses[i] < 500;
    }
    if Refused(statuses) {
      var i :| 0 <= i < |statuses| && 400 <= statuses[i] < 500 && statuses[i] != 429;
      assert statuses[i] in statuses;
    }
  }

  predicate Tried(w: World, owner: string, key: string) {
    owner in w.memories && key in w.memories[owner].attempted
  }

  lemma {:induction false} TriedStays(w: World, es: seq<Event>, owner: string, key: string)
    requires Tried(w, owner, key)
    ensures Tried(Run(w, es), owner, key)
  {
    if es != [] {
      TriedStays(w, es[..|es| - 1], owner, key);
    }
  }

  /** An owner that has claimed a job once does not take it again after an error, whoever made it. */
  lemma {:induction false} TriedErrorRefused(w: World, owner: string, key: string, at: real, es: seq<Event>, recheck: Option<real>, now: real)
    requires ClaimAllowed(RowOf(w, key), key, MemoryOf(w, owner), owner, None, at)
    ensures var later := Run(Step(w, Event(Claim(owner, key, None), at)), es);
            key in later.rows && later.rows[key].state == Error ==> Step(later, Event(Claim(owner, key, recheck), now)) == later
  {
    var claimed := Step(w, Event(Claim(owner, key, None), at));
    TriedStays(claimed, es, owner, key);
  }
}
