/** The quota told as history: every admission of a run follows from the requests that were admitted and the responses that
    arrived, and from nothing else. */
module LifiQuotaHistory {
  import opened Prelude
  import opened LifiQuota
  import opened LifiQuotaReach

  // ---------------------------------------------------------------- cooldowns

  ghost predicate LimitedAt(es: seq<Event>, i: nat) {
    i < |es| && es[i].Response? && es[i].limited
  }

  /** The time that a refused request must be kept waiting for: at least a second, as its `Retry-After` says; without a readable
      one the reset of the window it falls into, its own reset, or the bucket's window from now. */
  ghost function Stated(rule: Rule, es: seq<Event>, i: nat): real
    requires LimitedAt(es, i)
  {
    var h, at := es[i].headers, es[i].at;
    match h.retryAfter
    case Seconds(s) => if s >= 1.0 then at + s else at + 1.0
    case Date(date) => if date >= at + 1.0 then date else at + 1.0
    case _ =>
      if Reports(h, at) && OpenSpan(es[..i + 1]).Some? then OpenSpan(es[..i + 1]).value.resetAt
      else if h.reset.Some? then ResetTime(h.reset.value, at)
      else at + rule.window
  }

  /** The cooldown is the latest time that any refusal stated. */
  ghost predicate CooldownIs(rule: Rule, es: seq<Event>, until: Option<real>) {
    && (until.None? <==> forall i: nat :: !LimitedAt(es, i))
    && (until.Some? ==> exists i: nat :: LimitedAt(es, i) && Stated(rule, es, i) == until.value)
    && (forall i: nat | LimitedAt(es, i) :: until.Some? && Stated(rule, es, i) <= until.value)
  }

  lemma {:induction false} ResetIsHistory(rule: Rule, matches: bool, es: seq<Event>)
    ensures var row, span := Run(rule, matches, es).provider, OpenSpan(es);
            (row.Some? <==> span.Some?) && (row.Some? ==> row.value.resetAt == span.value.resetAt)
  {
    if es != [] {
      ResetIsHistory(rule, matches, es[..|es| - 1]);
    }
  }

  lemma {:induction false} BlockedUntilIsStated(rule: Rule, matches: bool, es: seq<Event>)
    requires es != [] && LimitedAt(es, |es| - 1)
    ensures var e := es[|es| - 1];
            BlockedUntil(rule, Run(rule, matches, es[..|es| - 1]), e.attempt, e.headers, e.at) == Stated(rule, es, |es| - 1)
  {
    var e := es[|es| - 1];
    assert es[..|es|] == es;
    ResetIsHistory(rule, matches, es[..|es| - 1]);
    assert Informative(e.headers, e.at) <==> Reports(e.headers, e.at);
  }

  /** Over every run, whatever else happens: the latest stated time stands, and without a refusal there is no cooldown. */
  lemma {:induction false} CooldownIsLatestStated(rule: Rule, matches: bool, es: seq<Event>)
    ensures CooldownIs(rule, es, Run(rule, matches, es).blockedUntil)
  {
    if es != [] {
      var n := |es| - 1;
      var before := es[..n];
      CooldownIsLatestStated(rule, matches, before);
      forall i: nat | i < n && LimitedAt(es, i) ensures LimitedAt(before, i) && Stated(rule, es, i) == Stated(rule, before, i) {
        assert before[..i + 1] == es[..i + 1];
      }
      forall i: nat | LimitedAt(before, i) ensures LimitedAt(es, i) && Stated(rule, es, i) == Stated(rule, before, i) {
        assert before[..i + 1] == es[..i + 1];
      }
      if LimitedAt(es, n) {
        BlockedUntilIsStated(rule, matches, es);
      }
      LatestStatedStays(rule, matches, es);
    }
  }

  lemma {:induction false} LatestStatedStays(rule: Rule, matches: bool, es: seq<Event>)
    requires es != []
    requires var before := es[..|es| - 1];
             && (forall i: nat | i < |before| && LimitedAt(es, i) :: LimitedAt(before, i) && Stated(rule, es, i) == Stated(rule, before, i))
             && (forall i: nat | LimitedAt(before, i) :: LimitedAt(es, i) && Stated(rule, es, i) == Stated(rule, before, i))
    requires LimitedAt(es, |es| - 1) ==>
               BlockedUntil(rule, Run(rule, matches, es[..|es| - 1]), es[|es| - 1].attempt, es[|es| - 1].headers, es[|es| - 1].at)
               == Stated(rule, es, |es| - 1)
    requires CooldownIs(rule, es[..|es| - 1], Run(rule, matches, es[..|es| - 1]).blockedUntil)
    ensures CooldownIs(rule, es, Run(rule, matches, es).blockedUntil)
  {
    var n := |es| - 1;
    var was, until := Run(rule, matches, es[..n]).blockedUntil, Run(rule, matches, es).blockedUntil;
    if LimitedAt(es, n) {
      assert until == Some(if was.Some? then MaxReal(was.value, Stated(rule, es, n)) else Stated(rule, es, n));
    } else {
      assert until == was;
    }
  }

  /** So after a refusal no request of the bucket is admitted before the time it stated, whatever else arrives in between. */
  lemma {:induction false} RefusalHolds(rule: Rule, matches: bool, es: seq<Event>, i: nat, purpose: Purpose, at: real)
    requires LimitedAt(es, i) && at < Stated(rule, es, i)
    ensures !Admitted(rule, matches, Run(rule, matches, es), purpose, at)
  {
    CooldownIsLatestStated(rule, matches, es);
  }

  // ---------------------------------------------------------------- the provider's limit

  ghost predicate LeastOf(limits: seq<real>, least: real) {
    (exists i | 0 <= i < |limits| :: limits[i] == least) && forall i | 0 <= i < |limits| :: least <= limits[i]
  }

  lemma {:induction false} LimitOfLeast(limits: seq<real>, least: real)
    requires LeastOf(limits, least) && least >= 1.0
    ensures LimitOf(limits) == Some(least.Floor)
  {
    var n := |limits| - 1;
    if n > 0 {
      var before := LeastIn(limits[..n]);
      LimitOfLeast(limits[..n], before);
      assert limits[..n][0] == limits[0];
    }
  }

  lemma {:induction false} LeastIn(limits: seq<real>) returns (least: real)
    requires limits != []
    ensures LeastOf(limits, least)
  {
    var n := |limits| - 1;
    least := limits[n];
    if n > 0 {
      var before := LeastIn(limits[..n]);
      var i :| 0 <= i < n && limits[..n][i] == before;
      assert limits[i] == before;
      if before < least { least := before; }
    }
  }

  /** Over every run, while a provider window is open: the limit in force is the least that was reported in the window exactly when
      none was below one.  Such a limit is dropped, and those before it with it. */
  lemma {:induction false} LimitIsLeastIff(rule: Rule, matches: bool, es: seq<Event>, now: real, least: real)
    requires NonDecreasing(es) && Causal(es) && forall e | e in es :: e.at <= now
    requires OpenSpan(es).Some? && OpenSpan(es).value.resetAt > now && LeastOf(OpenSpan(es).value.limits, least)
    ensures Run(rule, matches, es).provider.Some?
    ensures Run(rule, matches, es).provider.value.limit == Some(least.Floor) <==> least >= 1.0
  {
    ProviderRowIsHistory(rule, matches, es, now);
    LimitOfPositive(OpenSpan(es).value.limits);
    if least >= 1.0 {
      LimitOfLeast(OpenSpan(es).value.limits, least);
    }
  }

  /** A concrete run: the provider reports a limit of five, and then one of a half; after that no limit is in force. */
  lemma {:induction false} LimitForgotten(rule: Rule)
    requires rule.limit > 5
    ensures var h := (limit: real) => Headers(Some(60.0), None, Some(limit), NoRetryAfter);
            var es := [Request(Execution, 0.0)] + [Response(0, h(5.0), false, 1.0)];
            var later := es + [Response(0, h(0.5), false, 2.0)];
            && Limit(rule, true, Run(rule, true, es), 2.0) == 5
            && Limit(rule, true, Run(rule, true, later), 2.0) == rule.limit
  {
    var request := Request(Execution, 0.0);
    var five, half := Response(0, Headers(Some(60.0), None, Some(5.0), NoRetryAfter), false, 1.0),
                      Response(0, Headers(Some(60.0), None, Some(0.5), NoRetryAfter), false, 2.0);
    assert ([request] + [five])[..1] == [request] && [request][..0] == [];
    assert ([request] + [five] + [half])[..2] == [request] + [five];
    var l1 := Run(rule, true, [request]);
    assert l1 == Step(rule, true, Run(rule, true, []), request, 0);
    assert l1.provider.None?;
    var l2 := Run(rule, true, [request] + [five]);
    assert l2 == Observed(rule, l1, 0, five.headers, false, 1.0);
    assert l2.provider.value.limit == Some(5) && l2.provider.value.resetAt == 61.0;
    var l3 := Run(rule, true, [request] + [five] + [half]);
    assert l3 == Observed(rule, l2, 0, half.headers, false, 2.0);
    assert l3.provider.value.limit == None;
  }

  // ---------------------------------------------------------------- admission

  /** What the provider allows while its window is open: the lower of its limit and the bucket's own, where the two count the same
      requests. */
  function HistoryLimit(rule: Rule, matches: bool, es: seq<Event>, now: real): int {
    var span := OpenSpan(es);
    if matches && span.Some? && span.value.resetAt > now && LimitOf(span.value.limits).Some?
    then Min(rule.limit, LimitOf(span.value.limits).value) else rule.limit
  }

  function KeptFor(rule: Rule, purpose: Purpose): int {
    match purpose
    case Planning => rule.reserve
    case Execution => 0
  }

  lemma {:induction false} NothingLater(rule: Rule, matches: bool, es: seq<Event>, now: real)
    requires forall e | e in es :: e.at <= now
    ensures CountAfter(Run(rule, matches, es).times, now) == 0
  {
    if es != [] {
      var n := |es| - 1;
      assert es[n] in es && forall e | e in es[..n] :: e in es;
      NothingLater(rule, matches, es[..n], now);
      StepCounts(rule, matches, Run(rule, matches, es[..n]), es[n], n, now);
    }
  }

  /** Exactly when a request is admitted, in every run: every time that a refusal stated has come; the requests admitted within the
      window before it are fewer than the limit in force less what is kept back; and what the responses of an open provider window
      leave, after the reservations made since, is more than what is kept back. */
  lemma {:induction false} AdmittedIffHistory(rule: Rule, matches: bool, es: seq<Event>, purpose: Purpose, now: real)
    requires NonDecreasing(es) && Causal(es) && forall e | e in es :: e.at <= now
    ensures Admitted(rule, matches, Run(rule, matches, es), purpose, now)
            <==> && (forall i: nat | LimitedAt(es, i) :: Stated(rule, es, i) <= now)
                 && InWindow(Log(rule, matches, es), now - rule.window, now)
                    < HistoryLimit(rule, matches, es, now) - KeptFor(rule, purpose)
                 && (OpenSpan(es).Some? && OpenSpan(es).value.resetAt > now ==>
                       OpenSpan(es).value.obs != []
                       && LeastLeft(OpenSpan(es).value.obs, Run(rule, matches, es).ids) > KeptFor(rule, purpose))
  {
    CoolingIff(rule, matches, es, now);
    RoomIs(rule, matches, es, purpose, now);
    LeftIs(rule, matches, es, purpose, now);
  }

  /** The room that the limit in force and the table leave. */
  lemma {:induction false} RoomIs(rule: Rule, matches: bool, es: seq<Event>, purpose: Purpose, now: real)
    requires NonDecreasing(es) && Causal(es) && forall e | e in es :: e.at <= now
    ensures CountAfter(Run(rule, matches, es).times, now - rule.window) == InWindow(Log(rule, matches, es), now - rule.window, now)
    ensures Capacity(rule, matches, Run(rule, matches, es), purpose, now) == HistoryLimit(rule, matches, es, now) - KeptFor(rule, purpose)
  {
    ProviderRowIsHistory(rule, matches, es, now);
    TableCountsLog(rule, matches, es, now - rule.window, now);
    NothingLater(rule, matches, es, now);
  }

  lemma {:induction false} LeftIs(rule: Rule, matches: bool, es: seq<Event>, purpose: Purpose, now: real)
    requires NonDecreasing(es) && Causal(es) && forall e | e in es :: e.at <= now
    ensures !Exhausted(rule, Run(rule, matches, es), purpose, now)
            <==> (OpenSpan(es).Some? && OpenSpan(es).value.resetAt > now ==>
                    OpenSpan(es).value.obs != []
                    && LeastLeft(OpenSpan(es).value.obs, Run(rule, matches, es).ids) > KeptFor(rule, purpose))
  {
    ProviderRowIsHistory(rule, matches, es, now);
  }

  lemma {:induction false} CoolingIff(rule: Rule, matches: bool, es: seq<Event>, now: real)
    ensures CoolingDown(Run(rule, matches, es), now) <==> exists i: nat :: LimitedAt(es, i) && Stated(rule, es, i) > now
  {
    CooldownIsLatestStated(rule, matches, es);
  }

  /** The reservations that are taken off are the admitted requests, numbered as they came. */
  lemma {:induction false} IdsAreAdmissions(rule: Rule, matches: bool, es: seq<Event>, id: nat)
    ensures id in Run(rule, matches, es).ids
            <==> id < |es| && es[id].Request? && Admitted(rule, matches, Run(rule, matches, es[..id]), es[id].purpose, es[id].at)
  {
    if es != [] {
      var n := |es| - 1;
      IdsAreAdmissions(rule, matches, es[..n], id);
      if id < n { assert es[..n][..id] == es[..id]; }
    }
  }

  /** A concrete run on the public `routes` bucket: a request is refused by the provider for a minute, and half a second later the
      next one is not admitted. */
  lemma {:induction false} RefusedForAMinute()
    ensures var rule := PUBLIC_POLICY.rules["routes"];
            var es := [Request(Planning, 0.0)] + [Response(0, Headers(None, None, None, Seconds(60.0)), true, 0.5)];
            !Admitted(rule, true, Run(rule, true, es), Planning, 1.0) && !Admitted(rule, true, Run(rule, true, es), Execution, 60.0)
  {
    var es := [Request(Planning, 0.0)] + [Response(0, Headers(None, None, None, Seconds(60.0)), true, 0.5)];
    assert LimitedAt(es, 1);
    RefusalHolds(PUBLIC_POLICY.rules["routes"], true, es, 1, Planning, 1.0);
    RefusalHolds(PUBLIC_POLICY.rules["routes"], true, es, 1, Execution, 60.0);
  }

  // ---------------------------------------------------------------- starts, and the object's rows

  /** A mark starts exactly when the last start is a second away and its bucket is not cooling down. */
  lemma {:induction false} StartsWhenDue(marks: seq<Mark>, m: Mark)
    ensures var starts := Starts(marks);
            Starts(marks + [m])
            == if (m.ledger.blockedUntil.Some? ==> m.ledger.blockedUntil.value <= m.now)
                  && (starts != [] ==> m.now - starts[|starts| - 1].now >= 1.0)
               then starts + [m] else starts
  {
    assert (marks + [m])[..|marks|] == marks;
  }

  /** The attempts of a bucket are those that name it. */
  lemma {:induction false} IdsNameTheBucket(attempts: seq<Attempt>, bucket: string, id: nat)
    ensures id in IdsOf(attempts, bucket) <==> id < |attempts| && attempts[id].bucket == bucket
  {
    if attempts != [] {
      IdsNameTheBucket(attempts[..|attempts| - 1], bucket, id);
    }
  }
}
