/** What `available_at` promises on the ledgers that runs reach, and the pacing of actual starts. */
module LifiQuotaReach {
  import opened Prelude
  import opened LifiQuota

  /** A run as it can happen: the clock does not decrease, responses answer earlier attempts, and it is not over before now. */
  ghost predicate Lived(es: seq<Event>, now: real) {
    NonDecreasing(es) && Causal(es) && forall e | e in es :: e.at <= now
  }

  predicate LimitPositive(l: Ledger) {
    l.provider.Some? && l.provider.value.limit.Some? ==> l.provider.value.limit.value >= 1
  }

  /** A stored provider limit is at least one. */
  lemma {:induction false} RunLimitPositive(rule: Rule, matches: bool, es: seq<Event>)
    ensures LimitPositive(Run(rule, matches, es))
  {
    if es != [] {
      RunLimitPositive(rule, matches, es[..|es| - 1]);
    }
  }

  /** Short enough for every window. */
  function Soon(rule: Rule): real {
    if rule.window > 2.0 then 1.0 else rule.window / 2.0
  }

  function Filled(n: nat, purpose: Purpose): seq<Event> {
    if n == 0 then [] else Filled(n - 1, purpose) + [Request(purpose, 0.0)]
  }

  lemma {:induction false} FilledAre(n: nat, purpose: Purpose)
    ensures |Filled(n, purpose)| == n && forall e | e in Filled(n, purpose) :: e == Request(purpose, 0.0)
  {
    if n > 0 {
      FilledAre(n - 1, purpose);
    }
  }

  lemma {:induction false} OneMore(rule: Rule, matches: bool, l: Ledger, purpose: Purpose, id: nat)
    requires |l.times| < rule.limit - Reserve(rule, purpose) && (forall t | t in l.times :: t == 0.0)
    requires l.provider.None? && l.blockedUntil.None?
    ensures var z := Step(rule, matches, l, Request(purpose, 0.0), id);
            && |z.times| == |l.times| + 1 && (forall t | t in z.times :: t == 0.0)
            && z.provider.None? && z.blockedUntil.None?
  {
    CountAtMostLength(l.times, -rule.window);
  }

  /** A bucket takes requests at one instant up to the purpose's full capacity. */
  lemma {:induction false} FilledRun(rule: Rule, matches: bool, n: nat, purpose: Purpose)
    requires n <= rule.limit - Reserve(rule, purpose)
    ensures var l := Run(rule, matches, Filled(n, purpose));
            && |l.times| == n && (forall t | t in l.times :: t == 0.0)
            && l.provider.None? && l.blockedUntil.None?
  {
    if n > 0 {
      FilledRun(rule, matches, n - 1, purpose);
      FilledAre(n - 1, purpose);
      assert Filled(n, purpose)[..n - 1] == Filled(n - 1, purpose);
      OneMore(rule, matches, Run(rule, matches, Filled(n - 1, purpose)), purpose, n - 1);
    }
  }

  /** The provider announces a limit that holds for a moment. */
  function Announced(rule: Rule, limit: nat): Event {
    Response(0, Headers(Some(Soon(rule)), Some(rule.limit as real), Some(limit as real), NoRetryAfter), false, 0.0)
  }

  lemma {:induction false} AnnouncedLived(rule: Rule, n: nat, purpose: Purpose, limit: nat)
    requires 0 < n <= rule.limit - Reserve(rule, purpose)
    ensures Lived(Filled(n, purpose) + [Announced(rule, limit)], 0.0)
  {
    FilledAre(n, purpose);
    var filled := Filled(n, purpose);
    var es := filled + [Announced(rule, limit)];
    forall i | 0 <= i < |es| ensures es[i].at == 0.0 && (es[i].Response? ==> i == n) {
      assert i < n ==> filled[i] in filled;
    }
  }

  lemma {:induction false} AnnouncedRun(rule: Rule, n: nat, purpose: Purpose, limit: nat)
    requires 0 < n <= rule.limit - Reserve(rule, purpose) && 0 < limit < rule.limit
    ensures Lived(Filled(n, purpose) + [Announced(rule, limit)], 0.0)
    ensures var l := Run(rule, true, Filled(n, purpose) + [Announced(rule, limit)]);
            && Sorted(l.times) && |l.times| == n && l.times[0] == 0.0
            && After(l.times, 0.0 - rule.window) == l.times
            && l.provider.Some? && l.provider.value.limit == Some(limit) && l.provider.value.resetAt == Soon(rule)
            && l.blockedUntil.None?
  {
    AnnouncedLived(rule, n, purpose, limit);
    FilledAre(n, purpose);
    FilledRun(rule, true, n, purpose);
    var filled := Filled(n, purpose);
    var es := filled + [Announced(rule, limit)];
    assert es[..n] == filled;
    RunSorted(rule, true, es);
    var times := Run(rule, true, filled).times;
    assert Run(rule, true, es).times == times;
    AllZero(times, 0.0 - rule.window);
  }

  lemma {:induction false} AllZero(ts: seq<real>, cut: real)
    requires ts != [] && (forall t | t in ts :: t == 0.0) && cut < 0.0
    ensures ts[0] == 0.0 && After(ts, cut) == ts
  {
    forall i | 0 <= i < |ts| ensures ts[i] == 0.0 {
      assert ts[i] in ts;
    }
    EverythingAfter(ts, cut);
  }

  lemma {:induction false} EverythingAfter(ts: seq<real>, cut: real)
    requires forall i | 0 <= i < |ts| :: ts[i] > cut
    ensures After(ts, cut) == ts
  {
    if ts != [] {
      EverythingAfter(ts[1..], cut);
    }
  }

  /** For every bucket rule: retrying at the answered time is admitted on all reachable ledgers exactly when provider limits are
      ignored or nothing is reserved from the purpose.  So execution requests and authenticated buckets can rely on it, and
      planning requests of the public `routes` and `steps` buckets cannot. */
  lemma {:induction false} RetryReliableIff(rule: Rule, matches: bool, purpose: Purpose)
    ensures (forall es, now | Lived(es, now) ::
               Admitted(rule, matches, Run(rule, matches, es), purpose, AvailableAt(rule, matches, Run(rule, matches, es), purpose, now)))
            <==> !matches || Reserve(rule, purpose) == 0
  {
    if !matches || Reserve(rule, purpose) == 0 {
      forall es, now | Lived(es, now)
        ensures Admitted(rule, matches, Run(rule, matches, es), purpose, AvailableAt(rule, matches, Run(rule, matches, es), purpose, now))
      {
        RunSorted(rule, matches, es);
        RunLimitPositive(rule, matches, es);
        RetryAdmittedIff(rule, matches, Run(rule, matches, es), purpose, now);
      }
    } else {
      var es := RetryRefused(rule);
      assert Lived(es, 0.0);
    }
  }

  /** The failing run: execution fills the bucket up to the reserve, then the provider announces the reserve as its limit. */
  lemma {:induction false} RetryRefused(rule: Rule) returns (es: seq<Event>)
    requires rule.reserve > 0
    ensures Lived(es, 0.0)
    ensures var l := Run(rule, true, es); !Admitted(rule, true, l, Planning, AvailableAt(rule, true, l, Planning, 0.0))
  {
    var n := rule.limit - rule.reserve;
    es := Filled(n, Execution) + [Announced(rule, rule.reserve)];
    AnnouncedRun(rule, n, Execution, rule.reserve);
    RefusedWhenFull(rule, Run(rule, true, es));
  }

  lemma {:induction false} RefusedWhenFull(rule: Rule, l: Ledger)
    requires rule.reserve > 0 && Sorted(l.times) && |l.times| == rule.limit - rule.reserve && l.times[0] == 0.0
    requires After(l.times, 0.0 - rule.window) == l.times && l.blockedUntil.None?
    requires l.provider.Some? && l.provider.value.limit == Some(rule.reserve) && l.provider.value.resetAt == Soon(rule)
    ensures !Admitted(rule, true, l, Planning, AvailableAt(rule, true, l, Planning, 0.0))
  {
    assert RefusedOnRetry(rule, true, l, Planning, 0.0);
    RetryAdmittedIff(rule, true, l, Planning, 0.0);
  }

  /** The same for a bucket as it is configured: 47 executions, then a limit of three for the `steps` bucket. */
  lemma {:induction false} RetryCanBeRefused()
    ensures exists es :: Lived(es, 0.0) &&
              var rule := PUBLIC_POLICY.rules["steps"];
              !Admitted(rule, true, Run(rule, true, es), Planning, AvailableAt(rule, true, Run(rule, true, es), Planning, 0.0))
  {
    var es := RetryRefused(PUBLIC_POLICY.rules["steps"]);
  }

  /** For every bucket rule: the answered time is the earliest admissible one on all reachable ledgers exactly when provider
      limits are ignored or the purpose has a single slot. */
  lemma {:induction false} EarliestReliableIff(rule: Rule, matches: bool, purpose: Purpose)
    ensures (forall es, now | Lived(es, now) :: IsEarliest(rule, matches, Run(rule, matches, es), purpose, now))
            <==> !matches || rule.limit - Reserve(rule, purpose) == 1
  {
    if !matches || rule.limit - Reserve(rule, purpose) == 1 {
      forall es, now | Lived(es, now) ensures IsEarliest(rule, matches, Run(rule, matches, es), purpose, now) {
        RunSorted(rule, matches, es);
        AvailableIsEarliestIff(rule, matches, Run(rule, matches, es), purpose, now);
      }
    } else {
      var es := AnswerTooLate(rule, purpose);
      assert Lived(es, 0.0);
    }
  }

  /** The late answer: one request, then a limit that leaves the purpose one slot for a moment. */
  lemma {:induction false} AnswerTooLate(rule: Rule, purpose: Purpose) returns (es: seq<Event>)
    requires rule.limit - Reserve(rule, purpose) > 1
    ensures Lived(es, 0.0) && !IsEarliest(rule, true, Run(rule, true, es), purpose, 0.0)
  {
    var limit := Reserve(rule, purpose) + 1;
    es := Filled(1, purpose) + [Announced(rule, limit)];
    AnnouncedRun(rule, 1, purpose, limit);
    var l := Run(rule, true, es);
    assert WaitsTooLong(rule, true, l, purpose, 0.0);
    AvailableIsEarliestIff(rule, true, l, purpose, 0.0);
  }

  // ---------------------------------------------------------------- actual starts

  /** One paced `mark_started` of a known reservation: what its bucket holds then, and the time. */
  datatype Mark = Mark(ledger: Ledger, now: real)

  /** The marks that start, in order. */
  function Starts(marks: seq<Mark>): seq<Mark> {
    if marks == [] then []
    else
      var n := |marks| - 1;
      var before := Starts(marks[..n]);
      if MayStart(marks[n].ledger, LastStart(before), marks[n].now) then before + [marks[n]] else before
  }

  function LastStart(starts: seq<Mark>): Option<real> {
    if starts == [] then None else Some(starts[|starts| - 1].now)
  }

  /** Over every run of marks, of any buckets and with clock readings in any order: actual starts are at least a second apart,
      `k` of them at least `k` seconds, and none happens during its bucket's cooldown. */
  lemma {:induction false} StartsAreApart(marks: seq<Mark>, i: nat, j: nat)
    requires i <= j < |Starts(marks)|
    ensures Starts(marks)[i].now + (j - i) as real <= Starts(marks)[j].now
    ensures !CoolingDown(Starts(marks)[j].ledger, Starts(marks)[j].now)
  {
    var n := |marks| - 1;
    var before := Starts(marks[..n]);
    if j < |before| {
      StartsAreApart(marks[..n], i, j);
    } else if i < j {
      StartsAreApart(marks[..n], i, j - 1);
    }
  }
}
