/** The sliding-window request quota kept in the operational database.

    A `Ledger` is the part of the tables that belongs to one (scope, bucket) pair.  The class
    `LifiQuotaStore` owns the tables of one scope and changes them in place; each of its methods is one
    `BEGIN IMMEDIATE` transaction.  Attempt ids are positions in the attempts table. */
module LifiQuota {
  import opened Prelude

  datatype Purpose = Planning | Execution

  datatype BucketRule = BucketRule(limit: int, window: real, reserve: int)

  /** A bucket always leaves room for at least one planning request. */
  type Rule = r: BucketRule | 0 <= r.reserve < r.limit && 0.0 < r.window witness BucketRule(1, 1.0, 0)

  datatype Policy = Policy(rules: map<string, Rule>, providerLimitMatchesWindow: bool)

  const PUBLIC_POLICY: Policy :=
    Policy(map["routes" := BucketRule(75, 7200.0, 5), "steps" := BucketRule(50, 7200.0, 3),
               "public" := BucketRule(100, 60.0, 0)],
           true)

  const AUTHENTICATED_POLICY: Policy :=
    Policy(map["routes" := BucketRule(12000, 7200.0, 5), "steps" := BucketRule(12000, 7200.0, 3),
               "public" := BucketRule(100, 60.0, 0)],
           false)

  datatype ProviderRow = ProviderRow(remaining: int, resetAt: real, limit: Option<int>)

  /** Reservations in increasing order of time (the window index), their attempt ids in order of
      insertion, the provider's counter, and the cooldown. */
  datatype Ledger = Ledger(times: seq<real>, ids: seq<nat>, provider: Option<ProviderRow>,
                           blockedUntil: Option<real>)

  // ---------------------------------------------------------------- reading the window

  ghost predicate Sorted(ts: seq<real>) {
    forall i, j | 0 <= i < j < |ts| :: ts[i] <= ts[j]
  }

  function Insert(ts: seq<real>, t: real): (r: seq<real>)
    ensures |r| == |ts| + 1
    ensures forall c: real :: CountAfter(r, c) == CountAfter(ts, c) + (if t > c then 1 else 0)
    ensures forall x | x in r :: x == t || x in ts
    ensures Sorted(ts) ==> Sorted(r)
  {
    if ts == [] || t < ts[0] then
      var r := [t] + ts;
      assert r[1..] == ts;
      r
    else
      var rest := Insert(ts[1..], t);
      var r := [ts[0]] + rest;
      assert r[1..] == rest;
      r
  }

  function CountAfter(ts: seq<real>, cut: real): nat {
    if ts == [] then 0 else (if ts[0] > cut then 1 else 0) + CountAfter(ts[1..], cut)
  }

  /** The rows the window query selects: those strictly after the cut. */
  function After(ts: seq<real>, cut: real): (r: seq<real>)
    ensures |r| == CountAfter(ts, cut)
    ensures forall x | x in r :: x > cut && x in ts
    ensures Sorted(ts) ==> Sorted(r)
  {
    if ts == [] then []
    else
      var rest := After(ts[1..], cut);
      assert Sorted(ts) ==> forall x | x in ts[1..] :: ts[0] <= x;
      assert forall i | 0 <= i < |rest| :: rest[i] in rest;
      if ts[0] > cut then [ts[0]] + rest else rest
  }

  function CountLater(ids: seq<nat>, attempt: int): nat {
    if ids == [] then 0 else (if ids[0] > attempt then 1 else 0) + CountLater(ids[1..], attempt)
  }

  // ---------------------------------------------------------------- admission

  predicate Fresh(l: Ledger, now: real) {
    l.provider.Some? && l.provider.value.resetAt > now
  }

  predicate Lowered(rule: Rule, matches: bool, l: Ledger, now: real) {
    Fresh(l, now) && matches && l.provider.value.limit.Some? && l.provider.value.limit.value < rule.limit
  }

  function Limit(rule: Rule, matches: bool, l: Ledger, now: real): int {
    if Lowered(rule, matches, l, now) then l.provider.value.limit.value else rule.limit
  }

  function Reserve(rule: Rule, purpose: Purpose): int {
    if purpose == Planning then rule.reserve else 0
  }

  function Capacity(rule: Rule, matches: bool, l: Ledger, purpose: Purpose, now: real): int {
    Limit(rule, matches, l, now) - Reserve(rule, purpose)
  }

  predicate CoolingDown(l: Ledger, now: real) {
    l.blockedUntil.Some? && l.blockedUntil.value > now
  }

  /** The provider says that nothing is left beyond what is kept for execution. */
  predicate Exhausted(rule: Rule, l: Ledger, purpose: Purpose, now: real) {
    Fresh(l, now) && l.provider.value.remaining <= Reserve(rule, purpose)
  }

  predicate Admitted(rule: Rule, matches: bool, l: Ledger, purpose: Purpose, now: real) {
    && !CoolingDown(l, now)
    && CountAfter(l.times, now - rule.window) < Capacity(rule, matches, l, purpose, now)
    && !Exhausted(rule, l, purpose, now)
  }

  function Reserved(l: Ledger, id: nat, now: real): Ledger {
    l.(times := Insert(l.times, now),
       ids := l.ids + [id],
       provider := if Fresh(l, now)
                   then Some(l.provider.value.(remaining := l.provider.value.remaining - 1))
                   else l.provider)
  }

  /** When the slot that blocks a full window expires. */
  function WindowRetry(rule: Rule, capacity: int, times: seq<real>): real
    requires 0 < capacity <= |times|
  {
    times[|times| - capacity] + rule.window
  }

  function AvailableAt(rule: Rule, matches: bool, l: Ledger, purpose: Purpose, now: real): real {
    var capacity := Capacity(rule, matches, l, purpose, now);
    var times := After(l.times, now - rule.window);
    var reset := if Fresh(l, now) then l.provider.value.resetAt else now + rule.window;
    var a := if CoolingDown(l, now) then MaxReal(now, l.blockedUntil.value) else now;
    var b := if capacity <= 0 then MaxReal(a, reset)
             else if |times| >= capacity then MaxReal(a, WindowRetry(rule, capacity, times))
             else a;
    if Exhausted(rule, l, purpose, now) then MaxReal(b, reset) else b
  }

  // ---------------------------------------------------------------- responses

  datatype RetryAfter = NoRetryAfter | Seconds(seconds: real) | Date(at: real) | Unreadable

  /** Numeric header values are absent when they do not parse as non-negative numbers. */
  datatype Headers = Headers(reset: Option<real>, remaining: Option<real>, limit: Option<real>,
                             retryAfter: RetryAfter)

  function ResetAt(h: Headers, now: real): Option<real> {
    if h.reset.None? then None
    else if h.reset.value >= 1000000000.0 then h.reset
    else Some(now + h.reset.value)
  }

  predicate Informative(h: Headers, now: real) {
    && (h.remaining.Some? || h.limit.Some?)
    && ResetAt(h, now).Some?
    && ResetAt(h, now).value > now
  }

  /** The number of requests the provider reports as left just after the observed one. */
  function Reported(h: Headers): int
    requires h.remaining.Some? || h.limit.Some?
  {
    if h.remaining.Some? then h.remaining.value.Floor else h.limit.value.Floor - 1
  }

  function MergedLimit(prior: Option<int>, limit: Option<real>): Option<int> {
    var merged: Option<real> :=
      if prior.None? then limit
      else if limit.None? || prior.value as real <= limit.value then Some(prior.value as real)
      else limit;
    if merged.Some? && merged.value >= 1.0 then Some(merged.value.Floor) else None
  }

  function Merged(l: Ledger, attempt: nat, h: Headers, now: real): ProviderRow
    requires Informative(h, now)
  {
    var adjusted := Max(0, Reported(h) - CountLater(l.ids, attempt));
    var reset := ResetAt(h, now).value;
    if Fresh(l, now) then
      var prior := l.provider.value;
      ProviderRow(Min(adjusted, prior.remaining), MaxReal(reset, prior.resetAt), MergedLimit(prior.limit, h.limit))
    else
      ProviderRow(adjusted, reset, MergedLimit(None, h.limit))
  }

  function BlockedUntil(rule: Rule, l: Ledger, attempt: nat, h: Headers, now: real): real {
    match h.retryAfter
    case Seconds(s) => now + MaxReal(1.0, s)
    case Date(at) => MaxReal(now + 1.0, at)
    case _ =>
      if Informative(h, now) then Merged(l, attempt, h, now).resetAt
      else ResetAt(h, now).GetOr(now + rule.window)
  }

  function Observed(rule: Rule, l: Ledger, attempt: nat, h: Headers, limited: bool, now: real): Ledger {
    var l1 := if Informative(h, now) then l.(provider := Some(Merged(l, attempt, h, now))) else l;
    if limited then
      var until := BlockedUntil(rule, l, attempt, h, now);
      l1.(blockedUntil := Some(if l.blockedUntil.Some? then MaxReal(l.blockedUntil.value, until) else until))
    else l1
  }

  // ---------------------------------------------------------------- whole runs of one bucket

  datatype Event =
    | Request(purpose: Purpose, at: real)
    | Response(attempt: nat, headers: Headers, limited: bool, at: real)

  const EMPTY := Ledger([], [], None, None)

  function Step(rule: Rule, matches: bool, l: Ledger, e: Event, id: nat): Ledger {
    match e
    case Request(purpose, at) =>
      if Admitted(rule, matches, l, purpose, at) then Reserved(l, id, at) else l
    case Response(attempt, headers, limited, at) => Observed(rule, l, attempt, headers, limited, at)
  }

  /** The ledger after a run; the i-th event, when it reserves, gets attempt id i. */
  function Run(rule: Rule, matches: bool, es: seq<Event>): Ledger {
    if es == [] then EMPTY
    else
      var n := |es| - 1;
      Step(rule, matches, Run(rule, matches, es[..n]), es[n], n)
  }

  /** The requests that were admitted, in the order of their transactions. */
  function Log(rule: Rule, matches: bool, es: seq<Event>): seq<Event>
    ensures forall e | e in Log(rule, matches, es) :: e.Request?
  {
    if es == [] then []
    else
      var n := |es| - 1;
      var log := Log(rule, matches, es[..n]);
      if es[n].Request? && Admitted(rule, matches, Run(rule, matches, es[..n]), es[n].purpose, es[n].at)
      then log + [es[n]] else log
  }

  /** How many logged requests fall in the half-open window (from, to]. */
  function InWindow(log: seq<Event>, from: real, to: real): nat {
    if log == [] then 0
    else
      var last := log[|log| - 1];
      InWindow(log[..|log| - 1], from, to) + (if from < last.at <= to then 1 else 0)
  }

  function PlanningInWindow(log: seq<Event>, from: real, to: real): nat {
    if log == [] then 0
    else
      var last := log[|log| - 1];
      PlanningInWindow(log[..|log| - 1], from, to)
      + (if from < last.at <= to && last.Request? && last.purpose == Planning then 1 else 0)
  }

  lemma {:induction false} LogGrows(rule: Rule, matches: bool, es: seq<Event>, from: real, to: real)
    requires es != []
    ensures var n := |es| - 1;
            var counted := es[n].Request? && Admitted(rule, matches, Run(rule, matches, es[..n]), es[n].purpose, es[n].at)
                           && from < es[n].at <= to;
            InWindow(Log(rule, matches, es), from, to) == InWindow(Log(rule, matches, es[..n]), from, to) + if counted then 1 else 0
  {
    var log := Log(rule, matches, es[..|es| - 1]);
    assert (log + [es[|es| - 1]])[..|log|] == log;
  }

  /** The table holds exactly the logged requests: it counts as many in every window as the log does. */
  lemma {:induction false} TableCountsLog(rule: Rule, matches: bool, es: seq<Event>, from: real, to: real)
    requires from <= to
    ensures InWindow(Log(rule, matches, es), from, to)
            == CountAfter(Run(rule, matches, es).times, from) - CountAfter(Run(rule, matches, es).times, to)
  {
    if es != [] {
      var n := |es| - 1;
      TableCountsLog(rule, matches, es[..n], from, to);
      StepCounts(rule, matches, Run(rule, matches, es[..n]), es[n], n, from);
      StepCounts(rule, matches, Run(rule, matches, es[..n]), es[n], n, to);
      LogGrows(rule, matches, es, from, to);
    }
  }

  lemma {:induction false} StepCounts(rule: Rule, matches: bool, l: Ledger, e: Event, id: nat, cut: real)
    ensures CountAfter(Step(rule, matches, l, e, id).times, cut)
            == CountAfter(l.times, cut)
               + (if e.Request? && Admitted(rule, matches, l, e.purpose, e.at) && e.at > cut then 1 else 0)
  {
    if e.Request? {
      var after := Insert(l.times, e.at);
      assert CountAfter(after, cut) == CountAfter(l.times, cut) + (if e.at > cut then 1 else 0);
    }
  }

  /** The window index stays sorted. */
  lemma {:induction false} RunSorted(rule: Rule, matches: bool, es: seq<Event>)
    ensures Sorted(Run(rule, matches, es).times)
  {
    if es != [] {
      RunSorted(rule, matches, es[..|es| - 1]);
    }
  }

  /** Over every run, with clock readings in any order, no half-open window of the bucket's length holds
      more than `limit` requests. */
  lemma {:induction false} WindowNeverOverflows(rule: Rule, matches: bool, es: seq<Event>, from: real)
    ensures InWindow(Log(rule, matches, es), from, from + rule.window) <= rule.limit
  {
    if es != [] {
      var n := |es| - 1;
      WindowNeverOverflows(rule, matches, es[..n], from);
      LogGrows(rule, matches, es, from, from + rule.window);
      if es[n].Request? && from < es[n].at <= from + rule.window {
        AdmittedHasRoom(rule, matches, es[..n], es[n].purpose, es[n].at, from);
      }
    }
  }

  /** Before an admission there is room in every window around it. */
  lemma {:induction false} AdmittedHasRoom(rule: Rule, matches: bool, es: seq<Event>, purpose: Purpose, at: real, from: real)
    requires from < at <= from + rule.window
    ensures Admitted(rule, matches, Run(rule, matches, es), purpose, at) ==>
              InWindow(Log(rule, matches, es), from, from + rule.window) < rule.limit - Reserve(rule, purpose)
  {
    TableCountsLog(rule, matches, es, from, from + rule.window);
    CountAfterMonotone(Run(rule, matches, es).times, at - rule.window, from);
  }

  /** Nor more than `limit - reserve` planning requests: the reserve is kept for execution. */
  lemma {:induction false} PlanningLeavesReserve(rule: Rule, matches: bool, es: seq<Event>, from: real)
    ensures PlanningInWindow(Log(rule, matches, es), from, from + rule.window) <= rule.limit - rule.reserve
  {
    if es != [] {
      var n := |es| - 1;
      PlanningLeavesReserve(rule, matches, es[..n], from);
      var log := Log(rule, matches, es[..n]);
      assert (log + [es[n]])[..|log|] == log;
      if es[n].Request? && from < es[n].at <= from + rule.window {
        PlanningAmongAll(log, from, from + rule.window);
        AdmittedHasRoom(rule, matches, es[..n], es[n].purpose, es[n].at, from);
      }
    }
  }

  lemma {:induction false} PlanningAmongAll(log: seq<Event>, from: real, to: real)
    ensures PlanningInWindow(log, from, to) <= InWindow(log, from, to)
  {
    if log != [] {
      PlanningAmongAll(log[..|log| - 1], from, to);
    }
  }

  lemma {:induction false} CountAfterMonotone(ts: seq<real>, low: real, high: real)
    requires low <= high
    ensures CountAfter(ts, high) <= CountAfter(ts, low)
  {
    if ts != [] {
      CountAfterMonotone(ts[1..], low, high);
    }
  }

  // ---------------------------------------------------------------- available_at against reserve_request

  lemma {:induction false} CountThroughFilter(ts: seq<real>, cut: real, later: real)
    requires cut <= later
    ensures CountAfter(After(ts, cut), later) == CountAfter(ts, later)
  {
    if ts != [] {
      CountThroughFilter(ts[1..], cut, later);
      var rest := After(ts[1..], cut);
      assert ([ts[0]] + rest)[1..] == rest;
    }
  }

  /** In a sorted list the k-th entry tells how many entries lie after a cut. */
  lemma {:induction false} CountBySlot(ts: seq<real>, k: nat, cut: real)
    requires Sorted(ts) && k < |ts|
    ensures ts[k] <= cut ==> CountAfter(ts, cut) < |ts| - k
    ensures ts[k] > cut ==> CountAfter(ts, cut) >= |ts| - k
  {
    CountAtMostLength(ts[1..], cut);
    if k > 0 {
      CountBySlot(ts[1..], k - 1, cut);
    } else if ts[0] > cut {
      AllCounted(ts, cut);
    }
  }

  lemma {:induction false} CountAtMostLength(ts: seq<real>, cut: real)
    ensures CountAfter(ts, cut) <= |ts|
  {
    if ts != [] {
      CountAtMostLength(ts[1..], cut);
    }
  }

  lemma {:induction false} AllCounted(ts: seq<real>, cut: real)
    requires forall i | 0 <= i < |ts| :: ts[i] > cut
    ensures CountAfter(ts, cut) == |ts|
  {
    if ts != [] {
      AllCounted(ts[1..], cut);
    }
  }

  /** A later reading of the window, in terms of the slots seen now. */
  lemma {:induction false} LaterWindow(rule: Rule, l: Ledger, now: real, later: real, capacity: int)
    requires Sorted(l.times) && now <= later && 0 < capacity
    ensures var times := After(l.times, now - rule.window);
            CountAfter(l.times, later - rule.window) >= capacity
            <==> capacity <= |times| && later < WindowRetry(rule, capacity, times)
  {
    FilteredIffSlot(l.times, now - rule.window, later - rule.window, capacity);
  }

  lemma {:induction false} FilteredIffSlot(ts: seq<real>, cut: real, later: real, capacity: int)
    requires Sorted(ts) && cut <= later && 0 < capacity
    ensures var times := After(ts, cut);
            CountAfter(ts, later) >= capacity <==> capacity <= |times| && later < times[|times| - capacity]
  {
    CountThroughFilter(ts, cut, later);
    FullIffSlot(After(ts, cut), capacity, later);
  }

  /** A sorted list has `capacity` entries after a cut exactly when the one that counts so far from the end lies after it. */
  lemma {:induction false} FullIffSlot(times: seq<real>, capacity: int, cut: real)
    requires Sorted(times) && 0 < capacity
    ensures CountAfter(times, cut) >= capacity <==> capacity <= |times| && cut < times[|times| - capacity]
  {
    CountAtMostLength(times, cut);
    if capacity <= |times| {
      CountBySlot(times, |times| - capacity, cut);
    }
  }

  /** `available_at` answers the current time exactly when an unpaced request would be admitted. */
  lemma {:induction false} AvailableNowIffAdmitted(rule: Rule, matches: bool, l: Ledger, purpose: Purpose, now: real)
    requires Sorted(l.times)
    ensures AvailableAt(rule, matches, l, purpose, now) == now <==> Admitted(rule, matches, l, purpose, now)
  {
    var capacity := Capacity(rule, matches, l, purpose, now);
    if capacity > 0 {
      LaterWindow(rule, l, now, now, capacity);
    }
  }

  /** When the cooldown is over: now, if there is none. */
  function Cleared(l: Ledger, now: real): real {
    if CoolingDown(l, now) then l.blockedUntil.value else now
  }

  /** The provider's lowered limit leaves the purpose nothing, and when its reset and the cooldown have passed, the slots of
      the local window that fill the restored capacity have not expired yet. */
  predicate RefusedOnRetry(rule: Rule, matches: bool, l: Ledger, purpose: Purpose, now: real) {
    var base := rule.limit - Reserve(rule, purpose);
    var times := After(l.times, now - rule.window);
    && Lowered(rule, matches, l, now)
    && l.provider.value.limit.value <= Reserve(rule, purpose)
    && base <= |times|
    && WindowRetry(rule, base, times) > MaxReal(l.provider.value.resetAt, Cleared(l, now))
  }

  /** Retrying at the answered time is admitted in every other case. */
  lemma {:induction false} RetryAdmittedIff(rule: Rule, matches: bool, l: Ledger, purpose: Purpose, now: real)
    requires Sorted(l.times)
    ensures var at := AvailableAt(rule, matches, l, purpose, now);
            now <= at
            && (Admitted(rule, matches, l, purpose, at) <==> !RefusedOnRetry(rule, matches, l, purpose, now))
  {
    var at := AvailableAt(rule, matches, l, purpose, now);
    if Capacity(rule, matches, l, purpose, now) > 0 {
      RetryWithRoom(rule, matches, l, purpose, now);
    } else {
      assert at == MaxReal(l.provider.value.resetAt, Cleared(l, now));
      LaterWindow(rule, l, now, at, rule.limit - Reserve(rule, purpose));
    }
  }

  /** Where the limit in force leaves room, the answer waits for its slot, the cooldown and the provider. */
  lemma {:induction false} RetryWithRoom(rule: Rule, matches: bool, l: Ledger, purpose: Purpose, now: real)
    requires Sorted(l.times) && Capacity(rule, matches, l, purpose, now) > 0
    ensures var at := AvailableAt(rule, matches, l, purpose, now); now <= at && Admitted(rule, matches, l, purpose, at)
  {
    var capacity := Capacity(rule, matches, l, purpose, now);
    LaterWindow(rule, l, now, AvailableAt(rule, matches, l, purpose, now), capacity);
  }

  /** No earlier time than the answered one is admitted. */
  ghost predicate IsEarliest(rule: Rule, matches: bool, l: Ledger, purpose: Purpose, now: real) {
    forall t | now <= t < AvailableAt(rule, matches, l, purpose, now) :: !Admitted(rule, matches, l, purpose, t)
  }

  /** The answer waits for a slot of the lowered limit although that limit is lifted before, the cooldown is over before, and
      the restored limit is not full then. */
  predicate WaitsTooLong(rule: Rule, matches: bool, l: Ledger, purpose: Purpose, now: real) {
    var capacity := Capacity(rule, matches, l, purpose, now);
    var base := rule.limit - Reserve(rule, purpose);
    var times := After(l.times, now - rule.window);
    && Lowered(rule, matches, l, now)
    && 0 < capacity <= |times|
    && WindowRetry(rule, capacity, times) > MaxReal(l.provider.value.resetAt, Cleared(l, now))
    && (base <= |times| ==> WindowRetry(rule, capacity, times) > WindowRetry(rule, base, times))
  }

  lemma {:induction false} AvailableIsEarliestIff(rule: Rule, matches: bool, l: Ledger, purpose: Purpose, now: real)
    requires Sorted(l.times)
    ensures IsEarliest(rule, matches, l, purpose, now) <==> !WaitsTooLong(rule, matches, l, purpose, now)
  {
    var at := AvailableAt(rule, matches, l, purpose, now);
    if WaitsTooLong(rule, matches, l, purpose, now) {
      var base := rule.limit - Reserve(rule, purpose);
      var times := After(l.times, now - rule.window);
      var slot := if base <= |times| then WindowRetry(rule, base, times) else now;
      var t := MaxReal(l.provider.value.resetAt, MaxReal(Cleared(l, now), slot));
      LaterWindow(rule, l, now, t, base);
      assert now <= t < at && Admitted(rule, matches, l, purpose, t);
    } else {
      forall t | now <= t < at ensures !Admitted(rule, matches, l, purpose, t) {
        RefusedBefore(rule, matches, l, purpose, now, t);
      }
    }
  }

  lemma {:induction false} RefusedBefore(rule: Rule, matches: bool, l: Ledger, purpose: Purpose, now: real, t: real)
    requires Sorted(l.times) && !WaitsTooLong(rule, matches, l, purpose, now)
    requires now <= t < AvailableAt(rule, matches, l, purpose, now)
    ensures !Admitted(rule, matches, l, purpose, t)
  {
    var base := rule.limit - Reserve(rule, purpose);
    var capacity := Capacity(rule, matches, l, purpose, now);
    LaterWindow(rule, l, now, t, base);
    if capacity > 0 {
      LaterWindow(rule, l, now, t, capacity);
    }
  }

  // ---------------------------------------------------------------- the provider counter against history

  datatype Obs = Obs(attempt: nat, reported: int)

  /** The responses that the window counts, its latest reset, and the limits reported in it. */
  datatype Span = Span(obs: seq<Obs>, resetAt: real, limits: seq<real>)

  /** A reset is a date when it is large, and a number of seconds otherwise. */
  function ResetTime(reset: real, at: real): real {
    if reset >= 1000000000.0 then reset else at + reset
  }

  /** The response reports what is left, or a limit, until a reset in the future. */
  predicate Reports(h: Headers, at: real) {
    (h.remaining.Some? || h.limit.Some?) && h.reset.Some? && ResetTime(h.reset.value, at) > at
  }

  /** The responses of the provider window that is open after a run, whatever order they arrived in.  A window
      opens with a response that finds no unexpired reset. */
  function OpenSpan(es: seq<Event>): Option<Span> {
    if es == [] then None
    else
      var n := |es| - 1;
      var span := OpenSpan(es[..n]);
      match es[n]
      case Request(_, _) => span
      case Response(attempt, h, _, at) => Widened(span, attempt, h, at)
  }

  /** One more response: it adds to the window that is open, or opens one. */
  function Widened(span: Option<Span>, attempt: nat, h: Headers, at: real): Option<Span> {
    if !Reports(h, at) then span
    else
      var o := Obs(attempt, if h.remaining.Some? then h.remaining.value.Floor else h.limit.value.Floor - 1);
      var reset := ResetTime(h.reset.value, at);
      var limits := if h.limit.Some? then [h.limit.value] else [];
      if span.Some? && span.value.resetAt > at
      then Some(Span(span.value.obs + [o], MaxReal(reset, span.value.resetAt), span.value.limits + limits))
      else Some(Span([o], reset, limits))
  }

  /** The least limit of a window, rounded down; a limit below one forgets those before it. */
  function LimitOf(limits: seq<real>): Option<int> {
    if limits == [] then None
    else
      var n := |limits| - 1;
      var before := LimitOf(limits[..n]);
      if limits[n] < 1.0 then None
      else if before.None? then Some(limits[n].Floor)
      else Some(Min(before.value, limits[n].Floor))
  }

  /** What one response still allows once the later reservations are taken off. */
  function Left(o: Obs, ids: seq<nat>): int {
    Max(0, o.reported - CountLater(ids, o.attempt))
  }

  function LeastLeft(obs: seq<Obs>, ids: seq<nat>): int
    requires obs != []
  {
    var n := |obs| - 1;
    if n == 0 then Left(obs[0], ids) else Min(LeastLeft(obs[..n], ids), Left(obs[n], ids))
  }

  ghost predicate NonDecreasing(es: seq<Event>) {
    forall i, j | 0 <= i < j < |es| :: es[i].at <= es[j].at
  }

  /** Responses answer attempts that were made before them. */
  ghost predicate Causal(es: seq<Event>) {
    forall i | 0 <= i < |es| && es[i].Response? :: es[i].attempt < i
  }

  lemma {:induction false} CountLaterAppend(ids: seq<nat>, id: nat, attempt: int)
    ensures CountLater(ids + [id], attempt) == CountLater(ids, attempt) + (if id > attempt then 1 else 0)
  {
    if ids == [] {
      assert ids + [id] == [id];
    } else {
      assert (ids + [id])[1..] == ids[1..] + [id];
      CountLaterAppend(ids[1..], id, attempt);
    }
  }

  lemma {:induction false} LeastLeftBound(obs: seq<Obs>, ids: seq<nat>)
    requires obs != []
    ensures forall o | o in obs :: LeastLeft(obs, ids) <= Left(o, ids)
    ensures exists o | o in obs :: LeastLeft(obs, ids) == Left(o, ids)
  {
    var n := |obs| - 1;
    var least := LeastLeft(obs, ids);
    if n == 0 {
      assert obs[0] in obs && least == Left(obs[0], ids);
    } else {
      LeastLeftBound(obs[..n], ids);
      forall o | o in obs ensures least <= Left(o, ids) {
        if o != obs[n] { assert o in obs[..n]; }
      }
      if least == Left(obs[n], ids) {
        assert obs[n] in obs;
      } else {
        var o :| o in obs[..n] && LeastLeft(obs[..n], ids) == Left(o, ids);
        assert o in obs && least == Left(o, ids);
      }
    }
  }

  lemma {:induction false} ReservationTakesOne(obs: seq<Obs>, ids: seq<nat>, id: nat)
    requires obs != [] && LeastLeft(obs, ids) > 0
    requires forall o | o in obs :: o.attempt < id
    ensures LeastLeft(obs, ids + [id]) == LeastLeft(obs, ids) - 1
  {
    var n := |obs| - 1;
    CountLaterAppend(ids, id, obs[n].attempt);
    assert obs[n] in obs;
    if n > 0 {
      ReservationTakesOne(obs[..n], ids, id);
    }
  }

  lemma {:induction false} SpanAttempts(es: seq<Event>)
    requires Causal(es)
    ensures OpenSpan(es).Some? ==> OpenSpan(es).value.obs != []
    ensures OpenSpan(es).Some? ==> forall o | o in OpenSpan(es).value.obs :: o.attempt < |es|
  {
    if es != [] {
      SpanAttempts(es[..|es| - 1]);
    }
  }

  /** The row and the open span agree: same reset, the counter is the least the span allows, and the limit is the span's. */
  ghost predicate Agree(row: Option<ProviderRow>, span: Option<Span>, ids: seq<nat>, now: real) {
    && (row.Some? <==> span.Some?)
    && (row.Some? ==>
          && span.value.obs != []
          && row.value.resetAt == span.value.resetAt
          && (row.value.resetAt > now ==>
                row.value.remaining == LeastLeft(span.value.obs, ids) && row.value.limit == LimitOf(span.value.limits)))
  }

  lemma {:induction false} MergedLimitIs(limits: seq<real>, limit: Option<real>)
    ensures MergedLimit(LimitOf(limits), limit) == LimitOf(limits + if limit.Some? then [limit.value] else [])
  {
    LimitOfPositive(limits);
    if limit.Some? {
      assert (limits + [limit.value])[..|limits|] == limits;
    } else {
      assert limits + [] == limits;
    }
  }

  lemma {:induction false} LimitOfPositive(limits: seq<real>)
    ensures LimitOf(limits).Some? ==> LimitOf(limits).value >= 1
  {
    if limits != [] {
      LimitOfPositive(limits[..|limits| - 1]);
    }
  }

  lemma {:induction false} ResponseKeepsAgreement(rule: Rule, l: Ledger, span: Option<Span>, attempt: nat, h: Headers, limited: bool, at: real)
    requires Agree(l.provider, span, l.ids, at)
    ensures var after := Observed(rule, l, attempt, h, limited, at);
            after.ids == l.ids && Agree(after.provider, Widened(span, attempt, h, at), l.ids, at)
  {
    if Informative(h, at) && Fresh(l, at) {
      MergedLimitIs(span.value.limits, h.limit);
      var obs := span.value.obs;
      assert (obs + [Obs(attempt, Reported(h))])[..|obs|] == obs;
    } else if Informative(h, at) {
      MergedLimitIs([], h.limit);
      assert [] + (if h.limit.Some? then [h.limit.value] else []) == if h.limit.Some? then [h.limit.value] else [];
    }
  }

  /** While its reset has not passed, the provider row holds exactly what the full history says: the least,
      over the responses of the open window, of the reported rest minus the reservations made later. */
  lemma {:induction false} ProviderRowIsHistory(rule: Rule, matches: bool, es: seq<Event>, now: real)
    requires NonDecreasing(es) && Causal(es)
    requires forall e | e in es :: e.at <= now
    ensures Agree(Run(rule, matches, es).provider, OpenSpan(es), Run(rule, matches, es).ids, now)
  {
    if es != [] {
      var n := |es| - 1;
      var before := Run(rule, matches, es[..n]);
      assert es[n] in es;
      ProviderRowIsHistory(rule, matches, es[..n], es[n].at);
      match es[n]
      case Request(purpose, at) =>
        if Admitted(rule, matches, before, purpose, at) && Fresh(before, at) {
          SpanAttempts(es[..n]);
          ReservationTakesOne(OpenSpan(es[..n]).value.obs, before.ids, n);
        }
      case Response(attempt, h, limited, at) => ResponseKeepsAgreement(rule, before, OpenSpan(es[..n]), attempt, h, limited, at);
    }
  }

  lemma {:induction false} SameObservationsSameRest(rule: Rule, matches: bool, a: seq<Event>, b: seq<Event>, now: real)
    requires NonDecreasing(a) && Causal(a) && NonDecreasing(b) && Causal(b)
    requires forall e | e in a + b :: e.at <= now
    requires Fresh(Run(rule, matches, a), now) && Fresh(Run(rule, matches, b), now)
    requires Run(rule, matches, a).ids == Run(rule, matches, b).ids
    requires OpenSpan(a).Some? && OpenSpan(b).Some?
    requires forall o :: o in OpenSpan(a).value.obs <==> o in OpenSpan(b).value.obs
    ensures Run(rule, matches, a).provider.value.remaining == Run(rule, matches, b).provider.value.remaining
  {
    assert forall e | e in a :: e in a + b;
    assert forall e | e in b :: e in a + b;
    ProviderRowIsHistory(rule, matches, a, now);
    ProviderRowIsHistory(rule, matches, b, now);
    LeastLeftBound(OpenSpan(a).value.obs, Run(rule, matches, a).ids);
    LeastLeftBound(OpenSpan(b).value.obs, Run(rule, matches, b).ids);
  }

  /** What a block of responses reports. */
  function Observations(block: seq<Event>): seq<Obs>
    requires forall e | e in block :: e.Response?
  {
    if block == [] then []
    else
      var n := |block| - 1;
      var e := block[n];
      Observations(block[..n]) + if Informative(e.headers, e.at) then [Obs(e.attempt, Reported(e.headers))] else []
  }

  lemma {:induction false} ResponseAddsObservation(rule: Rule, matches: bool, before: seq<Event>, e: Event, now: real)
    requires e.Response? && e.at <= now
    requires OpenSpan(before).Some? && OpenSpan(before).value.resetAt > now
    ensures Run(rule, matches, before + [e]).ids == Run(rule, matches, before).ids
    ensures OpenSpan(before + [e]).Some? && OpenSpan(before + [e]).value.resetAt > now
    ensures OpenSpan(before + [e]).value.obs == OpenSpan(before).value.obs + Observations([e])
  {
    assert (before + [e])[..|before|] == before;
    assert [e][..0] == [];
    assert OpenSpan(before).value.obs + [] == OpenSpan(before).value.obs;
  }

  /** Inside an open provider window a block of responses reserves nothing and only adds its observations. */
  lemma {:induction false} BlockAddsObservations(rule: Rule, matches: bool, before: seq<Event>, block: seq<Event>, now: real)
    requires forall e | e in block :: e.Response? && e.at <= now
    requires OpenSpan(before).Some? && OpenSpan(before).value.resetAt > now
    ensures Run(rule, matches, before + block).ids == Run(rule, matches, before).ids
    ensures OpenSpan(before + block).Some? && OpenSpan(before + block).value.resetAt > now
    ensures OpenSpan(before + block).value.obs == OpenSpan(before).value.obs + Observations(block)
  {
    if block == [] {
      assert before + block == before;
    } else {
      var n := |block| - 1;
      assert block[n] in block && forall e | e in block[..n] :: e in block;
      BlockAddsObservations(rule, matches, before, block[..n], now);
      assert before + block == before + block[..n] + [block[n]];
      ResponseAddsObservation(rule, matches, before + block[..n], block[n], now);
    }
  }

  /** So inside an open provider window the responses can arrive in any order and any number of times: two blocks with the same
      observations leave the same counter. */
  lemma {:induction false} ResponseOrderIrrelevant(rule: Rule, matches: bool, before: seq<Event>, x: seq<Event>, y: seq<Event>,
        now: real)
    requires NonDecreasing(before + x) && Causal(before + x) && NonDecreasing(before + y) && Causal(before + y)
    requires (forall e | e in before + x :: e.at <= now) && (forall e | e in before + y :: e.at <= now)
    requires Fresh(Run(rule, matches, before), now)
    requires (forall e | e in x :: e.Response?) && (forall e | e in y :: e.Response?)
    requires forall o :: o in Observations(x) <==> o in Observations(y)
    ensures Fresh(Run(rule, matches, before + x), now) && Fresh(Run(rule, matches, before + y), now)
    ensures Run(rule, matches, before + x).provider.value.remaining == Run(rule, matches, before + y).provider.value.remaining
  {
    PrefixLived(before, x, now);
    ProviderRowIsHistory(rule, matches, before, now);
    assert forall e | e in x :: e in before + x;
    assert forall e | e in y :: e in before + y;
    BlockAddsObservations(rule, matches, before, x, now);
    BlockAddsObservations(rule, matches, before, y, now);
    ProviderRowIsHistory(rule, matches, before + x, now);
    ProviderRowIsHistory(rule, matches, before + y, now);
    assert forall e | e in (before + x) + (before + y) :: e in before + x || e in before + y;
    SameObservationsSameRest(rule, matches, before + x, before + y, now);
  }

  lemma {:induction false} PrefixLived(before: seq<Event>, more: seq<Event>, now: real)
    requires NonDecreasing(before + more) && Causal(before + more) && forall e | e in before + more :: e.at <= now
    ensures NonDecreasing(before) && Causal(before) && forall e | e in before :: e.at <= now
  {
    assert forall i | 0 <= i < |before| :: (before + more)[i] == before[i];
    assert forall e | e in before :: e in before + more;
  }

  // ---------------------------------------------------------------- the store of one scope

  datatype Attempt = Attempt(bucket: string, requestKey: string, sentAt: real,
                             startedAt: Option<real>, observedAt: Option<real>)

  datatype Reply =
    | Granted(attempt: nat)
    | Cooldown(retryAt: real)
    | QuotaWait(retryAt: real)
    | DispatchWait(retryAt: real)

  /** No cooldown, and a second since the last start. */
  predicate MayStart(l: Ledger, last: Option<real>, now: real) {
    !CoolingDown(l, now) && (last.Some? ==> last.value + 1.0 <= now)
  }

  datatype Started = StartedNow | NotYet(reply: Reply) | UnknownReservation

  function IdsOf(attempts: seq<Attempt>, bucket: string): seq<nat> {
    if attempts == [] then []
    else
      var n := |attempts| - 1;
      var ids := IdsOf(attempts[..n], bucket);
      if attempts[n].bucket == bucket then ids + [n] else ids
  }

  /** Marking an attempt as started or observed keeps the ids of every bucket. */
  lemma {:induction false} IdsKept(a: seq<Attempt>, b: seq<Attempt>, bucket: string)
    requires |a| == |b| && forall i | 0 <= i < |a| :: a[i].bucket == b[i].bucket
    ensures IdsOf(a, bucket) == IdsOf(b, bucket)
  {
    if a != [] {
      IdsKept(a[..|a| - 1], b[..|b| - 1], bucket);
    }
  }

  class LifiQuotaStore {
    const policy: Policy
    var requests: map<string, seq<real>>
    var providers: map<string, ProviderRow>
    var cooldowns: map<string, real>
    var attempts: seq<Attempt>
    var lastStart: Option<real>
    var lastActualStart: Option<real>

    constructor (policy: Policy)
      ensures this.policy == policy && attempts == []
      ensures lastStart == None && lastActualStart == None
      ensures forall b :: LedgerOf(b) == EMPTY
    {
      this.policy := policy;
      requests, providers, cooldowns, attempts := map[], map[], map[], [];
      lastStart, lastActualStart := None, None;
    }

    /** The rows of one bucket. */
    function LedgerOf(bucket: string): Ledger
      reads this
    {
      Ledger(if bucket in requests then requests[bucket] else [],
             IdsOf(attempts, bucket),
             if bucket in providers then Some(providers[bucket]) else None,
             if bucket in cooldowns then Some(cooldowns[bucket]) else None)
    }

    /** Reads the capacity of a bucket without reserving. */
    method Available(bucket: string, purpose: Purpose, now: real) returns (at: real)
      requires bucket in policy.rules
      ensures at == AvailableAt(policy.rules[bucket], policy.providerLimitMatchesWindow, LedgerOf(bucket), purpose, now)
    {
      var rule := policy.rules[bucket];
      var l := LedgerOf(bucket);
      var times := After(l.times, now - rule.window);
      var capacity := Capacity(rule, policy.providerLimitMatchesWindow, l, purpose, now);
      var reset := if Fresh(l, now) then l.provider.value.resetAt else now + rule.window;
      at := now;
      if CoolingDown(l, now) {
        at := MaxReal(at, l.blockedUntil.value);
      }
      if capacity <= 0 {
        at := MaxReal(at, reset);
      } else if |times| >= capacity {
        at := MaxReal(at, WindowRetry(rule, capacity, times));
      }
      if Exhausted(rule, l, purpose, now) {
        at := MaxReal(at, reset);
      }
    }

    /** The refusal, if any, that a request meets before pacing. */
    method Refusal(bucket: string, purpose: Purpose, now: real) returns (refusal: Option<Reply>)
      requires bucket in policy.rules
      ensures refusal.None?
              <==> Admitted(policy.rules[bucket], policy.providerLimitMatchesWindow, LedgerOf(bucket), purpose, now)
      ensures refusal.Some? ==> refusal.value.Cooldown? || refusal.value.QuotaWait?
      ensures refusal.Some? ==> (refusal.value.Cooldown? <==> CoolingDown(LedgerOf(bucket), now))
      ensures refusal.Some? && refusal.value.Cooldown? ==> refusal.value.retryAt == LedgerOf(bucket).blockedUntil.value
      ensures refusal.Some? && refusal.value.QuotaWait? ==>
                refusal.value.retryAt == AvailableAt(policy.rules[bucket], policy.providerLimitMatchesWindow,
                                                     LedgerOf(bucket), purpose, now)
    {
      var rule := policy.rules[bucket];
      var l := LedgerOf(bucket);
      if CoolingDown(l, now) {
        return Some(Cooldown(l.blockedUntil.value));
      }
      var times := After(l.times, now - rule.window);
      var capacity := Capacity(rule, policy.providerLimitMatchesWindow, l, purpose, now);
      var retry: Option<real> := None;
      if capacity <= 0 {
        retry := Some(l.provider.value.resetAt);
      } else if |times| >= capacity {
        assert times[|times| - capacity] in times;
        retry := Some(WindowRetry(rule, capacity, times));
      }
      if Exhausted(rule, l, purpose, now) {
        retry := Some(MaxReal(retry.GetOr(l.provider.value.resetAt), l.provider.value.resetAt));
      }
      return if retry.Some? then Some(QuotaWait(retry.value)) else None;
    }

    /** Grants a request exactly when the bucket admits it and, if paced, a second has passed since the last
        paced one; otherwise nothing changes. */
    method ReserveRequest(bucket: string, requestKey: string, purpose: Purpose, paced: bool, now: real)
      returns (reply: Reply)
      requires bucket in policy.rules
      modifies this
      ensures reply.Granted?
              <==> Admitted(policy.rules[bucket], policy.providerLimitMatchesWindow, old(LedgerOf(bucket)), purpose, now)
                   && (!paced || old(lastStart).None? || old(lastStart).value + 1.0 <= now)
      ensures reply.Granted? ==> reply.attempt == old(|attempts|)
      ensures reply.DispatchWait? ==> old(lastStart).Some? && now < reply.retryAt == old(lastStart).value + 1.0
      ensures LedgerOf(bucket)
              == if reply.Granted? then Reserved(old(LedgerOf(bucket)), reply.attempt, now) else old(LedgerOf(bucket))
      ensures forall b | b != bucket :: LedgerOf(b) == old(LedgerOf(b))
      ensures lastStart == if reply.Granted? && paced then Some(now) else old(lastStart)
      ensures attempts == old(attempts)
                          + (if reply.Granted? then [Attempt(bucket, requestKey, now, None, None)] else [])
      ensures lastActualStart == old(lastActualStart)
    {
      var refusal := Refusal(bucket, purpose, now);
      if refusal.Some? {
        return refusal.value;
      }
      if paced {
        if lastStart.Some? && lastStart.value + 1.0 > now {
          return DispatchWait(lastStart.value + 1.0);
        }
        lastStart := Some(now);
      }
      Record(bucket, requestKey, now);
      return Granted(|attempts| - 1);
    }

    method Record(bucket: string, requestKey: string, now: real)
      modifies `requests, `attempts, `providers
      ensures LedgerOf(bucket) == Reserved(old(LedgerOf(bucket)), old(|attempts|), now)
      ensures forall b | b != bucket :: LedgerOf(b) == old(LedgerOf(b))
      ensures attempts == old(attempts) + [Attempt(bucket, requestKey, now, None, None)]
    {
      requests := requests[bucket := Insert(LedgerOf(bucket).times, now)];
      attempts := attempts + [Attempt(bucket, requestKey, now, None, None)];
      assert attempts[..|attempts| - 1] == old(attempts);
      if bucket in providers && providers[bucket].resetAt > now {
        providers := providers[bucket := providers[bucket].(remaining := providers[bucket].remaining - 1)];
      }
    }

    /** Actual starts of one scope are at least a second apart, and none happens during a cooldown. */
    method MarkStarted(attempt: nat, paced: bool, now: real) returns (r: Started)
      modifies this
      ensures r.UnknownReservation? <==> paced && attempt >= |old(attempts)|
      ensures r.StartedNow?
              <==> !paced || (&& attempt < |old(attempts)|
                              && MayStart(old(LedgerOf(attempts[attempt].bucket)), old(lastActualStart), now))
      ensures r.NotYet? && CoolingDown(old(LedgerOf(attempts[attempt].bucket)), now) ==>
                r.reply == Cooldown(old(LedgerOf(attempts[attempt].bucket)).blockedUntil.value)
      ensures r.NotYet? && !CoolingDown(old(LedgerOf(attempts[attempt].bucket)), now) ==>
                old(lastActualStart).Some? && r.reply == DispatchWait(old(lastActualStart).value + 1.0)
      ensures lastActualStart == if r.StartedNow? && paced then Some(now) else old(lastActualStart)
      ensures attempts == if r.StartedNow? && attempt < |old(attempts)|
                          then old(attempts)[attempt := old(attempts)[attempt].(startedAt := Some(now))]
                          else old(attempts)
      ensures forall b :: LedgerOf(b) == old(LedgerOf(b))
      ensures lastStart == old(lastStart)
    {
      if paced {
        if attempt >= |attempts| {
          return UnknownReservation;
        }
        var l := LedgerOf(attempts[attempt].bucket);
        if CoolingDown(l, now) {
          return NotYet(Cooldown(l.blockedUntil.value));
        }
        if lastActualStart.Some? && lastActualStart.value + 1.0 > now {
          return NotYet(DispatchWait(lastActualStart.value + 1.0));
        }
        lastActualStart := Some(now);
      }
      if attempt < |attempts| {
        attempts := attempts[attempt := attempts[attempt].(startedAt := Some(now))];
      }
      forall b ensures IdsOf(attempts, b) == IdsOf(old(attempts), b) {
        IdsKept(attempts, old(attempts), b);
      }
      return StartedNow;
    }

    /** Merges one response into the tables. */
    method Observe(bucket: string, attempt: nat, h: Headers, limited: bool, now: real)
      requires bucket in policy.rules
      modifies this
      ensures LedgerOf(bucket) == Observed(policy.rules[bucket], old(LedgerOf(bucket)), attempt, h, limited, now)
      ensures forall b | b != bucket :: LedgerOf(b) == old(LedgerOf(b))
      ensures lastStart == old(lastStart) && lastActualStart == old(lastActualStart)
      ensures attempts == if attempt < |old(attempts)|
                          then old(attempts)[attempt := old(attempts)[attempt].(observedAt := Some(now))]
                          else old(attempts)
    {
      if attempt < |attempts| {
        attempts := attempts[attempt := attempts[attempt].(observedAt := Some(now))];
      }
      forall b ensures IdsOf(attempts, b) == IdsOf(old(attempts), b) {
        IdsKept(attempts, old(attempts), b);
      }
      var rule := policy.rules[bucket];
      var l := LedgerOf(bucket);
      var until := BlockedUntil(rule, l, attempt, h, now);
      if Informative(h, now) {
        providers := providers[bucket := Merged(l, attempt, h, now)];
      }
      if limited {
        cooldowns := cooldowns[bucket := if bucket in cooldowns then MaxReal(cooldowns[bucket], until) else until];
      }
    }

    /** One event of a bucket does to its rows what a step of a run does. */
    method Perform(bucket: string, e: Event)
      requires bucket in policy.rules
      modifies this
      ensures LedgerOf(bucket) == Step(policy.rules[bucket], policy.providerLimitMatchesWindow, old(LedgerOf(bucket)), e,
                                       old(|attempts|))
      ensures forall b | b != bucket :: LedgerOf(b) == old(LedgerOf(b))
    {
      match e {
        case Request(purpose, at) => var _ := ReserveRequest(bucket, "", purpose, false, at);
        case Response(attempt, headers, limited, at) => Observe(bucket, attempt, headers, limited, at);
      }
    }
  }
}
