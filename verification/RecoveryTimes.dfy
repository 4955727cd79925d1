/** When an unresolved source is tried again, and when the recovery of a plan stops. */
module RecoveryTimes {
  import opened Prelude
  import opened PlanRecovery

  /** What may be tried again: an unresolved entry for a passing reason, whose source, or whose chain, is not locked. */
  lemma {:induction false} RetryableIff(e: Entry, locks: Locks)
    ensures Retryable(e, locks) <==>
              e.unresolved && !e.permanent
              && match locks
                 case FrozenKeys(keys) => e.key !in keys
                 case LockedChains(chains) => e.key.chainId !in chains
  {
  }

  /** The backoff starts at a second and doubles, up to a minute. */
  lemma {:induction false} BackoffDoubles(attempt: nat)
    ensures Backoff(0) == 1.0
    ensures Backoff(attempt + 1) == if attempt < 5 then 2.0 * Backoff(attempt) else 60.0
  {
    assert Power(1) == 2 && Power(2) == 4 && Power(3) == 8 && Power(4) == 16 && Power(5) == 32 && Power(6) == 64;
  }

  ghost predicate FirstOf(times: seq<real>, t: real) {
    t in times && forall u | u in times :: t <= u
  }

  lemma {:induction false} EarliestIsFirst(times: seq<real>)
    requires times != []
    ensures FirstOf(times, Earliest(times))
  {
    var n := |times| - 1;
    assert times == times[..n] + [times[n]];
    if n > 0 {
      EarliestIsFirst(times[..n]);
    }
  }

  /** An entry that only waits for the provider waits at least until the first of its retry times; any other one only backs off. */
  lemma {:induction false} WaitIs(e: Entry, attempt: nat, wall: real)
    ensures e.retryTimes != [] && e.quotaOnly ==>
              exists t :: FirstOf(e.retryTimes, t)
                          && Wait(e, attempt, wall) == if t - wall > Backoff(attempt) then t - wall else Backoff(attempt)
    ensures e.retryTimes == [] || !e.quotaOnly ==> Wait(e, attempt, wall) == Backoff(attempt)
  {
    if e.retryTimes != [] {
      EarliestIsFirst(e.retryTimes);
    }
  }

  /** The first time at which anything is due. */
  ghost predicate FirstDue(due: map<Key, real>, at: real) {
    (exists key | key in due :: due[key] == at) && forall key | key in due :: at <= due[key]
  }

  /** After waiting for the first due source, all that are due by then are tried, and no other. */
  lemma {:induction false} RetriedIff(due: map<Key, real>, wakes: real, at: real, key: Key)
    requires FirstDue(due, at)
    ensures key in Retried(due, wakes) <==> key in due && due[key] <= if wakes >= at then wakes else at
  {
  }

  /** One pass: it stops when the deadline has come or nothing is due before it; else it counts one attempt, and every source that
      was due has, whole, its fresh entries if there are any, while the others keep theirs. */
  lemma {:induction false} PassDoes(r: Recovery, locks: Locks, until: real, pass: Pass, key: Key)
    requires !r.stopped
    ensures var due := DueTimes(r.plan, locks, r.attempts, pass.wall, pass.now);
            var after := AfterPass(r, locks, until, pass);
            && (after.stopped <==> pass.now >= until || forall k | k in due :: due[k] >= until)
            && after.attempts == r.attempts + (if after.stopped then 0 else 1)
            && (after.stopped ==> after.plan == r.plan)
            && (!after.stopped ==>
                  OfKey(after.plan, key) == if key in Retried(due, pass.wakes) && OfKey(pass.refreshed, key) != []
                                            then OfKey(pass.refreshed, key) else OfKey(r.plan, key))
  {
    var due := DueTimes(r.plan, locks, r.attempts, pass.wall, pass.now);
    MergedSource(r.plan, Retried(due, pass.wakes), pass.refreshed, key);
  }

  /** A stopped recovery changes nothing more; one that goes on has made an attempt in every pass. */
  lemma {:induction false} AttemptsAreCounted(first: seq<Entry>, locks: Locks, until: real, passes: seq<Pass>)
    ensures var r := AfterPasses(first, locks, until, passes);
            && r.attempts <= |passes| && (!r.stopped ==> r.attempts == |passes|)
            && (passes == [] ==> r.plan == first && !r.stopped)
            && (passes != [] ==> var before := AfterPasses(first, locks, until, passes[..|passes| - 1]);
                                 before.stopped ==> r == before)
  {
    if passes != [] {
      AttemptsAreCounted(first, locks, until, passes[..|passes| - 1]);
    }
  }

  /** The entries of a source, in their order: those of the list that have its key. */
  lemma {:induction false} EntriesOfKey(entries: seq<Entry>, e: Entry, key: Key)
    ensures OfKey(entries + [e], key) == OfKey(entries, key) + if e.key == key then [e] else []
    ensures OfKey([], key) == []
  {
    assert (entries + [e])[..|entries|] == entries;
  }
}
