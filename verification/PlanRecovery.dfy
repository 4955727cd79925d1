/** Retrying the unresolved sources of a plan: which are due, and how fresh quotes replace old entries. */
module PlanRecovery {
  import opened Prelude

  /** A wallet, a chain and an asset, in lower case. */
  datatype Key = Key(wallet: string, chainId: int, asset: string)

  /** `unresolved` and `permanent` are what the status and reason say, `retryTimes` the pending requests' times after refresh,
      and `quotaOnly` says that every search error is a provider cooldown. */
  datatype Entry = Entry(key: Key, unresolved: bool, permanent: bool, retryTimes: seq<real>, quotaOnly: bool, content: string)

  /** What must not be quoted again: exact sources, or whole chains. */
  datatype Locks = FrozenKeys(keys: set<Key>) | LockedChains(chains: set<int>)

  predicate Locked(locks: Locks, key: Key) {
    match locks
    case FrozenKeys(keys) => key in keys
    case LockedChains(chains) => key.chainId in chains
  }

  predicate Retryable(e: Entry, locks: Locks) {
    e.unresolved && !Locked(locks, e.key) && !e.permanent
  }

  function Power(n: nat): nat {
    if n == 0 then 1 else 2 * Power(n - 1)
  }

  function Backoff(attempt: nat): real {
    Min(60, Power(Min(attempt, 6))) as real
  }

  function Earliest(times: seq<real>): real
    requires times != []
  {
    var n := |times| - 1;
    if n == 0 then times[0]
    else
      var t := Earliest(times[..n]);
      if t <= times[n] then t else times[n]
  }

  /** A provider cooldown delays a retry; any other failure only backs off. */
  function Wait(e: Entry, attempt: nat, wall: real): real {
    if e.retryTimes != [] && e.quotaOnly then MaxReal(Backoff(attempt), Earliest(e.retryTimes) - wall) else Backoff(attempt)
  }

  function DueTimes(entries: seq<Entry>, locks: Locks, attempt: nat, wall: real, now: real): map<Key, real> {
    if entries == [] then map[]
    else
      var n := |entries| - 1;
      var due := DueTimes(entries[..n], locks, attempt, wall, now);
      var e := entries[n];
      if !Retryable(e, locks) then due
      else
        var at := now + Wait(e, attempt, wall);
        due[e.key := if e.key in due && due[e.key] <= at then due[e.key] else at]
  }

  /** A source is due when its first retryable entry is, and never before the backoff. */
  lemma {:induction false} DueIsFirstWait(entries: seq<Entry>, locks: Locks, attempt: nat, wall: real, now: real,
        key: Key)
    ensures var due := DueTimes(entries, locks, attempt, wall, now);
            && (key in due <==> exists e | e in entries :: e.key == key && Retryable(e, locks))
            && (key in due ==>
                  && due[key] >= now + Backoff(attempt)
                  && (forall e | e in entries && e.key == key && Retryable(e, locks) :: due[key] <= now + Wait(e, attempt, wall))
                  && (exists e | e in entries :: e.key == key && Retryable(e, locks) && due[key] == now + Wait(e, attempt, wall)))
  {
    if entries != [] {
      var n := |entries| - 1;
      DueIsFirstWait(entries[..n], locks, attempt, wall, now, key);
      assert entries == entries[..n] + [entries[n]];
    }
  }

  // ---------------------------------------------------------------- merging

  function OfKey(entries: seq<Entry>, key: Key): seq<Entry> {
    if entries == [] then []
    else
      var n := |entries| - 1;
      OfKey(entries[..n], key) + if entries[n].key == key then [entries[n]] else []
  }

  function Among(entries: seq<Entry>, keys: set<Key>): seq<Entry> {
    if entries == [] then []
    else
      var n := |entries| - 1;
      Among(entries[..n], keys) + if entries[n].key in keys then [entries[n]] else []
  }

  function Without(entries: seq<Entry>, keys: set<Key>): seq<Entry> {
    if entries == [] then []
    else
      var n := |entries| - 1;
      Without(entries[..n], keys) + if entries[n].key in keys then [] else [entries[n]]
  }

  function KeysOf(entries: seq<Entry>): set<Key> {
    set e | e in entries :: e.key
  }

  /** The fresh entries of the retried sources take the place of the old ones; a source without a fresh entry keeps its own. */
  function Merge(entries: seq<Entry>, retried: set<Key>, refreshed: seq<Entry>): seq<Entry> {
    var replacements := Among(refreshed, retried);
    Without(entries, KeysOf(replacements)) + replacements
  }

  lemma {:induction false} OfKeyAppend(a: seq<Entry>, b: seq<Entry>, key: Key)
    ensures OfKey(a + b, key) == OfKey(a, key) + OfKey(b, key)
  {
    if b == [] {
      assert a + b == a;
    } else {
      var n := |b| - 1;
      assert (a + b)[..|a + b| - 1] == a + b[..n];
      OfKeyAppend(a, b[..n], key);
    }
  }

  lemma {:induction false} OfKeyFiltered(entries: seq<Entry>, keys: set<Key>, key: Key)
    ensures OfKey(Among(entries, keys), key) == if key in keys then OfKey(entries, key) else []
    ensures OfKey(Without(entries, keys), key) == if key in keys then [] else OfKey(entries, key)
  {
    if entries != [] {
      var n := |entries| - 1;
      var last := entries[n];
      OfKeyFiltered(entries[..n], keys, key);
      OfKeyAppend(Among(entries[..n], keys), if last.key in keys then [last] else [], key);
      OfKeyAppend(Without(entries[..n], keys), if last.key in keys then [] else [last], key);
      assert [last][..0] == [];
      assert OfKey([last], key) == if last.key == key then [last] else [];
    }
  }

  lemma {:induction false} OfKeyOccurs(entries: seq<Entry>, key: Key)
    ensures OfKey(entries, key) != [] <==> key in KeysOf(entries)
    ensures forall e :: e in OfKey(entries, key) <==> e in entries && e.key == key
  {
    if entries != [] {
      var n := |entries| - 1;
      OfKeyOccurs(entries[..n], key);
      assert entries == entries[..n] + [entries[n]];
      if key in KeysOf(entries) {
        var e :| e in entries && e.key == key;
        if e != entries[n] {
          assert e in entries[..n];
        }
      }
    }
  }

  lemma {:induction false} ReplacedIff(refreshed: seq<Entry>, retried: set<Key>, key: Key)
    ensures key in KeysOf(Among(refreshed, retried)) <==> key in retried && OfKey(refreshed, key) != []
  {
    OfKeyFiltered(refreshed, retried, key);
    OfKeyOccurs(Among(refreshed, retried), key);
  }

  /** Every source has, whole, its fresh entries if it was retried and has any, and its old ones otherwise. */
  lemma {:induction false} MergedSource(entries: seq<Entry>, retried: set<Key>, refreshed: seq<Entry>, key: Key)
    ensures OfKey(Merge(entries, retried, refreshed), key)
            == if key in retried && OfKey(refreshed, key) != [] then OfKey(refreshed, key) else OfKey(entries, key)
  {
    var replacements := Among(refreshed, retried);
    ReplacedIff(refreshed, retried, key);
    OfKeyFiltered(refreshed, retried, key);
    OfKeyFiltered(entries, KeysOf(replacements), key);
    OfKeyAppend(Without(entries, KeysOf(replacements)), replacements, key);
  }

  // ---------------------------------------------------------------- the loop

  /** One pass: the clock and the wall clock when it starts, when it would wake, and what the planner answers. */
  datatype Pass = Pass(now: real, wall: real, wakes: real, refreshed: seq<Entry>)

  datatype Recovery = Recovery(plan: seq<Entry>, attempts: nat, stopped: bool)

  /** The sources that are tried after waiting for the first of them, or longer. */
  function Retried(due: map<Key, real>, wakes: real): set<Key> {
    set key | key in due && (due[key] <= wakes || forall other | other in due :: due[key] <= due[other])
  }

  /** It stops at the deadline, when nothing is left to try, or when the first retry would come too late. */
  function AfterPass(r: Recovery, locks: Locks, until: real, pass: Pass): Recovery {
    var due := DueTimes(r.plan, locks, r.attempts, pass.wall, pass.now);
    if r.stopped || pass.now >= until || forall key | key in due :: due[key] >= until then r.(stopped := true)
    else Recovery(Merge(r.plan, Retried(due, pass.wakes), pass.refreshed), r.attempts + 1, false)
  }

  function AfterPasses(first: seq<Entry>, locks: Locks, until: real, passes: seq<Pass>): Recovery {
    if passes == [] then Recovery(first, 0, false)
    else
      var n := |passes| - 1;
      AfterPass(AfterPasses(first, locks, until, passes[..n]), locks, until, passes[n])
  }

  /** Nothing about the source may be tried again. */
  predicate Finished(entries: seq<Entry>, locks: Locks, key: Key) {
    forall e | e in entries && e.key == key :: !Retryable(e, locks)
  }

  /** Where the entries of a source come from: all from the first plan, or all from one answer. */
  ghost predicate FromOneAnswer(plan: seq<Entry>, first: seq<Entry>, passes: seq<Pass>, key: Key) {
    || OfKey(plan, key) == OfKey(first, key)
    || exists i | 0 <= i < |passes| :: OfKey(plan, key) == OfKey(passes[i].refreshed, key) && OfKey(passes[i].refreshed, key) != []
  }

  lemma {:induction false} PassKeeps(plan: seq<Entry>, first: seq<Entry>, locks: Locks, passes: seq<Pass>, i: nat,
        retried: set<Key>, key: Key)
    requires i < |passes| && FromOneAnswer(plan, first, passes, key) && (key in KeysOf(plan) <==> key in KeysOf(first))
    requires forall k | k in retried :: k in KeysOf(plan) && !Finished(plan, locks, k)
    requires Finished(first, locks, key) ==> OfKey(plan, key) == OfKey(first, key)
    ensures var after := Merge(plan, retried, passes[i].refreshed);
            && FromOneAnswer(after, first, passes, key) && (key in KeysOf(after) <==> key in KeysOf(first))
            && (Finished(first, locks, key) ==> OfKey(after, key) == OfKey(first, key))
  {
    MergedSource(plan, retried, passes[i].refreshed, key);
    var after := Merge(plan, retried, passes[i].refreshed);
    OfKeyOccurs(after, key);
    OfKeyOccurs(plan, key);
    OfKeyOccurs(first, key);
  }

  lemma {:induction false} LongerPasses(plan: seq<Entry>, first: seq<Entry>, passes: seq<Pass>, n: nat, key: Key)
    requires n <= |passes| && FromOneAnswer(plan, first, passes[..n], key)
    ensures FromOneAnswer(plan, first, passes, key)
  {
    if OfKey(plan, key) != OfKey(first, key) {
      var i :| 0 <= i < n && OfKey(plan, key) == OfKey(passes[..n][i].refreshed, key) && OfKey(passes[..n][i].refreshed, key) != [];
      assert passes[i] == passes[..n][i];
    }
  }

  /** Whatever the planner answers and however often it is asked: the plan covers the same sources throughout, a source with
      nothing left to try keeps exactly its entries, and every other source has all its entries from the first plan or all
      from one answer. */
  lemma {:induction false} RecoveryKeepsSources(first: seq<Entry>, locks: Locks, until: real, passes: seq<Pass>,
        key: Key)
    ensures var plan := AfterPasses(first, locks, until, passes).plan;
            && (key in KeysOf(plan) <==> key in KeysOf(first))
            && FromOneAnswer(plan, first, passes, key)
            && (Finished(first, locks, key) ==> OfKey(plan, key) == OfKey(first, key))
    decreases |passes|
  {
    if passes != [] {
      var n := |passes| - 1;
      RecoveryKeepsSources(first, locks, until, passes[..n], key);
      var r := AfterPasses(first, locks, until, passes[..n]);
      LongerPasses(r.plan, first, passes, n, key);
      var due := DueTimes(r.plan, locks, r.attempts, passes[n].wall, passes[n].now);
      forall k | k in due ensures k in KeysOf(r.plan) && !Finished(r.plan, locks, k) {
        DueIsFirstWait(r.plan, locks, r.attempts, passes[n].wall, passes[n].now, k);
      }
      PassKeeps(r.plan, first, locks, passes, n, Retried(due, passes[n].wakes), key);
    }
  }

  method Soonest(due: map<Key, real>) returns (at: real)
    requires due.Keys != {}
    ensures exists key | key in due :: due[key] == at
    ensures forall key | key in due :: at <= due[key]
  {
    var least :| least in due.Keys;
    var rest := due.Keys - {least};
    while rest != {}
      invariant rest <= due.Keys && least in due
      invariant forall key | key in due && key !in rest :: due[least] <= due[key]
      decreases rest
    {
      var key :| key in rest;
      if due[key] < due[least] { least := key; }
      rest := rest - {key};
    }
    at := due[least];
  }

  /** The retry loop, one pass after the other. */
  method Recover(first: seq<Entry>, locks: Locks, until: real, passes: seq<Pass>) returns (plan: seq<Entry>,
        attempts: nat)
    ensures var r := AfterPasses(first, locks, until, passes); plan == r.plan && attempts == r.attempts
  {
    plan, attempts := first, 0;
    for i := 0 to |passes|
      invariant AfterPasses(first, locks, until, passes[..i]) == Recovery(plan, attempts, false)
    {
      var pass := passes[i];
      assert passes[..i + 1][..i] == passes[..i];
      var due := DueTimes(plan, locks, attempts, pass.wall, pass.now);
      if pass.now >= until || due.Keys == {} {
        StoppedStays(first, locks, until, passes, i + 1);
        return;
      }
      var end := Soonest(due);
      if end - pass.now >= until - pass.now {
        StoppedStays(first, locks, until, passes, i + 1);
        return;
      }
      var woken := MaxReal(pass.wakes, end);
      var retried := set key | key in due && due[key] <= woken;
      assert retried == Retried(due, pass.wakes);
      plan, attempts := Merge(plan, retried, pass.refreshed), attempts + 1;
    }
    assert passes[..|passes|] == passes;
  }

  lemma {:induction false} StoppedStays(first: seq<Entry>, locks: Locks, until: real, passes: seq<Pass>, n: nat)
    requires n <= |passes| && AfterPasses(first, locks, until, passes[..n]).stopped
    ensures AfterPasses(first, locks, until, passes) == AfterPasses(first, locks, until, passes[..n])
    decreases |passes|
  {
    if n == |passes| {
      assert passes[..n] == passes;
    } else {
      assert passes[..|passes| - 1][..n] == passes[..n];
      StoppedStays(first, locks, until, passes[..|passes| - 1], n);
    }
  }
}
