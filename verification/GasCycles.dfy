/** Mutually blocked gas owners: the strongly connected components of the dependency graph, found with a worklist. */
module GasCycles {
  import opened Prelude
  import opened Lexicographic

  type Graph = map<string, set<string>>

  /** Every dependency is an owner itself, and no owner depends on itself. */
  ghost predicate WellFormed(graph: Graph) {
    forall key | key in graph :: graph[key] <= graph.Keys && key !in graph[key]
  }

  datatype Entry = Entry(key: string, wallet: string, chainId: int, ready: bool, spendsNative: bool)

  datatype PositionState = PositionState(key: string, broadcast: bool, completed: bool, manualReview: bool)

  /** The owners: ready entries that spend native balance and whose position is still unsigned. */
  function Owners(entries: seq<Entry>, positions: seq<PositionState>): map<string, Entry> {
    if entries == [] then map[]
    else
      var n := |entries| - 1;
      var owners := Owners(entries[..n], positions);
      var e := entries[n];
      if e.ready && e.spendsNative
         && exists i | 0 <= i < |positions| ::
              positions[i].key == e.key && !positions[i].broadcast && !positions[i].completed && !positions[i].manualReview
      then owners[e.key := e] else owners
  }

  /** `destinationGas` says which owners wait for gas on the network of a wallet and chain. */
  function DependencyGraph(owners: map<string, Entry>, destinationGas: map<(string, int), set<string>>): (graph: Graph)
    ensures WellFormed(graph) && graph.Keys == owners.Keys
  {
    map key | key in owners ::
      var at := (Lower(owners[key].wallet), owners[key].chainId);
      ((if at in destinationGas then destinationGas[at] else {}) * owners.Keys) - {key}
  }

  // ---------------------------------------------------------------- reachability

  /** A walk along dependencies. */
  ghost predicate Walk(graph: Graph, path: seq<string>) {
    && path != []
    && (forall i | 0 <= i < |path| :: path[i] in graph)
    && (forall i | 0 <= i < |path| - 1 :: path[i + 1] in graph[path[i]])
  }

  ghost predicate Reaches(graph: Graph, a: string, b: string) {
    exists path :: Walk(graph, path) && path[0] == a && path[|path| - 1] == b
  }

  ghost predicate Closed(graph: Graph, s: set<string>) {
    forall key | key in s && key in graph :: graph[key] <= s
  }

  /** A closed set keeps every walk that starts in it. */
  lemma {:induction false} WalkStaysInside(graph: Graph, s: set<string>, path: seq<string>)
    requires Walk(graph, path) && Closed(graph, s) && path[0] in s
    ensures path[|path| - 1] in s
  {
    if |path| > 1 {
      assert path[1] in graph[path[0]];
      WalkStaysInside(graph, s, path[1..]);
    }
  }

  lemma {:induction false} ReachesSelf(graph: Graph, a: string)
    requires a in graph
    ensures Reaches(graph, a, a)
  {
    assert Walk(graph, [a]);
  }

  lemma {:induction false} ReachesNext(graph: Graph, a: string, b: string, c: string)
    requires Reaches(graph, a, b) && b in graph && c in graph[b] && c in graph
    ensures Reaches(graph, a, c)
  {
    var path :| Walk(graph, path) && path[0] == a && path[|path| - 1] == b;
    assert Walk(graph, path + [c]);
  }

  lemma {:induction false} ReachesTransitive(graph: Graph, a: string, b: string, c: string)
    requires Reaches(graph, a, b) && Reaches(graph, b, c)
    ensures Reaches(graph, a, c)
  {
    var p :| Walk(graph, p) && p[0] == a && p[|p| - 1] == b;
    var q :| Walk(graph, q) && q[0] == b && q[|q| - 1] == c;
    var path := p + q[1..];
    forall i | 0 <= i < |path| - 1 ensures path[i + 1] in graph[path[i]] {
      if i >= |p| - 1 {
        assert path[i] == q[i - |p| + 1] && path[i + 1] == q[i - |p| + 2];
      }
    }
    assert Walk(graph, path) && path[0] == a && path[|path| - 1] == c;
  }

  /** The keys of a set in any order, as a worklist is extended with them. */
  method Listed(s: set<string>) returns (list: seq<string>)
    ensures forall x :: x in list <==> x in s
  {
    list := [];
    var rest := s;
    while rest != {}
      invariant rest <= s
      invariant forall x :: x in list <==> x in s - rest
      decreases rest
    {
      var x :| x in rest;
      rest, list := rest - {x}, list + [x];
    }
  }

  /** The worklist computes exactly the owners that a walk reaches. */
  method Reachable(graph: Graph, start: string) returns (found: set<string>)
    requires WellFormed(graph) && start in graph
    ensures found <= graph.Keys
    ensures forall key :: key in found <==> Reaches(graph, start, key)
  {
    found := {};
    var pending := [start];
    ReachesSelf(graph, start);
    while pending != []
      invariant found <= graph.Keys
      invariant forall key | key in pending :: key in graph && Reaches(graph, start, key)
      invariant forall key | key in found :: Reaches(graph, start, key)
      invariant start in found || start in pending
      invariant forall key, next | key in found && next in graph[key] :: next in found || next in pending
      decreases graph.Keys - found, |pending|
    {
      var n := |pending| - 1;
      var current := pending[n];
      ghost var before := pending;
      pending := pending[..n];
      assert before == pending + [current];
      if current !in found {
        found := found + {current};
        var more := Listed(graph[current] - found);
        forall key | key in more ensures key in graph && Reaches(graph, start, key) {
          ReachesNext(graph, start, current, key);
        }
        pending := pending + more;
      }
    }
    forall key | Reaches(graph, start, key) ensures key in found {
      var path :| Walk(graph, path) && path[0] == start && path[|path| - 1] == key;
      WalkStaysInside(graph, found, path);
    }
  }

  // ---------------------------------------------------------------- components

  /** Everything that reaches `key` and is reached from it. */
  ghost function Component(graph: Graph, key: string): set<string> {
    set other | other in graph && Reaches(graph, key, other) && Reaches(graph, other, key)
  }

  lemma {:induction false} ComponentsPartition(graph: Graph, a: string, b: string)
    requires a in graph && b in Component(graph, a)
    ensures Component(graph, b) == Component(graph, a)
  {
    forall x | x in Component(graph, a) ensures x in Component(graph, b) {
      ReachesTransitive(graph, b, a, x);
      ReachesTransitive(graph, x, a, b);
    }
    forall x | x in Component(graph, b) ensures x in Component(graph, a) {
      ReachesTransitive(graph, a, b, x);
      ReachesTransitive(graph, x, b, a);
    }
  }

  datatype Cycle = Cycle(members: set<string>, dependsOn: map<string, set<string>>)

  function CycleOf(graph: Graph, component: set<string>): Cycle
    requires component <= graph.Keys
  {
    Cycle(component, map key | key in component :: graph[key] * component)
  }

  /** A key on a cycle: a walk of at least one dependency leads back to it. */
  ghost predicate OnCycle(graph: Graph, key: string) {
    exists path :: Walk(graph, path) && |path| > 1 && path[0] == key && path[|path| - 1] == key
  }

  /** An owner lies on a dependency cycle exactly when its component has another member. */
  lemma {:induction false} ComponentIsCycle(graph: Graph, key: string)
    requires WellFormed(graph) && key in graph
    ensures OnCycle(graph, key) <==> |Component(graph, key)| > 1
  {
    var component := Component(graph, key);
    ReachesSelf(graph, key);
    assert key in component;
    if OnCycle(graph, key) {
      var path :| Walk(graph, path) && |path| > 1 && path[0] == key && path[|path| - 1] == key;
      assert path[1] in graph[path[0]];
      assert Walk(graph, path[..2]) && Walk(graph, path[1..]);
      assert path[..2][|path[..2]| - 1] == path[1];
      assert path[1..][|path[1..]| - 1] == key;
      assert path[1] in component;
      TwoMembers(component, key, path[1]);
    }
    if |component| > 1 {
      var other := AnotherMember(component, key);
      var p :| Walk(graph, p) && p[0] == key && p[|p| - 1] == other;
      var q :| Walk(graph, q) && q[0] == other && q[|q| - 1] == key;
      var path := p + q[1..];
      forall i | 0 <= i < |path| - 1 ensures path[i + 1] in graph[path[i]] {
        if i >= |p| - 1 {
          assert path[i] == q[i - |p| + 1] && path[i + 1] == q[i - |p| + 2];
        }
      }
      assert Walk(graph, path) && |path| > 1 && path[0] == key && path[|path| - 1] == key;
    }
  }

  lemma {:induction false} TwoMembers(s: set<string>, a: string, b: string)
    requires a in s && b in s && a != b
    ensures |s| > 1
  {
    assert {a, b} <= s;
    Subset({a, b}, s);
  }

  lemma {:induction false} Subset(a: set<string>, b: set<string>)
    requires a <= b
    ensures |a| <= |b|
  {
    if a != {} {
      var x :| x in a;
      Subset(a - {x}, b - {x});
    }
  }

  lemma {:induction false} AnotherMember(s: set<string>, a: string) returns (b: string)
    requires a in s && |s| > 1
    ensures b in s && b != a
  {
    assert |s - {a}| == |s| - 1;
    b :| b in s - {a};
  }

  /** The least key of a non-empty set. */
  method Least(s: set<string>) returns (least: string)
    requires s != {}
    ensures least in s
    ensures forall x | x in s :: CompareText(least, x) <= 0
  {
    least :| least in s;
    var rest := s - {least};
    TextTotal(least, least);
    while rest != {}
      invariant rest <= s && least in s
      invariant forall x | x in s && x !in rest :: CompareText(least, x) <= 0
      decreases rest
    {
      var x :| x in rest;
      TextTotal(x, least);
      if CompareText(x, least) < 0 {
        forall y | y in s && y !in rest ensures CompareText(x, y) <= 0 {
          TextTransitive(x, least, y);
        }
        TextTotal(x, x);
        least := x;
      }
      rest := rest - {x};
    }
  }

  /** The reachable owners of every owner. */
  method AllReachable(graph: Graph) returns (reach: map<string, set<string>>)
    requires WellFormed(graph)
    ensures reach.Keys == graph.Keys
    ensures forall key | key in reach :: forall x :: x in reach[key] <==> Reaches(graph, key, x)
    ensures forall key | key in reach :: reach[key] <= graph.Keys
  {
    reach := map[];
    var todo := graph.Keys;
    while todo != {}
      invariant todo <= graph.Keys && reach.Keys == graph.Keys - todo
      invariant forall key | key in reach :: forall x :: x in reach[key] <==> Reaches(graph, key, x)
      invariant forall key | key in reach :: reach[key] <= graph.Keys
      decreases todo
    {
      var key :| key in todo;
      var found := Reachable(graph, key);
      reach, todo := reach[key := found], todo - {key};
    }
  }

  /** A cycle as it should be reported: a whole component of several owners, with the dependencies inside it. */
  ghost predicate IsCycle(graph: Graph, c: Cycle) {
    && c.members <= graph.Keys && |c.members| > 1
    && c == CycleOf(graph, c.members)
    && forall key | key in c.members :: c.members == Component(graph, key)
  }

  ghost predicate Reported(cycles: seq<Cycle>, component: set<string>) {
    exists i | 0 <= i < |cycles| :: cycles[i].members == component
  }

  /** Components are either still to be looked at or done; the done ones of several owners are reported. */
  ghost predicate Progress(graph: Graph, cycles: seq<Cycle>, remaining: set<string>) {
    && remaining <= graph.Keys
    && (forall key | key in remaining :: Component(graph, key) <= remaining)
    && (forall i | 0 <= i < |cycles| :: IsCycle(graph, cycles[i]) && cycles[i].members !! remaining)
    && (forall i, j | 0 <= i < j < |cycles| :: cycles[i].members !! cycles[j].members)
    && (forall key | key in graph && key !in remaining && |Component(graph, key)| > 1 ::
          Reported(cycles, Component(graph, key)))
  }

  lemma {:induction false} ComponentIsShared(graph: Graph, start: string)
    requires start in graph
    ensures forall key | key in Component(graph, start) :: Component(graph, key) == Component(graph, start)
  {
    forall key | key in Component(graph, start) ensures Component(graph, key) == Component(graph, start) {
      ComponentsPartition(graph, start, key);
    }
  }

  /** Taking one component away leaves whole components behind. */
  lemma {:induction false} OthersStayWhole(graph: Graph, start: string, key: string)
    requires start in graph && key in graph && key !in Component(graph, start)
    ensures Component(graph, key) !! Component(graph, start)
  {
    forall x | x in Component(graph, key) && x in Component(graph, start) ensures false {
      ComponentsPartition(graph, key, x);
      ComponentsPartition(graph, start, x);
      ReachesSelf(graph, key);
    }
  }

  lemma {:induction false} ReportedStays(cycles: seq<Cycle>, more: seq<Cycle>, component: set<string>)
    requires Reported(cycles, component)
    ensures Reported(cycles + more, component)
  {
    var i :| 0 <= i < |cycles| && cycles[i].members == component;
    assert (cycles + more)[i].members == component;
  }

  lemma {:induction false} ComponentDone(graph: Graph, cycles: seq<Cycle>, remaining: set<string>, start: string,
        after: seq<Cycle>)
    requires Progress(graph, cycles, remaining) && start in remaining
    requires var component := Component(graph, start);
             after == cycles + if |component| > 1 then [CycleOf(graph, component)] else []
    ensures Progress(graph, after, remaining - Component(graph, start))
  {
    var component := Component(graph, start);
    var left := remaining - component;
    forall key | key in left ensures Component(graph, key) <= left {
      OthersStayWhole(graph, start, key);
    }
    ComponentIsShared(graph, start);
    forall key | key in graph && key !in left && |Component(graph, key)| > 1 ensures Reported(after, Component(graph, key)) {
      if key in component {
        assert after[|cycles|].members == Component(graph, key);
      } else {
        ReportedStays(cycles, after[|cycles|..], Component(graph, key));
        assert after == cycles + after[|cycles|..];
      }
    }
  }

  /** The reported cycles are exactly the components with more than one owner, each reported once: they are pairwise
      disjoint, and an owner is in one of them exactly when some walk of dependencies leads from it back to it. */
  method DependencyCycles(graph: Graph) returns (cycles: seq<Cycle>)
    requires WellFormed(graph)
    ensures forall i | 0 <= i < |cycles| :: IsCycle(graph, cycles[i])
    ensures forall i, j | 0 <= i < j < |cycles| :: cycles[i].members !! cycles[j].members
    ensures forall key | key in graph ::
              OnCycle(graph, key) <==> exists i | 0 <= i < |cycles| :: key in cycles[i].members
  {
    var reach := AllReachable(graph);
    cycles := [];
    var remaining := graph.Keys;
    while remaining != {}
      invariant Progress(graph, cycles, remaining)
      decreases remaining
    {
      var start := Least(remaining);
      var component := set key | key in reach[start] && start in reach[key];
      assert component == Component(graph, start);
      ReachesSelf(graph, start);
      assert start in component;
      ghost var before := cycles;
      if |component| > 1 {
        cycles := cycles + [CycleOf(graph, component)];
      }
      assert cycles == before + if |component| > 1 then [CycleOf(graph, component)] else [];
      ComponentDone(graph, before, remaining, start, cycles);
      remaining := remaining - component;
    }
    forall key | key in graph ensures OnCycle(graph, key) <==> exists i | 0 <= i < |cycles| :: key in cycles[i].members {
      ComponentIsCycle(graph, key);
      ReachesSelf(graph, key);
      assert key in Component(graph, key);
    }
  }
}
