/** Quoted route trees: which costs are charged, and what nested validation says about the executable leaves. */
module RouteTree {
  import opened Prelude

  datatype Asset = Asset(chainId: int, contractAddress: string, decimals: int)

  datatype Cost = Cost(token: Asset, amount: nat)

  /** The endpoints of a step, when its action and estimate can be read; an output may be unstated. */
  datatype Facts = Facts(source: Asset, destination: Asset, input: nat, output: Option<nat>)

  /** One of the three places a step can keep its nested steps in. */
  datatype Group = Missing | Null | NotAList | Listed(items: seq<Node>)

  /** A step as received.  `costs` is absent when its estimate or cost list is malformed, `facts` when its endpoints
      are; `named` says that its type and provider are stated. */
  datatype Node =
    | NotADict
    | Step(id: string, facts: Option<Facts>, recipient: Option<string>, named: bool, costs: Option<seq<Cost>>,
           included: Group, steps: Group, substeps: Group)

  function Items(g: Group): seq<Node> {
    if g.Listed? then g.items else []
  }

  /** The children of a step: all in one of the groups. */
  function Children(n: Node): (r: seq<Node>)
    requires n.Step?
    ensures r != [] ==> || (n.included.Listed? && r == n.included.items)
                        || (n.steps.Listed? && r == n.steps.items)
                        || (n.substeps.Listed? && r == n.substeps.items)
  {
    if Items(n.included) != [] then Items(n.included)
    else if Items(n.steps) != [] then Items(n.steps)
    else Items(n.substeps)
  }

  predicate OneGroup(n: Node)
    requires n.Step?
  {
    var filled := (if Items(n.included) != [] then 1 else 0) + (if Items(n.steps) != [] then 1 else 0)
                  + (if Items(n.substeps) != [] then 1 else 0);
    filled <= 1
  }

  // ---------------------------------------------------------------- costs

  /** A step whose costs could be read. */
  datatype Tree = Tree(id: string, own: seq<Cost>, children: seq<Tree>)

  function Parse(n: Node): Option<Tree>
    decreases n, 0
  {
    if n.NotADict? || n.costs.None? || n.included in {Null, NotAList} || n.steps in {Null, NotAList}
       || n.substeps in {Null, NotAList} || !OneGroup(n)
    then None
    else
      var children := if Children(n) == [] then Some([]) else ParseAll(Children(n));
      if children.None? then None else Some(Tree(n.id, n.costs.value, children.value))
  }

  function ParseAll(ns: seq<Node>): Option<seq<Tree>>
    decreases ns, 1
  {
    if ns == [] then Some([])
    else
      var first, rest := Parse(ns[0]), ParseAll(ns[1..]);
      if first.None? || rest.None? then None else Some([first.value] + rest.value)
  }

  function Total(costs: seq<Cost>, token: Asset): nat {
    if costs == [] then 0 else (if costs[0].token == token then costs[0].amount else 0) + Total(costs[1..], token)
  }

  /** Every token of the children is covered by the parent's total for it. */
  predicate Covers(parent: seq<Cost>, children: seq<Cost>) {
    forall i | 0 <= i < |children| :: Total(parent, children[i].token) >= Total(children, children[i].token)
  }

  /** What one step adds to the charged costs and to the omissions, given the same for its children. */
  function StepCosts(id: string, own: seq<Cost>, nested: (seq<Cost>, seq<string>)): (seq<Cost>, seq<string>) {
    (if own != [] then own else nested.0,
     if own != [] && !Covers(own, nested.0) then nested.1 + [id] else nested.1)
  }

  /** The charged costs and the steps whose aggregate omits nested costs. */
  function Hierarchical(ts: seq<Tree>): (seq<Cost>, seq<string>) {
    if ts == [] then ([], [])
    else
      var first := StepCosts(ts[0].id, ts[0].own, Hierarchical(ts[0].children));
      var rest := Hierarchical(ts[1..]);
      (first.0 + rest.0, first.1 + rest.1)
  }

  /** The route's own aggregate stands above its steps in the same way. */
  function RouteCosts(root: seq<Cost>, ts: seq<Tree>): (seq<Cost>, seq<string>) {
    Hierarchical([Tree("route", root, ts)])
  }

  /** A way of charging each branch at one level: at the step itself, or somewhere below it. */
  datatype Cut = Here | Below(cuts: seq<Cut>)

  predicate Cuts(ts: seq<Tree>, cs: seq<Cut>) {
    |ts| == |cs| && (ts != [] ==>
      (cs[0].Below? ==> Cuts(ts[0].children, cs[0].cuts)) && Cuts(ts[1..], cs[1..]))
  }

  function Charged(ts: seq<Tree>, cs: seq<Cut>): seq<Cost>
    requires Cuts(ts, cs)
  {
    if ts == [] then []
    else (if cs[0].Here? then ts[0].own else Charged(ts[0].children, cs[0].cuts)) + Charged(ts[1..], cs[1..])
  }

  lemma {:induction false} TotalAppend(a: seq<Cost>, b: seq<Cost>, token: Asset)
    ensures Total(a + b, token) == Total(a, token) + Total(b, token)
  {
    if a == [] {
      assert a + b == b;
    } else {
      assert (a + b)[1..] == a[1..] + b;
      TotalAppend(a[1..], b, token);
    }
  }

  lemma {:induction false} CoversEveryToken(parent: seq<Cost>, children: seq<Cost>, token: Asset)
    requires Covers(parent, children)
    ensures Total(parent, token) >= Total(children, token)
  {
    if forall i | 0 <= i < |children| :: children[i].token != token {
      AbsentToken(children, token);
    }
  }

  lemma {:induction false} AbsentToken(costs: seq<Cost>, token: Asset)
    requires forall i | 0 <= i < |costs| :: costs[i].token != token
    ensures Total(costs, token) == 0
  {
    if costs != [] {
      AbsentToken(costs[1..], token);
    }
  }

  /** With no omission reported, the charged costs are at least those of every cut, token by token. */
  lemma {:induction false} ChargesDominateEveryCut(ts: seq<Tree>, cs: seq<Cut>, token: Asset)
    requires Cuts(ts, cs) && Hierarchical(ts).1 == []
    ensures Total(Charged(ts, cs), token) <= Total(Hierarchical(ts).0, token)
  {
    if ts != [] {
      var t := ts[0];
      var nested, rest := Hierarchical(t.children).0, Hierarchical(ts[1..]).0;
      var upper := if cs[0].Here? then t.own else Charged(t.children, cs[0].cuts);
      ChargesDominateEveryCut(ts[1..], cs[1..], token);
      if cs[0].Below? {
        ChargesDominateEveryCut(t.children, cs[0].cuts, token);
      }
      if t.own != [] {
        CoversEveryToken(t.own, nested, token);
      }
      TotalAppend(upper, Charged(ts[1..], cs[1..]), token);
      TotalAppend(if t.own != [] then t.own else nested, rest, token);
    }
  }

  /** The cut that the program charges. */
  function ChosenCut(ts: seq<Tree>): seq<Cut> {
    if ts == [] then [] else [if ts[0].own != [] then Here else Below(ChosenCut(ts[0].children))] + ChosenCut(ts[1..])
  }

  /** The charged costs are themselves a cut: no branch is charged at two levels. */
  lemma {:induction false} ChargesAreACut(ts: seq<Tree>)
    ensures Cuts(ts, ChosenCut(ts)) && Charged(ts, ChosenCut(ts)) == Hierarchical(ts).0
  {
    if ts != [] {
      ChargesAreACut(ts[0].children);
      ChargesAreACut(ts[1..]);
      assert ChosenCut(ts)[1..] == ChosenCut(ts[1..]);
    }
  }

  /** Own costs are at least every way of charging the nested steps instead. */
  ghost predicate Dominates(own: seq<Cost>, ts: seq<Tree>) {
    forall cs, token | Cuts(ts, cs) :: Total(Charged(ts, cs), token) <= Total(own, token)
  }

  /** At every step, stated aggregates dominate what lies below them. */
  ghost predicate Honest(ts: seq<Tree>) {
    ts == [] || ((ts[0].own != [] ==> Dominates(ts[0].own, ts[0].children)) && Honest(ts[0].children) && Honest(ts[1..]))
  }

  /** An omission is reported exactly when some step's own costs fail to dominate a cut of its nested steps. */
  lemma {:induction false} ReportedIffDishonest(ts: seq<Tree>)
    ensures Hierarchical(ts).1 == [] <==> Honest(ts)
  {
    if ts != [] {
      var t := ts[0];
      var nested := Hierarchical(t.children).0;
      ReportedIffDishonest(t.children);
      ReportedIffDishonest(ts[1..]);
      ChargesAreACut(t.children);
      if Hierarchical(t.children).1 == [] && Covers(t.own, nested) {
        forall cs, token | Cuts(t.children, cs) ensures Total(Charged(t.children, cs), token) <= Total(t.own, token) {
          ChargesDominateEveryCut(t.children, cs, token);
          CoversEveryToken(t.own, nested, token);
        }
      }
    }
  }

  /** The totals per token, accumulated one cost after the other. */
  method Totals(costs: seq<Cost>) returns (totals: map<Asset, nat>)
    ensures forall token :: token in totals <==> exists i | 0 <= i < |costs| :: costs[i].token == token
    ensures forall token | token in totals :: totals[token] == Total(costs, token)
  {
    totals := map[];
    for i := 0 to |costs|
      invariant forall token :: token in totals <==> exists j | 0 <= j < i :: costs[j].token == token
      invariant forall token | token in totals :: totals[token] == Total(costs[..i], token)
      invariant forall token | token !in totals :: Total(costs[..i], token) == 0
    {
      var cost := costs[i];
      assert costs[..i + 1] == costs[..i] + [cost];
      forall token ensures Total(costs[..i + 1], token) == Total(costs[..i], token) + Total([cost], token) {
        TotalAppend(costs[..i], [cost], token);
      }
      assert forall token :: Total([cost], token) == if cost.token == token then cost.amount else 0;
      totals := totals[cost.token := (if cost.token in totals then totals[cost.token] else 0) + cost.amount];
    }
    assert costs[..|costs|] == costs;
  }

  method CostsCover(parent: seq<Cost>, children: seq<Cost>) returns (ok: bool)
    ensures ok <==> Covers(parent, children)
  {
    var parentTotals := Totals(parent);
    var childTotals := Totals(children);
    forall token | token !in parentTotals ensures Total(parent, token) == 0 {
      AbsentToken(parent, token);
    }
    ok := forall token | token in childTotals ::
            (if token in parentTotals then parentTotals[token] else 0) >= childTotals[token];
    assert forall i | 0 <= i < |children| :: children[i].token in childTotals;
  }

  /** What the steps of a list cost, or None when one of them is malformed. */
  function Costs(ns: seq<Node>): Option<(seq<Cost>, seq<string>)> {
    var ts := ParseAll(ns);
    if ts.None? then None else Some(Hierarchical(ts.value))
  }

  function OneStep(n: Node): Option<(seq<Cost>, seq<string>)> {
    var t := Parse(n);
    if t.None? then None else Some(StepCosts(t.value.id, t.value.own, Hierarchical(t.value.children)))
  }

  function Prepend(costs: seq<Cost>, reasons: seq<string>, rest: Option<(seq<Cost>,
        seq<string>)>): Option<(seq<Cost>, seq<string>)> {
    if rest.None? then None else Some((costs + rest.value.0, reasons + rest.value.1))
  }

  lemma {:induction false} CostsFromFirst(ns: seq<Node>)
    requires ns != []
    ensures Costs(ns) == if OneStep(ns[0]).None? then None
                         else Prepend(OneStep(ns[0]).value.0, OneStep(ns[0]).value.1, Costs(ns[1..]))
  {
    if ParseAll(ns).Some? {
      assert ParseAll(ns).value[1..] == ParseAll(ns[1..]).value;
    }
  }

  lemma {:induction false} PrependTwice(a: seq<Cost>, b: seq<Cost>, x: seq<string>, y: seq<string>,
                                        rest: Option<(seq<Cost>, seq<string>)>)
    ensures Prepend(a, x, Prepend(b, y, rest)) == Prepend(a + b, x + y, rest)
  {
    if rest.Some? {
      assert a + (b + rest.value.0) == a + b + rest.value.0;
      assert x + (y + rest.value.1) == x + y + rest.value.1;
    }
  }

  /** The accumulating form: each stated aggregate is used once, and its children only when there is none. */
  method HierarchicalCosts(ns: seq<Node>) returns (r: Option<(seq<Cost>, seq<string>)>)
    ensures r == Costs(ns)
    decreases ns, 1
  {
    var costs: seq<Cost>, reasons: seq<string> := [], [];
    var i := 0;
    assert ns[0..] == ns;
    assert forall c: (seq<Cost>, seq<string>) :: [] + c.0 == c.0 && [] + c.1 == c.1;
    while i < |ns|
      invariant 0 <= i <= |ns|
      invariant Costs(ns) == Prepend(costs, reasons, Costs(ns[i..]))
    {
      assert ns[i..][0] == ns[i] && ns[i..][1..] == ns[i + 1..];
      CostsFromFirst(ns[i..]);
      var step := OneStepCosts(ns[i]);
      if step.None? {
        return None;
      }
      PrependTwice(costs, step.value.0, reasons, step.value.1, Costs(ns[i + 1..]));
      costs, reasons := costs + step.value.0, reasons + step.value.1;
      i := i + 1;
    }
    assert ns[i..] == [] && costs + [] == costs && reasons + [] == reasons;
    return Some((costs, reasons));
  }

  method OneStepCosts(n: Node) returns (r: Option<(seq<Cost>, seq<string>)>)
    ensures r == OneStep(n)
    decreases n, 0
  {
    if n.NotADict? || n.costs.None? || n.included in {Null, NotAList} || n.steps in {Null, NotAList}
       || n.substeps in {Null, NotAList} || !OneGroup(n) {
      return None;
    }
    var nested := Some(([], []));
    if Children(n) != [] {
      nested := HierarchicalCosts(Children(n));
    }
    if nested.None? {
      return None;
    }
    var own, reasons := n.costs.value, nested.value.1;
    var covered := CostsCover(own, nested.value.0);
    if own != [] && !covered {
      reasons := reasons + [n.id];
    }
    return Some((if own != [] then own else nested.value.0, reasons));
  }

  // ---------------------------------------------------------------- continuity

  predicate FactsRead(ns: seq<Node>) {
    forall i | 0 <= i < |ns| :: ns[i].Step? && ns[i].facts.Some?
  }

  /** Each step hands its asset and its stated output to the next. */
  predicate Linked(ns: seq<Node>)
    requires FactsRead(ns)
  {
    forall i | 0 <= i < |ns| - 1 ::
      && ns[i].facts.value.destination == ns[i + 1].facts.value.source
      && ns[i].facts.value.output == Some(ns[i + 1].facts.value.input)
  }

  predicate ValidParent(n: Node)
    decreases n, 0
  {
    && n.Step? && n.facts.Some?
    && n.included != NotAList && n.steps != NotAList && n.substeps != NotAList && OneGroup(n)
    && var children := Children(n);
       var f := n.facts.value;
       && FactsRead(children)
       && (children != [] ==>
             var first, last := children[0].facts.value, children[|children| - 1].facts.value;
             && first.source == f.source && first.input == f.input
             && Linked(children)
             && last.destination == f.destination
             && (f.output.Some? ==> last.output == f.output))
       && (children != [] ==> ValidTree(children))
  }

  predicate ValidTree(ns: seq<Node>)
    decreases ns, 1
  {
    ns == [] || (ValidParent(ns[0]) && ValidTree(ns[1..]))
  }

  /** The executable leaves under a step, in order. */
  function Leaves(n: Node): seq<Facts>
    requires ValidParent(n)
    decreases n, 0
  {
    if Children(n) == [] then [n.facts.value] else AllLeaves(Children(n))
  }

  function AllLeaves(ns: seq<Node>): seq<Facts>
    requires ValidTree(ns)
    decreases ns, 1
  {
    if ns == [] then [] else Leaves(ns[0]) + AllLeaves(ns[1..])
  }

  ghost predicate Chain(fs: seq<Facts>) {
    forall i | 0 <= i < |fs| - 1 :: fs[i].destination == fs[i + 1].source && fs[i].output == Some(fs[i + 1].input)
  }

  /** The leaves carry one asset flow from `from` to `to`. */
  ghost predicate Flow(fs: seq<Facts>, from: Facts, to: Facts) {
    && fs != [] && Chain(fs)
    && fs[0].source == from.source && fs[0].input == from.input
    && fs[|fs| - 1].destination == to.destination
    && (to.output.Some? ==> fs[|fs| - 1].output == to.output)
  }

  lemma {:induction false} LeavesFlow(n: Node)
    requires ValidParent(n)
    ensures Flow(Leaves(n), n.facts.value, n.facts.value)
    decreases n, 0
  {
    var children := Children(n);
    if children != [] {
      AllLeavesFlow(children);
    }
  }

  lemma {:induction false} AllLeavesFlow(ns: seq<Node>)
    requires ns != [] && ValidTree(ns) && FactsRead(ns) && Linked(ns)
    ensures Flow(AllLeaves(ns), ns[0].facts.value, ns[|ns| - 1].facts.value)
    decreases ns, 1
  {
    LeavesFlow(ns[0]);
    if |ns| == 1 {
      assert AllLeaves(ns) == Leaves(ns[0]);
    } else {
      var rest := ns[1..];
      assert forall i | 0 <= i < |rest| :: rest[i] == ns[i + 1];
      AllLeavesFlow(rest);
      FlowJoin(Leaves(ns[0]), AllLeaves(rest), ns[0].facts.value, ns[0].facts.value, ns[1].facts.value,
               ns[|ns| - 1].facts.value);
    }
  }

  lemma {:induction false} FlowJoin(a: seq<Facts>, b: seq<Facts>, a0: Facts, a1: Facts, b0: Facts, b1: Facts)
    requires Flow(a, a0, a1) && Flow(b, b0, b1)
    requires a1.destination == b0.source && a1.output == Some(b0.input)
    ensures Flow(a + b, a0, b1)
  {
    var fs := a + b;
    forall i | 0 <= i < |fs| - 1 ensures fs[i].destination == fs[i + 1].source && fs[i].output == Some(fs[i + 1].input) {
      if i >= |a| {
        assert fs[i] == b[i - |a|] && fs[i + 1] == b[i - |a| + 1];
      }
    }
  }

  // ---------------------------------------------------------------- the whole route

  datatype Evidence = Evidence(source: Asset, destination: Asset, input: int, output: nat, finalRecipient: Option<string>)

  datatype Route = Route(id: string, fromAmount: int, toAmount: nat, steps: seq<Node>, evidence: Evidence)

  /** Nothing below the step failed to normalise. */
  predicate Normal(n: Node)
    decreases n, 0
  {
    && n.Step? && n.facts.Some? && n.named
    && n.included != NotAList && n.steps != NotAList && n.substeps != NotAList
    && (n.included.Listed? ==> AllNormal(n.included.items))
    && (n.steps.Listed? ==> AllNormal(n.steps.items))
    && (n.substeps.Listed? ==> AllNormal(n.substeps.items))
  }

  predicate AllNormal(ns: seq<Node>)
    decreases ns, 1
  {
    ns == [] || (Normal(ns[0]) && AllNormal(ns[1..]))
  }

  /** The evidence is what parsing the payload again yields. */
  predicate Intact(r: Route) {
    && r.steps != [] && FactsRead(r.steps)
    && r.evidence.source == r.steps[0].facts.value.source
    && r.evidence.destination == r.steps[|r.steps| - 1].facts.value.destination
    && r.evidence.finalRecipient == r.steps[|r.steps| - 1].recipient
    && r.evidence.input == r.fromAmount && r.evidence.output == r.toAmount
  }

  predicate ValidBridgeRoute(r: Route, source: Asset, destination: Asset, recipient: string, input: int,
        id: Option<string>) {
    && (id.Some? ==> r.id == id.value)
    && Intact(r)
    && AllNormal(r.steps)
    && ValidTree(r.steps)
    && Linked(r.steps)
    && var final := r.steps[|r.steps| - 1].facts.value;
       && (final.output.Some? ==> final.output.value == r.evidence.output)
       && r.evidence.source == source && r.evidence.destination == destination
       && r.evidence.input == input && r.fromAmount == input && r.steps[0].facts.value.input == input
       && r.evidence.finalRecipient == Some(Lower(recipient))
  }

  /** An accepted route is one unbroken chain of leaves, however deep they lie: it starts with the expected asset and
      amount, each leaf's stated output is the next leaf's input in the same asset, and it ends in the expected asset;
      only the last output may be unstated. */
  lemma {:induction false} AcceptedRouteIsOneChain(r: Route, source: Asset, destination: Asset, recipient: string,
        input: int,
                                                   id: Option<string>)
    requires ValidBridgeRoute(r, source, destination, recipient, input, id)
    ensures var leaves := AllLeaves(r.steps);
            && leaves != [] && Chain(leaves)
            && leaves[0].source == source && leaves[0].input == input
            && leaves[|leaves| - 1].destination == destination
            && (forall i | 0 <= i < |leaves| - 1 :: leaves[i].output.Some?)
            && (r.steps[|r.steps| - 1].facts.value.output.Some? ==> leaves[|leaves| - 1].output == Some(r.evidence.output))
  {
    AllLeavesFlow(r.steps);
    var leaves := AllLeaves(r.steps);
    forall i | 0 <= i < |leaves| - 1 ensures leaves[i].output.Some? {
      assert leaves[i].output == Some(leaves[i + 1].input);
    }
  }
}
