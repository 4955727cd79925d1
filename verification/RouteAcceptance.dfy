/** Which routes are accepted, told for every step by itself, and what an accepted route pays. */
module RouteAcceptance {
  import opened Prelude
  import opened RouteTree

  // ---------------------------------------------------------------- the steps below

  /** The step is one of the list or lies below one, in any of the nested lists. */
  ghost predicate Anywhere(ns: seq<Node>, n: Node)
    decreases ns
  {
    ns != [] &&
    (|| ns[0] == n
     || (ns[0].Step? && ns[0].included.Listed? && Anywhere(ns[0].included.items, n))
     || (ns[0].Step? && ns[0].steps.Listed? && Anywhere(ns[0].steps.items, n))
     || (ns[0].Step? && ns[0].substeps.Listed? && Anywhere(ns[0].substeps.items, n))
     || Anywhere(ns[1..], n))
  }

  predicate Empty(g: Group) {
    g.Listed? ==> g.items == []
  }

  /** `kids` are the nested steps: the one list that is filled, or none. */
  predicate Nested(n: Node, kids: seq<Node>)
    requires n.Step?
  {
    || (kids == [] && Empty(n.included) && Empty(n.steps) && Empty(n.substeps))
    || (kids != [] && n.included == Listed(kids) && Empty(n.steps) && Empty(n.substeps))
    || (kids != [] && n.steps == Listed(kids) && Empty(n.included) && Empty(n.substeps))
    || (kids != [] && n.substeps == Listed(kids) && Empty(n.included) && Empty(n.steps))
  }

  lemma {:induction false} NestedIff(n: Node, kids: seq<Node>)
    requires n.Step?
    ensures OneGroup(n) && Children(n) == kids <==> Nested(n, kids)
  {
  }

  /** The endpoints of the step can be read, its lists are lists, and its nested steps carry its own asset and amount from its
      source to its destination and output. */
  ghost predicate FlowsThrough(n: Node) {
    && n.Step? && n.facts.Some? && n.included != NotAList && n.steps != NotAList && n.substeps != NotAList
    && exists kids :: Nested(n, kids) && Carries(kids, n.facts.value)
  }

  ghost predicate Carries(kids: seq<Node>, f: Facts) {
    && (forall i | 0 <= i < |kids| :: kids[i].Step? && kids[i].facts.Some?)
    && (forall i | 0 < i < |kids| :: kids[i - 1].facts.value.destination == kids[i].facts.value.source
                                     && kids[i - 1].facts.value.output == Some(kids[i].facts.value.input))
    && (kids != [] ==>
          var first, last := kids[0].facts.value, kids[|kids| - 1].facts.value;
          && first.source == f.source && first.input == f.input && last.destination == f.destination
          && (f.output.Some? ==> last.output == f.output))
  }

  /** The step is one of the list, or one of the nested steps below one. */
  ghost predicate Below(ns: seq<Node>, n: Node)
    decreases ns
  {
    ns != [] && (ns[0] == n || (ns[0].Step? && Children(ns[0]) != [] && Below(Children(ns[0]), n)) || Below(ns[1..], n))
  }

  lemma {:induction false} LinkedIff(ns: seq<Node>)
    requires FactsRead(ns)
    ensures Linked(ns) <==> forall i | 0 < i < |ns| :: ns[i - 1].facts.value.destination == ns[i].facts.value.source
                                                       && ns[i - 1].facts.value.output == Some(ns[i].facts.value.input)
  {
    if forall i | 0 < i < |ns| :: ns[i - 1].facts.value.destination == ns[i].facts.value.source
                                  && ns[i - 1].facts.value.output == Some(ns[i].facts.value.input) {
      forall i | 0 <= i < |ns| - 1
        ensures ns[i].facts.value.destination == ns[i + 1].facts.value.source && ns[i].facts.value.output == Some(ns[i + 1].facts.value.input)
      {
        assert ns[(i + 1) - 1] == ns[i];
      }
    }
  }

  lemma {:induction false} ParentIff(n: Node)
    ensures ValidParent(n) <==> FlowsThrough(n) && ValidTree(Children(n))
  {
    if n.Step? {
      NestedIff(n, Children(n));
      forall kids | Nested(n, kids) ensures kids == Children(n) { NestedIff(n, kids); }
      if FactsRead(Children(n)) { LinkedIff(Children(n)); }
    }
  }

  /** A list of nested steps is valid exactly when everything flows through each step in it, at every depth. */
  lemma {:induction false} ValidTreeIff(ns: seq<Node>)
    ensures ValidTree(ns) <==> forall n | Below(ns, n) :: FlowsThrough(n)
    decreases ns
  {
    if ns != [] {
      ParentIff(ns[0]);
      assert Below(ns, ns[0]);
      if ns[0].Step? && Children(ns[0]) != [] {
        ValidTreeIff(Children(ns[0]));
        forall n | Below(Children(ns[0]), n) ensures Below(ns, n) {}
      }
      ValidTreeIff(ns[1..]);
      forall n | Below(ns[1..], n) ensures Below(ns, n) {}
    }
  }

  /** The step itself can be read. */
  ghost predicate Readable(n: Node) {
    n.Step? && n.facts.Some? && n.named && n.included != NotAList && n.steps != NotAList && n.substeps != NotAList
  }

  lemma {:induction false} AllNormalIff(ns: seq<Node>)
    ensures AllNormal(ns) <==> forall n | Anywhere(ns, n) :: Readable(n)
    decreases ns
  {
    if ns != [] {
      assert Anywhere(ns, ns[0]);
      if ns[0].Step? {
        if ns[0].included.Listed? { AllNormalIff(ns[0].included.items); }
        if ns[0].steps.Listed? { AllNormalIff(ns[0].steps.items); }
        if ns[0].substeps.Listed? { AllNormalIff(ns[0].substeps.items); }
      }
      AllNormalIff(ns[1..]);
      NormalStep(ns);
    }
  }

  lemma {:induction false} NormalStep(ns: seq<Node>)
    requires ns != []
    ensures (forall n | Anywhere(ns, n) :: Readable(n))
            <==> && Readable(ns[0]) && (forall n | Anywhere(ns[1..], n) :: Readable(n))
                 && (ns[0].Step? && ns[0].included.Listed? ==> forall n | Anywhere(ns[0].included.items, n) :: Readable(n))
                 && (ns[0].Step? && ns[0].steps.Listed? ==> forall n | Anywhere(ns[0].steps.items, n) :: Readable(n))
                 && (ns[0].Step? && ns[0].substeps.Listed? ==> forall n | Anywhere(ns[0].substeps.items, n) :: Readable(n))
  {
    assert Anywhere(ns, ns[0]);
  }

  // ---------------------------------------------------------------- acceptance

  /** The steps, from the first to the last, take the asset and amount to the destination and recipient; a stated last output is the
      route's. */
  ghost predicate Delivers(r: Route, source: Asset, destination: Asset, recipient: string, input: int) {
    && r.steps != [] && (forall i | 0 <= i < |r.steps| :: r.steps[i].Step? && r.steps[i].facts.Some?)
    && (forall i | 0 < i < |r.steps| :: r.steps[i - 1].facts.value.destination == r.steps[i].facts.value.source
                                        && r.steps[i - 1].facts.value.output == Some(r.steps[i].facts.value.input))
    && var first, last := r.steps[0], r.steps[|r.steps| - 1];
       && first.facts.value.source == source && first.facts.value.input == input
       && last.facts.value.destination == destination && last.recipient == Some(Lower(recipient))
       && (last.facts.value.output.Some? ==> last.facts.value.output.value == r.toAmount)
  }

  /** A route is accepted exactly when it has the expected id, its evidence is its own, every step at every depth can be read and
      passes on what it takes in, and its steps deliver the input to the expected recipient. */
  lemma {:induction false} AcceptedIff(r: Route, source: Asset, destination: Asset, recipient: string, input: int, id: Option<string>)
    ensures ValidBridgeRoute(r, source, destination, recipient, input, id)
            <==> && (id.Some? ==> r.id == id.value)
                 && r.fromAmount == input
                 && r.evidence == Evidence(source, destination, input, r.toAmount, Some(Lower(recipient)))
                 && (forall n | Anywhere(r.steps, n) :: Readable(n))
                 && (forall n | Below(r.steps, n) :: FlowsThrough(n))
                 && Delivers(r, source, destination, recipient, input)
  {
    ValidTreeIff(r.steps);
    AllNormalIff(r.steps);
    if FactsRead(r.steps) { LinkedIff(r.steps); }
  }

  // ---------------------------------------------------------------- the leaves

  ghost predicate IsLeaf(n: Node, f: Facts) {
    n.Step? && n.facts == Some(f) && Empty(n.included) && Empty(n.steps) && Empty(n.substeps)
  }

  /** Some step of the list, at some depth, nests nothing and has these facts. */
  ghost predicate HasLeaf(ns: seq<Node>, f: Facts) {
    exists n :: Below(ns, n) && IsLeaf(n, f)
  }

  lemma {:induction false} HasLeafBelow(ns: seq<Node>, f: Facts)
    requires ns != []
    ensures HasLeaf(ns, f) <==> || IsLeaf(ns[0], f) || HasLeaf(ns[1..], f)
                                || (ns[0].Step? && Children(ns[0]) != [] && HasLeaf(Children(ns[0]), f))
  {
    if IsLeaf(ns[0], f) { assert Below(ns, ns[0]); }
    if n :| Below(ns[1..], n) && IsLeaf(n, f) { assert Below(ns, n); }
    if ns[0].Step? && Children(ns[0]) != [] && HasLeaf(Children(ns[0]), f) {
      var n :| Below(Children(ns[0]), n) && IsLeaf(n, f);
      assert Below(ns, n);
    }
  }

  /** The leaves of a valid list are the facts of exactly those steps, at any depth, that nest nothing. */
  lemma {:induction false} LeavesAre(ns: seq<Node>, f: Facts)
    requires ValidTree(ns)
    ensures f in AllLeaves(ns) <==> HasLeaf(ns, f)
    decreases ns
  {
    if ns != [] {
      HasLeafBelow(ns, f);
      LeavesAre(ns[1..], f);
      NestedIff(ns[0], []);
      if Children(ns[0]) != [] {
        LeavesAre(Children(ns[0]), f);
      }
    }
  }

  // ---------------------------------------------------------------- totals

  /** Totals are sums: of one cost it is its amount, of two lists the sum of theirs. */
  lemma {:induction false} TotalsAdd(c: Cost, a: seq<Cost>, b: seq<Cost>, token: Asset)
    ensures Total([], token) == 0
    ensures Total([c], token) == if c.token == token then c.amount else 0
    ensures Total(a + b, token) == Total(a, token) + Total(b, token)
  {
    assert [c][1..] == [];
    TotalAppend(a, b, token);
  }

  /** A parent covers its children exactly when it has at least as much of every token. */
  lemma {:induction false} CoversIff(parent: seq<Cost>, children: seq<Cost>)
    ensures Covers(parent, children) <==> forall token :: Total(parent, token) >= Total(children, token)
  {
    if Covers(parent, children) {
      forall token ensures Total(parent, token) >= Total(children, token) {
        CoversEveryToken(parent, children, token);
      }
    } else {
      var i :| 0 <= i < |children| && Total(parent, children[i].token) < Total(children, children[i].token);
      var token := children[i].token;
      assert Total(parent, token) < Total(children, token);
    }
  }

  // ---------------------------------------------------------------- which costs can be read

  /** A step whose costs are stated, and whose nested lists are lists of which at most one is filled. */
  ghost predicate Costed(n: Node) {
    && n.Step? && n.costs.Some? && (n.included.Missing? || n.included.Listed?) && (n.steps.Missing? || n.steps.Listed?)
    && (n.substeps.Missing? || n.substeps.Listed?) && exists kids :: Nested(n, kids)
  }

  /** The tree of a step has its own costs, and the trees of its nested steps in their order. */
  ghost predicate TreeOf(n: Node, t: Tree)
    decreases n, 0
  {
    && n.Step? && t.id == n.id && n.costs == Some(t.own)
    && if Children(n) == [] then t.children == [] else TreesOf(Children(n), t.children)
  }

  ghost predicate TreesOf(ns: seq<Node>, ts: seq<Tree>)
    decreases ns, 1
  {
    |ns| == |ts| && (ns != [] ==> TreeOf(ns[0], ts[0]) && TreesOf(ns[1..], ts[1..]))
  }

  lemma {:induction false} ParseIsTree(n: Node)
    ensures Parse(n).Some? ==> TreeOf(n, Parse(n).value)
    decreases n, 0
  {
    if Parse(n).Some? && Children(n) != [] {
      ParseAllAreTrees(Children(n));
    }
  }

  lemma {:induction false} ParseAllAreTrees(ns: seq<Node>)
    ensures ParseAll(ns).Some? ==> TreesOf(ns, ParseAll(ns).value)
    decreases ns, 1
  {
    if ns != [] && ParseAll(ns).Some? {
      ParseIsTree(ns[0]);
      ParseAllAreTrees(ns[1..]);
      assert ParseAll(ns).value[1..] == ParseAll(ns[1..]).value;
    }
  }

  /** The costs of a list of steps are refused exactly when some step, at some depth, cannot be read or is ambiguous. */
  lemma {:induction false} CostsReadIff(ns: seq<Node>)
    ensures Costs(ns).Some? <==> forall n | Below(ns, n) :: Costed(n)
    decreases ns
  {
    if ns != [] {
      assert Below(ns, ns[0]);
      ParseIff(ns[0]);
      if ns[0].Step? && Children(ns[0]) != [] {
        CostsReadIff(Children(ns[0]));
        forall n | Below(Children(ns[0]), n) ensures Below(ns, n) {}
      }
      CostsReadIff(ns[1..]);
      forall n | Below(ns[1..], n) ensures Below(ns, n) {}
    }
  }

  lemma {:induction false} ParseIff(n: Node)
    ensures Parse(n).Some? <==> Costed(n) && (ParseAll(Children(n)).Some?)
  {
    if n.Step? {
      NestedIff(n, Children(n));
      forall kids | Nested(n, kids) ensures OneGroup(n) { NestedIff(n, kids); }
    }
  }
}
