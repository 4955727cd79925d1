/** Valuation of candidates and the refine-and-prune search over quoted routes. */
module RouteChoices {
  import opened Prelude
  import opened Lexicographic

  datatype Asset = Asset(chainId: int, contractAddress: string, decimals: nat)

  datatype Price = Price(asset: Asset, usdPerToken: real, observedAt: real)

  datatype FeeQuote = FeeQuote(raw: nat, price: Option<Price>)

  datatype Candidate = Candidate(routeIds: seq<string>, source: Option<Asset>, destination: Option<Asset>,
                                 sourceAmount: Option<nat>, destinationAmount: Option<nat>,
                                 sourceUsd: Option<real>, destinationUsd: Option<real>, gasUsd: Option<real>,
                                 lossUsd: Option<real>, lossPct: Option<real>, reason: Option<string>,
                                 gasComplete: bool, gas: seq<FeeQuote>)

  predicate Valid(c: Candidate) {
    && c.reason.None? && c.lossUsd.Some? && c.lossPct.Some? && c.gasComplete && c.gas != []
    && forall i | 0 <= i < |c.gas| :: c.gas[i].price.Some?
  }

  // ---------------------------------------------------------------- valuation

  function Pow10(n: nat): (r: real)
    ensures r >= 1.0
  {
    if n == 0 then 1.0 else 10.0 * Pow10(n - 1)
  }

  function UsdValue(raw: nat, price: Price): real {
    raw as real / Pow10(price.asset.decimals) * price.usdPerToken
  }

  predicate FreshPrice(price: Price, now: real, maxAge: real) {
    price.observedAt <= now && now - price.observedAt <= maxAge
  }

  /** The first wallet-paid gas quote that cannot be valued. */
  function GasProblem(gas: seq<FeeQuote>, now: real, maxAge: real): Option<string> {
    if gas == [] then None
    else if gas[0].price.None? then Some("missing_gas_price")
    else if !FreshPrice(gas[0].price.value, now, maxAge) then Some("stale_price")
    else GasProblem(gas[1..], now, maxAge)
  }

  function GasUsd(gas: seq<FeeQuote>): real {
    if gas == [] then 0.0
    else (if gas[0].price.Some? then UsdValue(gas[0].raw, gas[0].price.value) else 0.0) + GasUsd(gas[1..])
  }

  function Loss(sourceUsd: real, destinationUsd: real, gasUsd: real): real {
    MaxReal(0.0, sourceUsd - destinationUsd) + gasUsd
  }

  function Percentage(part: real, whole: real): real
    requires whole > 0.0
  {
    part / whole * 100.0
  }

  function Rejected(routeIds: seq<string>, source: Option<Asset>, destination: Option<Asset>, sourceAmount: Option<nat>,
                    destinationAmount: Option<nat>, reason: string): Candidate {
    Candidate(routeIds, source, destination, sourceAmount, destinationAmount, None, None, None, None, None, Some(reason),
              false, [])
  }

  function Valued(routeIds: seq<string>, source: Option<Asset>, destination: Option<Asset>, sourceAmount: Option<nat>,
                  destinationAmount: Option<nat>, sourceUsd: real, destinationUsd: real, gasUsd: real,
                  gas: seq<FeeQuote>): Candidate {
    var loss := Loss(sourceUsd, destinationUsd, gasUsd);
    Candidate(routeIds, source, destination, sourceAmount, destinationAmount, Some(sourceUsd), Some(destinationUsd),
              Some(gasUsd), Some(loss), if sourceUsd > 0.0 then Some(Percentage(loss, sourceUsd)) else None,
              if sourceUsd > 0.0 then None else Some("zero_source_value"), true, gas)
  }

  function CandidateFromValues(routeIds: seq<string>, source: Asset, destination: Asset, sourceAmount: nat,
                               destinationAmount: nat, sourcePrice: Option<Price>, destinationPrice: Option<Price>,
                               gas: seq<FeeQuote>, gasComplete: bool, now: real, maxAge: real): Candidate {
    var reject := reason => Rejected(routeIds, Some(source), Some(destination), Some(sourceAmount),
                                     Some(destinationAmount), reason);
    if sourcePrice.None? then reject("missing_source_price")
    else if destinationPrice.None? then reject("missing_destination_price")
    else if sourcePrice.value.asset != source || destinationPrice.value.asset != destination
    then reject("price_identity_mismatch")
    else if !gasComplete || gas == [] then reject("missing_gas_estimate")
    else if !FreshPrice(sourcePrice.value, now, maxAge) || !FreshPrice(destinationPrice.value, now, maxAge)
    then reject("stale_price")
    else if GasProblem(gas, now, maxAge).Some? then reject(GasProblem(gas, now, maxAge).value)
    else Valued(routeIds, Some(source), Some(destination), Some(sourceAmount), Some(destinationAmount),
                UsdValue(sourceAmount, sourcePrice.value), UsdValue(destinationAmount, destinationPrice.value),
                GasUsd(gas), gas)
  }

  /** Consecutive candidates, valued at the first input and the last output only. */
  function Combine(first: Candidate, second: Candidate): Candidate {
    var reject := reason => Rejected(first.routeIds + second.routeIds, first.source, second.destination,
                                     first.sourceAmount, second.destinationAmount, reason);
    if !Valid(first) then reject(first.reason.GetOr("invalid_candidate"))
    else if !Valid(second) then reject(second.reason.GetOr("invalid_candidate"))
    else if first.destination != second.source then reject("step_identity_mismatch")
    else if first.destinationAmount != second.sourceAmount then reject("amount_flow_mismatch")
    else Valued(first.routeIds + second.routeIds, first.source, second.destination, first.sourceAmount,
                second.destinationAmount, first.sourceUsd.GetOr(0.0), second.destinationUsd.GetOr(0.0),
                first.gasUsd.GetOr(0.0) + second.gasUsd.GetOr(0.0), first.gas + second.gas)
  }

  /** The shape of every valid candidate the valuation makes: what is lost is the gas, and what arrives short of what was sent;
      the percentage is that of the source. */
  predicate WellValued(c: Candidate) {
    Valid(c) ==>
      && c.sourceUsd.Some? && c.destinationUsd.Some? && c.gasUsd.Some?
      && c.sourceUsd.value > 0.0 && c.gasUsd.value >= 0.0
      && (c.destinationUsd.value <= c.sourceUsd.value ==>
            c.lossUsd.value + c.destinationUsd.value == c.sourceUsd.value + c.gasUsd.value)
      && (c.destinationUsd.value >= c.sourceUsd.value ==> c.lossUsd.value == c.gasUsd.value)
      && c.lossPct.value * c.sourceUsd.value == 100.0 * c.lossUsd.value
  }

  predicate PositivePrices(gas: seq<FeeQuote>) {
    forall i | 0 <= i < |gas| && gas[i].price.Some? :: gas[i].price.value.usdPerToken > 0.0
  }

  lemma {:induction false} GasNonNegative(gas: seq<FeeQuote>)
    requires PositivePrices(gas)
    ensures GasUsd(gas) >= 0.0
  {
    if gas != [] {
      assert PositivePrices(gas[1..]);
      GasNonNegative(gas[1..]);
      if gas[0].price.Some? {
        var price := gas[0].price.value;
        Product(gas[0].raw as real / Pow10(price.asset.decimals), price.usdPerToken);
      }
    }
  }

  lemma {:induction false} Product(a: real, b: real)
    requires a >= 0.0 && b > 0.0
    ensures a * b >= 0.0
  {
  }

  /** Valuation and combination make only well-valued candidates. */
  lemma {:induction false} ValuationIsWellValued(routeIds: seq<string>, source: Asset, destination: Asset,
        sourceAmount: nat,
                                                 destinationAmount: nat, sourcePrice: Option<Price>, destinationPrice: Option<Price>,
                                                 gas: seq<FeeQuote>, gasComplete: bool, now: real, maxAge: real)
    requires PositivePrices(gas)
    ensures WellValued(CandidateFromValues(routeIds, source, destination, sourceAmount, destinationAmount, sourcePrice,
                                           destinationPrice, gas, gasComplete, now, maxAge))
  {
    GasNonNegative(gas);
  }

  lemma {:induction false} CombineIsWellValued(first: Candidate, second: Candidate)
    requires WellValued(first) && WellValued(second)
    ensures WellValued(Combine(first, second))
  {
  }

  /** Of the same whole, the greater part is the greater percentage. */
  lemma {:induction false} PercentageOrder(a: real, b: real, part: real, other: real, whole: real)
    requires whole > 0.0 && a * whole == 100.0 * part && b * whole == 100.0 * other
    ensures a <= b <==> part <= other
  {
    assert (b - a) * whole == 100.0 * (other - part);
    if a <= b { Product(b - a, whole); } else { assert (a - b) * whole > 0.0; }
  }

  /** Wallet-paid gas on top of the same endpoint values never lowers the loss percentage. */
  lemma {:induction false} GasNeverLowersLoss(quoted: Candidate, refined: Candidate)
    requires Valid(quoted) && WellValued(quoted) && Valid(refined) && WellValued(refined)
    requires quoted.sourceUsd == refined.sourceUsd && quoted.destinationUsd == refined.destinationUsd
    requires quoted.gasUsd.value <= refined.gasUsd.value
    ensures quoted.lossPct.value <= refined.lossPct.value
  {
    assert refined.lossUsd.value == quoted.lossUsd.value + refined.gasUsd.value - quoted.gasUsd.value;
    PercentageOrder(quoted.lossPct.value, refined.lossPct.value, quoted.lossUsd.value, refined.lossUsd.value, refined.sourceUsd.value);
  }

  // ---------------------------------------------------------------- selection

  /** Loss percentage, loss, destination identity, route ids. */
  function CompareKeys(a: Candidate, b: Candidate): int
    requires Valid(a) && Valid(b)
  {
    if a.lossPct.value != b.lossPct.value then (if a.lossPct.value < b.lossPct.value then -1 else 1)
    else if a.lossUsd.value != b.lossUsd.value then (if a.lossUsd.value < b.lossUsd.value then -1 else 1)
    else
      var x, y := a.destination.GetOr(Asset(0, "", 0)), b.destination.GetOr(Asset(0, "", 0));
      if x.chainId != y.chainId then (if x.chainId < y.chainId then -1 else 1)
      else if x.contractAddress != y.contractAddress then CompareText(x.contractAddress, y.contractAddress)
      else if x.decimals != y.decimals then (if x.decimals < y.decimals then -1 else 1)
      else CompareTexts(a.routeIds, b.routeIds)
  }

  lemma {:induction false} KeysTotal(a: Candidate, b: Candidate)
    requires Valid(a) && Valid(b)
    ensures CompareKeys(a, b) == -CompareKeys(b, a)
  {
    TextTotal(a.destination.GetOr(Asset(0, "", 0)).contractAddress, b.destination.GetOr(Asset(0, "", 0)).contractAddress);
    TextsTotal(a.routeIds, b.routeIds);
  }

  lemma {:induction false} KeysTransitive(a: Candidate, b: Candidate, c: Candidate)
    requires Valid(a) && Valid(b) && Valid(c)
    requires CompareKeys(a, b) <= 0 && CompareKeys(b, c) <= 0
    ensures CompareKeys(a, c) <= 0
    ensures CompareKeys(a, c) == 0 ==> CompareKeys(a, b) == 0 && CompareKeys(b, c) == 0
  {
    var x, y, z := a.destination.GetOr(Asset(0, "", 0)), b.destination.GetOr(Asset(0, "", 0)), c.destination.GetOr(Asset(0, "", 0));
    TextTotal(x.contractAddress, y.contractAddress);
    TextTotal(y.contractAddress, z.contractAddress);
    TextTotal(x.contractAddress, z.contractAddress);
    if CompareText(x.contractAddress, y.contractAddress) <= 0 && CompareText(y.contractAddress, z.contractAddress) <= 0 {
      TextTransitive(x.contractAddress, y.contractAddress, z.contractAddress);
    }
    if CompareTexts(a.routeIds, b.routeIds) <= 0 && CompareTexts(b.routeIds, c.routeIds) <= 0 {
      TextsTransitive(a.routeIds, b.routeIds, c.routeIds);
    }
  }

  /** The first valid candidate with the least key. */
  function Select(cs: seq<Candidate>): (r: Option<Candidate>)
    ensures r.Some? ==> Valid(r.value)
  {
    if cs == [] then None
    else
      var n := |cs| - 1;
      var best := Select(cs[..n]);
      if !Valid(cs[n]) then best
      else if best.None? || CompareKeys(cs[n], best.value) < 0 then Some(cs[n])
      else best
  }

  /** The selected candidate is valid and from the list; no valid candidate has a smaller key, and none before it has
      an equal one. */
  lemma {:induction false} SelectIsFirstLeast(cs: seq<Candidate>)
    ensures Select(cs).None? <==> forall i | 0 <= i < |cs| :: !Valid(cs[i])
    ensures Select(cs).Some? ==>
              exists k | 0 <= k < |cs| ::
                && cs[k] == Select(cs).value
                && (forall i | 0 <= i < |cs| && Valid(cs[i]) :: CompareKeys(cs[k], cs[i]) <= 0)
                && (forall i | 0 <= i < k && Valid(cs[i]) :: CompareKeys(cs[k], cs[i]) < 0)
  {
    if cs != [] {
      var n := |cs| - 1;
      SelectIsFirstLeast(cs[..n]);
      if Valid(cs[n]) {
        KeysTotal(cs[n], cs[n]);
        var before := Select(cs[..n]);
        if before.Some? {
          KeysTotal(cs[n], before.value);
          if CompareKeys(cs[n], before.value) < 0 {
            forall i | 0 <= i < n && Valid(cs[i]) ensures CompareKeys(cs[n], cs[i]) < 0 {
              assert cs[..n][i] == cs[i];
              KeysTransitive(cs[n], before.value, cs[i]);
            }
          }
        }
      }
    }
  }

  // ---------------------------------------------------------------- refine and prune

  /** A quoted choice; its steps name the prepared candidates they need. */
  datatype Choice = Choice(candidate: Candidate, steps: seq<string>)

  /** Preparation answers one candidate per step key: it is asked at most once per key. */
  type Preparation = string -> Candidate

  function RefineFrom(prepare: Preparation, current: Option<Candidate>, steps: seq<string>,
        fallback: Candidate): Candidate
    decreases |steps|
  {
    if steps == [] then current.GetOr(fallback)
    else
      var candidate := prepare(steps[0]);
      var next := if current.None? then candidate else Combine(current.value, candidate);
      if !Valid(candidate) then next else RefineFrom(prepare, Some(next), steps[1..], fallback)
  }

  /** The choice with its exact gas. */
  function Refined(prepare: Preparation, c: Choice): Candidate {
    RefineFrom(prepare, None, c.steps, c.candidate)
  }

  function AllRefined(prepare: Preparation, quoted: seq<Choice>): (r: seq<Candidate>)
    ensures |r| == |quoted| && forall i | 0 <= i < |r| :: r[i] == Refined(prepare, quoted[i])
  {
    seq(|quoted|, i requires 0 <= i < |quoted| => Refined(prepare, quoted[i]))
  }

  predicate Pruned(best: Option<Candidate>, c: Choice)
    requires best.Some? ==> Valid(best.value)
    requires Valid(c.candidate)
  {
    best.Some? && best.value.lossPct.value < c.candidate.lossPct.value
  }

  /** The winner when choices that are already beaten at zero gas are skipped. */
  function PrunedWinner(prepare: Preparation, quoted: seq<Choice>): (r: Option<Candidate>)
    requires forall i | 0 <= i < |quoted| :: Valid(quoted[i].candidate)
    ensures r.Some? ==> Valid(r.value)
  {
    if quoted == [] then None
    else
      var n := |quoted| - 1;
      var best := PrunedWinner(prepare, quoted[..n]);
      if Pruned(best, quoted[n]) then best
      else
        var current := Refined(prepare, quoted[n]);
        if Valid(current) && (best.None? || CompareKeys(current, best.value) < 0) then Some(current) else best
  }

  /** How many choices are skipped. */
  function PrunedCount(prepare: Preparation, quoted: seq<Choice>): nat
    requires forall i | 0 <= i < |quoted| :: Valid(quoted[i].candidate)
  {
    if quoted == [] then 0
    else
      var n := |quoted| - 1;
      PrunedCount(prepare, quoted[..n]) + if Pruned(PrunedWinner(prepare, quoted[..n]), quoted[n]) then 1 else 0
  }

  predicate NeverCheaper(prepare: Preparation, c: Choice)
    requires Valid(c.candidate)
  {
    Valid(Refined(prepare, c)) ==> c.candidate.lossPct.value <= Refined(prepare, c).lossPct.value
  }

  /** Skipping beaten choices finds the winner of the exhaustive search, ties included. */
  lemma {:induction false} PruningKeepsWinner(prepare: Preparation, quoted: seq<Choice>)
    requires forall i | 0 <= i < |quoted| :: Valid(quoted[i].candidate) && NeverCheaper(prepare, quoted[i])
    ensures PrunedWinner(prepare, quoted) == Select(AllRefined(prepare, quoted))
  {
    if quoted != [] {
      var n := |quoted| - 1;
      PruningKeepsWinner(prepare, quoted[..n]);
      assert AllRefined(prepare, quoted)[..n] == AllRefined(prepare, quoted[..n]);
    }
  }

  /** Refinement that keeps the endpoint values and only adds gas is never cheaper than its quote. */
  lemma {:induction false} UnchangedValuesNeverCheaper(prepare: Preparation, c: Choice)
    requires Valid(c.candidate) && WellValued(c.candidate) && WellValued(Refined(prepare, c))
    requires Valid(Refined(prepare, c)) ==>
               && Refined(prepare, c).sourceUsd == c.candidate.sourceUsd
               && Refined(prepare, c).destinationUsd == c.candidate.destinationUsd
               && c.candidate.gasUsd.value <= Refined(prepare, c).gasUsd.value
    ensures NeverCheaper(prepare, c)
  {
    if Valid(Refined(prepare, c)) {
      GasNeverLowersLoss(c.candidate, Refined(prepare, c));
    }
  }

  lemma {:induction false} RefinedIsWellValued(prepare: Preparation, c: Choice)
    requires WellValued(c.candidate)
    requires forall key :: WellValued(prepare(key))
    ensures WellValued(Refined(prepare, c))
  {
    RefineFromWellValued(prepare, None, c.steps, c.candidate);
  }

  lemma {:induction false} RefineFromWellValued(prepare: Preparation, current: Option<Candidate>, steps: seq<string>,
        fallback: Candidate)
    requires WellValued(fallback) && (current.Some? ==> WellValued(current.value))
    requires forall key :: WellValued(prepare(key))
    ensures WellValued(RefineFrom(prepare, current, steps, fallback))
    decreases |steps|
  {
    if steps != [] {
      var candidate := prepare(steps[0]);
      if current.Some? {
        CombineIsWellValued(current.value, candidate);
      }
      var next := if current.None? then candidate else Combine(current.value, candidate);
      if Valid(candidate) {
        RefineFromWellValued(prepare, Some(next), steps[1..], fallback);
      }
    }
  }

  /** Zero-gas quotes whose endpoint values the preparation leaves alone: pruning returns the candidate that the
      exhaustive search selects. */
  lemma {:induction false} ZeroGasBoundIsSafe(prepare: Preparation, quoted: seq<Choice>)
    requires forall key :: WellValued(prepare(key))
    requires forall i | 0 <= i < |quoted| ::
               && Valid(quoted[i].candidate) && WellValued(quoted[i].candidate)
               && (quoted[i].steps != [] ==> quoted[i].candidate.gasUsd == Some(0.0))
               && (Valid(Refined(prepare, quoted[i])) ==>
                     && Refined(prepare, quoted[i]).sourceUsd == quoted[i].candidate.sourceUsd
                     && Refined(prepare, quoted[i]).destinationUsd == quoted[i].candidate.destinationUsd)
    ensures PrunedWinner(prepare, quoted) == Select(AllRefined(prepare, quoted))
  {
    forall i | 0 <= i < |quoted| ensures NeverCheaper(prepare, quoted[i]) {
      RefinedIsWellValued(prepare, quoted[i]);
      UnchangedValuesNeverCheaper(prepare, quoted[i]);
    }
    PruningKeepsWinner(prepare, quoted);
  }

  /** The condition is exact: a choice can be pruned safely against every competitor if and only if its refinement
      is not cheaper than its quote. */
  lemma {:induction false} PruningSafeIff(prepare: Preparation, c: Choice)
    requires Valid(c.candidate)
    ensures (forall b: Choice | Valid(b.candidate) && b.steps == [] ::
               PrunedWinner(prepare, [b, c]) == Select(AllRefined(prepare, [b, c])))
            <==> NeverCheaper(prepare, c)
  {
    if NeverCheaper(prepare, c) {
      forall b: Choice | Valid(b.candidate) && b.steps == []
        ensures PrunedWinner(prepare, [b, c]) == Select(AllRefined(prepare, [b, c]))
      {
        PruningKeepsWinner(prepare, [b, c]);
      }
    } else {
      var cheaper := Refined(prepare, c);
      var between := (cheaper.lossPct.value + c.candidate.lossPct.value) / 2.0;
      var b := Choice(c.candidate.(lossPct := Some(between)), []);
      TwoChoices(prepare, b, c);
    }
  }

  /** A competitor between the quote and its cheaper refinement wins the pruned search and loses the exhaustive one. */
  lemma {:induction false} TwoChoices(prepare: Preparation, b: Choice, c: Choice)
    requires Valid(b.candidate) && Valid(c.candidate) && b.steps == [] && Valid(Refined(prepare, c))
    requires Refined(prepare, c).lossPct.value < b.candidate.lossPct.value < c.candidate.lossPct.value
    ensures PrunedWinner(prepare, [b, c]) == Some(b.candidate)
    ensures Select(AllRefined(prepare, [b, c])) == Some(Refined(prepare, c))
  {
    assert [b, c][..1] == [b] && [b][..0] == [];
    assert PrunedWinner(prepare, [b]) == Some(b.candidate);
    var rs := AllRefined(prepare, [b, c]);
    assert rs == [b.candidate, Refined(prepare, c)];
    assert rs[..1] == [b.candidate] && [b.candidate][..0] == [];
    assert Select([b.candidate]) == Some(b.candidate);
  }

  /** Refines one choice, reusing and extending the candidates prepared so far. */
  method Refine(choice: Choice, prepare: Preparation, saved: map<string, Candidate>)
    returns (refined: Candidate, prepared: map<string, Candidate>)
    requires forall key | key in saved :: saved[key] == prepare(key)
    ensures refined == Refined(prepare, choice)
    ensures saved.Keys <= prepared.Keys && forall key | key in prepared :: prepared[key] == prepare(key)
  {
    prepared := saved;
    var current := None;
    var k := 0;
    while k < |choice.steps|
      invariant 0 <= k <= |choice.steps|
      invariant Refined(prepare, choice) == RefineFrom(prepare, current, choice.steps[k..], choice.candidate)
      invariant saved.Keys <= prepared.Keys && forall key | key in prepared :: prepared[key] == prepare(key)
    {
      var key := choice.steps[k];
      assert choice.steps[k..][0] == key && choice.steps[k..][1..] == choice.steps[k + 1..];
      if key !in prepared {
        prepared := prepared[key := prepare(key)];
      }
      var candidate := prepared[key];
      current := Some(if current.None? then candidate else Combine(current.value, candidate));
      if !Valid(candidate) {
        break;
      }
      k := k + 1;
    }
    refined := current.GetOr(choice.candidate);
  }

  /** The search loop: the winner, and how many choices were skipped. */
  method RefineAndPrune(quoted: seq<Choice>, prepare: Preparation) returns (best: Option<Candidate>, pruned: nat)
    requires forall i | 0 <= i < |quoted| :: Valid(quoted[i].candidate)
    ensures best == PrunedWinner(prepare, quoted) && pruned == PrunedCount(prepare, quoted)
  {
    best, pruned := None, 0;
    var prepared: map<string, Candidate> := map[];
    for i := 0 to |quoted|
      invariant best == PrunedWinner(prepare, quoted[..i]) && pruned == PrunedCount(prepare, quoted[..i])
      invariant forall key | key in prepared :: prepared[key] == prepare(key)
    {
      var choice := quoted[i];
      assert quoted[..i + 1][..i] == quoted[..i] && quoted[..i + 1][i] == choice;
      if best.Some? && best.value.lossPct.value < choice.candidate.lossPct.value {
        pruned := pruned + 1;
      } else {
        var refined;
        refined, prepared := Refine(choice, prepare, prepared);
        if Valid(refined) && (best.None? || CompareKeys(refined, best.value) < 0) {
          best := Some(refined);
        }
      }
    }
    assert quoted[..|quoted|] == quoted;
  }
}
