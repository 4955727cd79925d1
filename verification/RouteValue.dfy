/** What a candidate is worth: its values told without the formulas that compute them, and which candidates are therefore chosen. */
module RouteValues {
  import opened Prelude
  import opened Lexicographic
  import opened RouteChoices

  function Power(n: nat): nat {
    if n == 0 then 1 else 10 * Power(n - 1)
  }

  /** So many raw units are worth so much at the price. */
  ghost predicate Worth(raw: nat, price: Price, usd: real) {
    usd * Power(price.asset.decimals) as real == raw as real * price.usdPerToken
  }

  lemma {:induction false} PowersAgree(n: nat)
    ensures Pow10(n) == Power(n) as real
  {
    if n > 0 {
      PowersAgree(n - 1);
    }
  }

  lemma {:induction false} Quotient(a: real, b: real, c: real)
    requires b > 0.0
    ensures (a / b * c) * b == a * c
  {
    assert a / b * b == a;
    assert (a / b * c) * b == (a / b * b) * c;
  }

  lemma {:induction false} ValueIsWorth(raw: nat, price: Price)
    ensures Worth(raw, price, UsdValue(raw, price))
  {
    PowersAgree(price.asset.decimals);
    Quotient(raw as real, Pow10(price.asset.decimals), price.usdPerToken);
  }

  /** Ten times the raw amount at one more decimal is the same value. */
  lemma {:induction false} ValueScales(raw: nat, price: Price, finer: Price)
    requires finer.asset.decimals == price.asset.decimals + 1 && finer.usdPerToken == price.usdPerToken
    ensures UsdValue(10 * raw, finer) == UsdValue(raw, price)
  {
    assert (10 * raw) as real / (10.0 * Pow10(price.asset.decimals)) == raw as real / Pow10(price.asset.decimals);
  }

  lemma {:induction false} ValuePositive(raw: nat, price: Price)
    requires price.usdPerToken > 0.0
    ensures UsdValue(raw, price) > 0.0 <==> raw > 0
  {
    var tokens := raw as real / Pow10(price.asset.decimals);
    assert tokens > 0.0 <==> raw > 0;
    assert tokens > 0.0 ==> tokens * price.usdPerToken > 0.0;
  }

  // ---------------------------------------------------------------- gas

  function Total(values: seq<real>): real {
    if values == [] then 0.0 else values[0] + Total(values[1..])
  }

  /** Each quote's worth; the gas is their total. */
  ghost predicate GasWorth(gas: seq<FeeQuote>, values: seq<real>) {
    |values| == |gas| && forall i | 0 <= i < |gas| :: gas[i].price.Some? && Worth(gas[i].raw, gas[i].price.value, values[i])
  }

  lemma {:induction false} GasIsTotal(gas: seq<FeeQuote>) returns (values: seq<real>)
    requires forall i | 0 <= i < |gas| :: gas[i].price.Some?
    ensures GasWorth(gas, values) && GasUsd(gas) == Total(values)
  {
    values := [];
    if gas != [] {
      var rest := GasIsTotal(gas[1..]);
      ValueIsWorth(gas[0].raw, gas[0].price.value);
      values := [UsdValue(gas[0].raw, gas[0].price.value)] + rest;
      forall i | 0 <= i < |gas| ensures Worth(gas[i].raw, gas[i].price.value, values[i]) {
        if i > 0 { assert gas[1..][i - 1] == gas[i]; }
      }
      assert values[1..] == rest;
    }
  }

  /** Gas adds up over steps. */
  lemma {:induction false} GasConcatenates(a: seq<FeeQuote>, b: seq<FeeQuote>)
    ensures GasUsd(a + b) == GasUsd(a) + GasUsd(b)
  {
    if a == [] {
      assert a + b == b;
    } else {
      assert (a + b)[1..] == a[1..] + b;
      GasConcatenates(a[1..], b);
    }
  }

  // ---------------------------------------------------------------- which quotes become candidates

  /** The price is that of the asset, known, and of an age that is allowed. */
  predicate UsablePrice(price: Option<Price>, now: real, maxAge: real) {
    price.Some? && now - maxAge <= price.value.observedAt <= now
  }

  lemma {:induction false} GasProblemIff(gas: seq<FeeQuote>, now: real, maxAge: real)
    ensures GasProblem(gas, now, maxAge).None? <==> forall i | 0 <= i < |gas| :: UsablePrice(gas[i].price, now, maxAge)
  {
    if gas != [] {
      GasProblemIff(gas[1..], now, maxAge);
      if forall i | 0 <= i < |gas[1..]| :: UsablePrice(gas[1..][i].price, now, maxAge) {
        forall i | 1 <= i < |gas| ensures UsablePrice(gas[i].price, now, maxAge) { assert gas[1..][i - 1] == gas[i]; }
      }
    }
  }

  /** A quote becomes a valid candidate exactly when both ends are priced for their own assets, every gas quote is priced, no price
      is stale, and something is sent; its values are then what raw amounts and prices say. */
  lemma {:induction false} CandidateIff(routeIds: seq<string>, source: Asset, destination: Asset, sourceAmount: nat,
        destinationAmount: nat, sourcePrice: Option<Price>, destinationPrice: Option<Price>, gas: seq<FeeQuote>, gasComplete: bool,
        now: real, maxAge: real)
    requires sourcePrice.Some? ==> sourcePrice.value.usdPerToken > 0.0
    ensures var c := CandidateFromValues(routeIds, source, destination, sourceAmount, destinationAmount, sourcePrice,
                                         destinationPrice, gas, gasComplete, now, maxAge);
            && (Valid(c) <==>
                  && UsablePrice(sourcePrice, now, maxAge) && sourcePrice.value.asset == source
                  && UsablePrice(destinationPrice, now, maxAge) && destinationPrice.value.asset == destination
                  && gasComplete && gas != [] && (forall i | 0 <= i < |gas| :: UsablePrice(gas[i].price, now, maxAge))
                  && sourceAmount > 0)
            && c.routeIds == routeIds && c.source == Some(source) && c.destination == Some(destination)
            && c.sourceAmount == Some(sourceAmount) && c.destinationAmount == Some(destinationAmount)
            && (Valid(c) ==>
                  && c.gas == gas && c.sourceUsd.Some? && Worth(sourceAmount, sourcePrice.value, c.sourceUsd.value)
                  && c.destinationUsd.Some? && Worth(destinationAmount, destinationPrice.value, c.destinationUsd.value)
                  && c.gasUsd.Some? && exists values :: GasWorth(gas, values) && c.gasUsd.value == Total(values))
  {
    GasProblemIff(gas, now, maxAge);
    var c := CandidateFromValues(routeIds, source, destination, sourceAmount, destinationAmount, sourcePrice,
                                 destinationPrice, gas, gasComplete, now, maxAge);
    if sourcePrice.Some? {
      ValuePositive(sourceAmount, sourcePrice.value);
    }
    if Valid(c) {
      ValueIsWorth(sourceAmount, sourcePrice.value);
      ValueIsWorth(destinationAmount, destinationPrice.value);
      var values := GasIsTotal(gas);
    }
  }

  /** Two candidates combine exactly when both are valid and the first hands its asset and amount to the second; the pair is worth
      what the first takes in, what the second gives out, and the gas of both. */
  lemma {:induction false} CombinedIff(first: Candidate, second: Candidate)
    requires WellValued(first) && WellValued(second)
    ensures var c := Combine(first, second);
            && (Valid(c) <==> Valid(first) && Valid(second) && first.destination == second.source
                              && first.destinationAmount == second.sourceAmount)
            && c.routeIds == first.routeIds + second.routeIds && c.source == first.source && c.destination == second.destination
            && c.sourceAmount == first.sourceAmount && c.destinationAmount == second.destinationAmount
            && (Valid(c) ==>
                  && c.sourceUsd == first.sourceUsd && c.destinationUsd == second.destinationUsd
                  && c.gas == first.gas + second.gas && c.gasUsd == Some(first.gasUsd.value + second.gasUsd.value))
  {
    if Valid(first) && Valid(second) && first.destination == second.source && first.destinationAmount == second.sourceAmount {
      var gas := first.gas + second.gas;
      forall i | 0 <= i < |gas| ensures gas[i].price.Some? {
        assert gas[i] == if i < |first.gas| then first.gas[i] else second.gas[i - |first.gas|];
      }
    }
  }

  // ---------------------------------------------------------------- what is chosen

  /** Of two candidates for the same source value and gas, the one that delivers more does not lose more; and it loses less when the
      other one falls short of the source. */
  lemma {:induction false} DeliveringMoreLosesLess(a: Candidate, b: Candidate)
    requires Valid(a) && WellValued(a) && Valid(b) && WellValued(b)
    requires a.sourceUsd == b.sourceUsd && a.gasUsd == b.gasUsd && a.destinationUsd.value >= b.destinationUsd.value
    ensures a.lossUsd.value <= b.lossUsd.value && a.lossPct.value <= b.lossPct.value
    ensures a.destinationUsd.value > b.destinationUsd.value && b.destinationUsd.value < b.sourceUsd.value ==>
              a.lossUsd.value < b.lossUsd.value && a.lossPct.value < b.lossPct.value
  {
    PercentageOrder(a.lossPct.value, b.lossPct.value, a.lossUsd.value, b.lossUsd.value, a.sourceUsd.value);
    PercentageOrder(b.lossPct.value, a.lossPct.value, b.lossUsd.value, a.lossUsd.value, a.sourceUsd.value);
  }

  /** The order of the candidates: the percentage lost, the loss, then chain, contract and decimals of the destination, then the
      route ids. */
  lemma {:induction false} KeyOrder(a: Candidate, b: Candidate)
    requires Valid(a) && Valid(b) && a.destination.Some? && b.destination.Some?
    ensures var x, y := a.destination.value, b.destination.value;
            var sameLoss := a.lossPct == b.lossPct && a.lossUsd == b.lossUsd;
            CompareKeys(a, b) < 0
            <==> || a.lossPct.value < b.lossPct.value
                 || (a.lossPct == b.lossPct && a.lossUsd.value < b.lossUsd.value)
                 || (sameLoss && x.chainId < y.chainId)
                 || (sameLoss && x.chainId == y.chainId && CompareText(x.contractAddress, y.contractAddress) < 0)
                 || (sameLoss && x.chainId == y.chainId && x.contractAddress == y.contractAddress && x.decimals < y.decimals)
                 || (sameLoss && x == y && CompareTexts(a.routeIds, b.routeIds) < 0)
  {
    TextTotal(a.destination.value.contractAddress, b.destination.value.contractAddress);
  }

  /** What is selected loses the least: in percent, and in value among those of the same percentage. */
  lemma {:induction false} SelectLosesLeast(cs: seq<Candidate>, i: nat)
    requires i < |cs| && Valid(cs[i])
    ensures Select(cs).Some?
    ensures var best := Select(cs).value;
            && best.lossPct.value <= cs[i].lossPct.value
            && (best.lossPct == cs[i].lossPct ==> best.lossUsd.value <= cs[i].lossUsd.value)
  {
    SelectIsFirstLeast(cs);
  }

  /** Among candidates for one source value and gas, nothing delivers more than the selected one, unless that one already delivers
      the whole source. */
  lemma {:induction false} SelectDeliversMost(cs: seq<Candidate>, i: nat)
    requires i < |cs| && Valid(cs[i])
    requires forall k | 0 <= k < |cs| && Valid(cs[k]) ::
               WellValued(cs[k]) && cs[k].sourceUsd == cs[i].sourceUsd && cs[k].gasUsd == cs[i].gasUsd
    ensures Select(cs).Some?
    ensures var best := Select(cs).value;
            && cs[i].destinationUsd.Some? && best.destinationUsd.Some? && best.sourceUsd.Some?
            && (cs[i].destinationUsd.value <= best.destinationUsd.value || best.destinationUsd.value >= best.sourceUsd.value)
  {
    SelectIsFirstLeast(cs);
    var best := Select(cs).value;
    SelectLosesLeast(cs, i);
    if cs[i].destinationUsd.value > best.destinationUsd.value {
      DeliveringMoreLosesLess(cs[i], best);
    }
  }

  // ---------------------------------------------------------------- refined choices

  /** The routes of all steps, and their gas. */
  function AllRoutes(prepare: Preparation, steps: seq<string>): seq<string> {
    if steps == [] then [] else prepare(steps[0]).routeIds + AllRoutes(prepare, steps[1..])
  }

  function AllGas(prepare: Preparation, steps: seq<string>): seq<FeeQuote> {
    if steps == [] then [] else prepare(steps[0]).gas + AllGas(prepare, steps[1..])
  }

  /** A choice with exact gas covers every one of its steps: all of them could be prepared, and it has the routes and the gas of
      all. */
  lemma {:induction false} RefinedCoversAllSteps(prepare: Preparation, c: Choice)
    requires c.steps != [] && Valid(Refined(prepare, c))
    ensures forall k | 0 <= k < |c.steps| :: Valid(prepare(c.steps[k]))
    ensures Refined(prepare, c).routeIds == AllRoutes(prepare, c.steps)
    ensures Refined(prepare, c).gas == AllGas(prepare, c.steps)
    ensures Refined(prepare, c).source == prepare(c.steps[0]).source
    ensures Refined(prepare, c).destination == prepare(c.steps[|c.steps| - 1]).destination
  {
    var first := prepare(c.steps[0]);
    assert Valid(first);
    RefinedFromCovers(prepare, first, c.steps[1..], c.candidate);
    RefinedIsValidBefore(prepare, first, c.steps[1..], c.candidate);
    forall k | 0 <= k < |c.steps| ensures Valid(prepare(c.steps[k])) {
      if k > 0 { assert c.steps[1..][k - 1] == c.steps[k]; }
    }
  }

  lemma {:induction false} CombinedCarries(a: Candidate, b: Candidate)
    requires Valid(Combine(a, b))
    ensures Valid(a) && Valid(b) && Combine(a, b).routeIds == a.routeIds + b.routeIds && Combine(a, b).gas == a.gas + b.gas
    ensures Combine(a, b).source == a.source && Combine(a, b).destination == b.destination
  {
  }

  /** Nothing valid comes out of an invalid beginning or an invalid step. */
  lemma {:induction false} RefinedIsValidBefore(prepare: Preparation, current: Candidate, steps: seq<string>, fallback: Candidate)
    requires Valid(RefineFrom(prepare, Some(current), steps, fallback))
    ensures Valid(current) && forall k | 0 <= k < |steps| :: Valid(prepare(steps[k]))
    decreases |steps|
  {
    if steps != [] {
      var next := Combine(current, prepare(steps[0]));
      if Valid(prepare(steps[0])) {
        RefinedIsValidBefore(prepare, next, steps[1..], fallback);
        forall k | 1 <= k < |steps| ensures Valid(prepare(steps[k])) {
          assert steps[1..][k - 1] == steps[k];
        }
      }
      CombinedCarries(current, prepare(steps[0]));
    }
  }

  /** One step of a refinement that ends valid. */
  lemma {:induction false} RefineStep(prepare: Preparation, current: Candidate, steps: seq<string>, fallback: Candidate)
    requires steps != [] && Valid(RefineFrom(prepare, Some(current), steps, fallback))
    ensures var candidate := prepare(steps[0]);
            var next := Combine(current, candidate);
            && RefineFrom(prepare, Some(current), steps, fallback) == RefineFrom(prepare, Some(next), steps[1..], fallback)
            && next.routeIds == current.routeIds + candidate.routeIds && next.gas == current.gas + candidate.gas
            && next.source == current.source && next.destination == candidate.destination
  {
    RefinedIsValidBefore(prepare, current, steps, fallback);
    assert Valid(prepare(steps[0]));
    RefinedIsValidBefore(prepare, Combine(current, prepare(steps[0])), steps[1..], fallback);
    CombinedCarries(current, prepare(steps[0]));
  }

  ghost predicate Carried(r: Candidate, from: Candidate, routes: seq<string>, gas: seq<FeeQuote>, to: Option<Asset>) {
    r.routeIds == from.routeIds + routes && r.gas == from.gas + gas && r.source == from.source && r.destination == to
  }

  lemma {:induction false} RefinedFromCovers(prepare: Preparation, current: Candidate, steps: seq<string>, fallback: Candidate)
    requires Valid(RefineFrom(prepare, Some(current), steps, fallback))
    ensures Carried(RefineFrom(prepare, Some(current), steps, fallback), current, AllRoutes(prepare, steps), AllGas(prepare, steps),
                    if steps == [] then current.destination else prepare(steps[|steps| - 1]).destination)
    decreases |steps|
  {
    if steps == [] {
      assert current.routeIds + [] == current.routeIds && current.gas + [] == current.gas;
    } else {
      var candidate, rest := prepare(steps[0]), steps[1..];
      RefineStep(prepare, current, steps, fallback);
      RefinedFromCovers(prepare, Combine(current, candidate), rest, fallback);
      Regroup(current.routeIds, candidate.routeIds, AllRoutes(prepare, rest));
      Regroup(current.gas, candidate.gas, AllGas(prepare, rest));
    }
  }

  lemma {:induction false} Regroup<T>(a: seq<T>, b: seq<T>, c: seq<T>)
    ensures a + (b + c) == a + b + c
  {
  }

  // ---------------------------------------------------------------- what is refused, and why

  /** Nothing is chosen that was rejected, has no loss, or has gas that is missing, incomplete or without a price. */
  lemma {:induction false} ChosenIsComplete(cs: seq<Candidate>)
    requires Select(cs).Some?
    ensures var best := Select(cs).value;
            && best.reason.None? && best.lossUsd.Some? && best.lossPct.Some? && best.gasComplete && |best.gas| > 0
            && (forall quote | quote in best.gas :: quote.price.Some?)
            && best in cs
  {
    SelectIsFirstLeast(cs);
  }

  /** The first reason that applies is the one given. */
  lemma {:induction false} RejectionReason(routeIds: seq<string>, source: Asset, destination: Asset, sourceAmount: nat,
        destinationAmount: nat, sourcePrice: Option<Price>, destinationPrice: Option<Price>, gas: seq<FeeQuote>, gasComplete: bool,
        now: real, maxAge: real)
    requires sourcePrice.Some? ==> sourcePrice.value.usdPerToken > 0.0
    ensures var reason := CandidateFromValues(routeIds, source, destination, sourceAmount, destinationAmount, sourcePrice,
                                              destinationPrice, gas, gasComplete, now, maxAge).reason;
            && (reason == Some("missing_source_price") <==> sourcePrice.None?)
            && (reason == Some("missing_destination_price") <==> sourcePrice.Some? && destinationPrice.None?)
            && (sourcePrice.Some? && destinationPrice.Some? ==>
                  var known := sourcePrice.value.asset == source && destinationPrice.value.asset == destination;
                  var current := UsablePrice(sourcePrice, now, maxAge) && UsablePrice(destinationPrice, now, maxAge);
                  && (reason == Some("price_identity_mismatch") <==> !known)
                  && (reason == Some("missing_gas_estimate") <==> known && (!gasComplete || gas == []))
                  && (known && gasComplete && gas != [] && !current ==> reason == Some("stale_price"))
                  && (known && gasComplete && gas != [] && current && (forall quote | quote in gas :: UsablePrice(quote.price, now, maxAge)) ==>
                        reason == if sourceAmount == 0 then Some("zero_source_value") else None))
  {
    GasProblemIff(gas, now, maxAge);
    GasProblemKinds(gas, now, maxAge);
    if sourcePrice.Some? {
      ValuePositive(sourceAmount, sourcePrice.value);
    }
    if forall quote | quote in gas :: UsablePrice(quote.price, now, maxAge) {
      assert forall i | 0 <= i < |gas| :: gas[i] in gas;
    }
  }

  lemma {:induction false} GasProblemKinds(gas: seq<FeeQuote>, now: real, maxAge: real)
    ensures GasProblem(gas, now, maxAge) in {None, Some("missing_gas_price"), Some("stale_price")}
  {
    if gas != [] {
      GasProblemKinds(gas[1..], now, maxAge);
    }
  }

  /** The choice is already beaten by the best one before it. */
  predicate Beaten(prepare: Preparation, quoted: seq<Choice>, i: nat)
    requires i < |quoted| && forall k | 0 <= k < |quoted| :: Valid(quoted[k].candidate)
  {
    assert Valid(quoted[i].candidate);
    var best := PrunedWinner(prepare, quoted[..i]);
    best.Some? && best.value.lossPct.value < quoted[i].candidate.lossPct.value
  }

  function Skipped(prepare: Preparation, quoted: seq<Choice>, n: nat): set<nat>
    requires n <= |quoted| && forall k | 0 <= k < |quoted| :: Valid(quoted[k].candidate)
  {
    set i: nat | i < n && Beaten(prepare, quoted, i)
  }

  lemma {:induction false} SkippedGrows(prepare: Preparation, quoted: seq<Choice>, n: nat)
    requires n < |quoted| && forall k | 0 <= k < |quoted| :: Valid(quoted[k].candidate)
    ensures |Skipped(prepare, quoted, n + 1)| == |Skipped(prepare, quoted, n)| + if Beaten(prepare, quoted, n) then 1 else 0
  {
    var before, now := Skipped(prepare, quoted, n), Skipped(prepare, quoted, n + 1);
    forall i: nat ensures i in now <==> i in before || (i == n && Beaten(prepare, quoted, n)) {}
    Grows(before, now, n, Beaten(prepare, quoted, n));
  }

  lemma {:induction false} Grows(before: set<nat>, now: set<nat>, n: nat, more: bool)
    requires n !in before && forall i: nat :: i in now <==> i in before || (i == n && more)
    ensures |now| == |before| + if more then 1 else 0
  {
    assert now == if more then before + {n} else before;
  }

  /** The choices that were skipped are counted: exactly the beaten ones. */
  lemma {:induction false} SkippedAreCounted(prepare: Preparation, quoted: seq<Choice>, n: nat)
    requires n <= |quoted| && forall k | 0 <= k < |quoted| :: Valid(quoted[k].candidate)
    ensures PrunedCount(prepare, quoted[..n]) == |Skipped(prepare, quoted, n)|
  {
    if n > 0 {
      SkippedAreCounted(prepare, quoted, n - 1);
      SkippedGrows(prepare, quoted, n - 1);
      assert quoted[..n][..n - 1] == quoted[..n - 1] && quoted[..n][n - 1] == quoted[n - 1];
    }
  }
}
