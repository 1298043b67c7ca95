// Model prices, quota weights and costs: exact decimals as scaled integers, two roundings.
//
// Units: a price is in millionths of a US dollar per million tokens (six decimal places); a weight
// is in ten-thousandths; a cost is in 1e-8 US dollars.

module Prices {
  import opened Basics

  datatype ModelPrice = ModelPrice(input: nat, cachedInput: nat, output: nat)
  datatype ModelRef = ModelRef(provider: string, model: string)
  datatype PriceTable = PriceTable(baseline: ModelRef, models: map<string, map<string, ModelPrice>>)

  const FAKE_PROVIDER := "fake"
  const WEIGHT_ONE := 10_000
  /** One unit of cost (1e-8 dollars) in the unit of tokens times price (1e-12 dollars). */
  const COST_QUANTUM := 10_000

  // ------------------------------------------------------------------ rounding

  /** n / d to the nearest whole number, a tie going up (`ROUND_HALF_UP` for n >= 0). */
  function RoundHalfUp(n: nat, d: nat): (r: nat)
    requires d > 0
    ensures -(d as int) < 2 * (d * r) - 2 * n <= d
  {
    RoundHalfUpBound(n, d);
    (2 * n + d) / (2 * d)
  }

  lemma RoundHalfUpBound(n: nat, d: nat)
    requires d > 0
    ensures var r := (2 * n + d) / (2 * d); r >= 0 && -(d as int) < 2 * (d * r) - 2 * n <= d
  {
    var m := 2 * n + d;
    var r := m / (2 * d);
    assert m == (2 * d) * r + m % (2 * d);
    assert (2 * d) * r == 2 * (d * r);
    Closest(d, 0, r);
  }

  lemma Below(d: nat, a: int, b: int)
    requires a <= b
    ensures d * a <= d * b
  {
  }

  lemma Closest(d: nat, a: int, b: int)
    requires d * a < d * b + d
    ensures a <= b
  {
    if a > b {
      Below(d, b + 1, a);
    }
  }

  /** n / d to the nearest whole number, a tie going to the even one (Decimal's default). */
  function RoundHalfEven(n: nat, d: nat): (r: nat)
    requires d > 0
    ensures -(d as int) <= 2 * (d * r) - 2 * n <= d
    ensures 2 * (n % d) == d ==> r % 2 == 0
  {
    var q := n / d;
    Quotient(n, d);
    if 2 * (n % d) < d || (2 * (n % d) == d && q % 2 == 0) then q else q + 1
  }

  lemma Quotient(n: nat, d: nat)
    requires d > 0
    ensures n / d >= 0 && n == d * (n / d) + n % d && d * (n / d + 1) == d * (n / d) + d
  {
  }

  lemma RoundHalfUpMonotone(n: nat, m: nat, d: nat)
    requires d > 0 && n <= m
    ensures RoundHalfUp(n, d) <= RoundHalfUp(m, d)
  {
    Closest(d, RoundHalfUp(n, d), RoundHalfUp(m, d));
  }

  lemma RoundHalfEvenMonotone(n: nat, m: nat, d: nat)
    requires d > 0 && n <= m
    ensures RoundHalfEven(n, d) <= RoundHalfEven(m, d)
  {
    if n < m {
      Closest(d, RoundHalfEven(n, d), RoundHalfEven(m, d));
    }
  }

  // ------------------------------------------------------------------ the table

  function Listed(models: map<string, map<string, ModelPrice>>, provider: string, model: string): Option<ModelPrice> {
    if provider in models && model in models[provider] then Some(models[provider][model]) else None
  }

  /** The real providers that list a model: the fake provider stands in for one of them. */
  function RealProviders(t: PriceTable, model: string): set<string> {
    set p | p in t.models && p != FAKE_PROVIDER && model in t.models[p]
  }

  lemma OneElement(s: set<string>)
    requires |s| == 1
    ensures exists p :: s == {p}
    ensures forall a, b :: a in s && b in s ==> a == b
  {
    var p :| p in s;
    assert |s - {p}| == 0;
    assert s == {p};
  }

  /** The price of a model; None is the ConfigError. */
  function PriceFor(t: PriceTable, ref: ModelRef): Option<ModelPrice> {
    var own := Listed(t.models, ref.provider, ref.model);
    var others := RealProviders(t, ref.model);
    if own.None? && ref.provider == FAKE_PROVIDER && |others| == 1 then
      OneElement(others);
      var p :| p in others;
      Some(t.models[p][ref.model])
    else own
  }

  predicate Lists(t: PriceTable, provider: string, model: string, price: ModelPrice) {
    provider in t.models && model in t.models[provider] && t.models[provider][model] == price
  }

  lemma OnlyOne(s: set<string>, p: string)
    requires p in s && forall q :: q in s ==> q == p
    ensures |s| == 1
  {
    assert s == {p};
  }

  /** A model is priced as itself; a fake model with no price of its own is priced as the real model
      of that name, and only when exactly one real provider lists it. */
  lemma StandInPrice(t: PriceTable, ref: ModelRef, price: ModelPrice)
    ensures PriceFor(t, ref) == Some(price) <==>
      || Lists(t, ref.provider, ref.model, price)
      || (&& ref.provider == "fake" && !(ref.provider in t.models && ref.model in t.models[ref.provider])
          && exists p :: p != "fake" && Lists(t, p, ref.model, price)
               && forall q :: q in t.models && q != "fake" && ref.model in t.models[q] ==> q == p)
  {
    var others := RealProviders(t, ref.model);
    if |others| == 1 {
      OneElement(others);
      var p :| p in others;
      assert Lists(t, p, ref.model, t.models[p][ref.model]);
      forall q | q in t.models && q != "fake" && ref.model in t.models[q] ensures q == p {
        assert q in others;
      }
    } else {
      forall p | p != "fake" && Lists(t, p, ref.model, price)
        ensures exists q :: q in t.models && q != "fake" && ref.model in t.models[q] && q != p {
        if forall q :: q in others ==> q == p {
          OnlyOne(others, p);
        }
        var q :| q in others && q != p;
      }
    }
  }

  /** Three input tokens to every output token. */
  function Blend(p: ModelPrice): nat {
    3 * p.input + p.output
  }

  /** What `read_price_table` accepts: the baseline is priced and its blended price is not zero. */
  predicate Valid(t: PriceTable) {
    PriceFor(t, t.baseline).Some? && Blend(PriceFor(t, t.baseline).value) > 0
  }

  function BaselineBlend(t: PriceTable): nat
    requires Valid(t)
    ensures BaselineBlend(t) > 0
  {
    Blend(PriceFor(t, t.baseline).value)
  }

  function Weight(t: PriceTable, ref: ModelRef): Option<nat>
    requires Valid(t)
  {
    match PriceFor(t, ref)
    case None => None
    case Some(p) => Some(RoundHalfUp(WEIGHT_ONE * Blend(p), BaselineBlend(t)))
  }

  function ChargedAt(weight: nat, tokens: nat): nat {
    RoundHalfUp(tokens * weight, WEIGHT_ONE)
  }

  function ChargedTokens(t: PriceTable, ref: ModelRef, tokens: nat): Option<nat>
    requires Valid(t)
  {
    match Weight(t, ref)
    case None => None
    case Some(w) => Some(ChargedAt(w, tokens))
  }

  // ------------------------------------------------------------------ charging

  /** A token of the baseline model costs exactly one quota token. */
  lemma BaselineIsChargedOneForOne(t: PriceTable, tokens: nat)
    requires Valid(t)
    ensures Weight(t, t.baseline) == Some(10_000)
    ensures ChargedTokens(t, t.baseline, tokens) == Some(tokens)
  {
    var b := BaselineBlend(t);
    var w := RoundHalfUp(WEIGHT_ONE * b, b);
    Closest(b, w, WEIGHT_ONE);
    Closest(b, WEIGHT_ONE, w);
  }

  lemma ChargedIsMonotone(t: PriceTable, ref: ModelRef, n: nat, m: nat)
    requires Valid(t) && n <= m && Weight(t, ref).Some?
    ensures ChargedTokens(t, ref, n).value <= ChargedTokens(t, ref, m).value
  {
    var w := Weight(t, ref).value;
    Below(w, n, m);
    assert n * w == w * n && m * w == w * m;
    RoundHalfUpMonotone(n * w, m * w, WEIGHT_ONE);
  }

  /** The charge is within tokens / 20000 + 1/2 of tokens times the exact price ratio, where a model's price
      is that of three input tokens and one output token. Both sides
      are multiplied by 20000 times the baseline's blended price, so no fraction is left:
      | charged - tokens * p / b |  <=  tokens / 20000 + 1 / 2. */
  lemma ChargedIsNearExact(t: PriceTable, ref: ModelRef, tokens: nat)
    requires Valid(t) && PriceFor(t, ref).Some?
    ensures var base, own := PriceFor(t, t.baseline).value, PriceFor(t, ref).value;
      var b, p := 3 * base.input + base.output, 3 * own.input + own.output;
      var charged := ChargedTokens(t, ref, tokens).value;
      -(tokens * b + 10_000 * b) <= 20_000 * (b * charged) - 20_000 * (tokens * p) <= tokens * b + 10_000 * b
  {
    var b, p := BaselineBlend(t), Blend(PriceFor(t, ref).value);
    var w := Weight(t, ref).value;
    var charged := ChargedAt(w, tokens);
    var weightGap := 2 * (b * w) - 2 * (WEIGHT_ONE * p);
    var chargeGap := 2 * (WEIGHT_ONE * charged) - 2 * (tokens * w);
    assert -b <= weightGap <= b;
    assert -10_000 <= chargeGap <= 10_000;
    Below(tokens, weightGap, b);
    Below(tokens, -b, weightGap);
    Below(b, chargeGap, 10_000);
    Below(b, -10_000, chargeGap);
    GapsAddUp(b, charged, tokens, w, p);
  }

  lemma GapsAddUp(b: int, charged: int, tokens: int, w: int, p: int)
    ensures 20_000 * (b * charged) - 20_000 * (tokens * p)
         == b * (2 * (10_000 * charged) - 2 * (tokens * w)) + tokens * (2 * (b * w) - 2 * (10_000 * p))
  {
    Spread(b, 20_000 * charged, 2 * (tokens * w));
    Spread(tokens, 2 * (b * w), 20_000 * p);
    Regroup(b, 20_000, charged);
    Regroup(tokens, 20_000, p);
    Regroup(b, 2, tokens * w);
    Regroup(tokens, 2, b * w);
    assert b * (tokens * w) == tokens * (b * w);
  }

  lemma Spread(x: int, y: int, z: int)
    ensures x * (y - z) == x * y - x * z
  {
  }

  lemma Regroup(x: int, k: int, y: int)
    ensures x * (k * y) == k * (x * y)
  {
  }

  function Sum(ns: seq<nat>): nat {
    if ns == [] then 0 else ns[0] + Sum(ns[1..])
  }

  function ChargedSum(weight: nat, calls: seq<nat>): nat {
    if calls == [] then 0 else ChargedAt(weight, calls[0]) + ChargedSum(weight, calls[1..])
  }

  lemma {:induction false} ChargedSumGap(weight: nat, calls: seq<nat>)
    ensures var gap := 20_000 * ChargedSum(weight, calls) - 2 * (Sum(calls) * weight);
      -10_000 * |calls| <= gap <= 10_000 * |calls|
  {
    if calls == [] {
      assert 0 * weight == 0;
    } else {
      ChargedSumGap(weight, calls[1..]);
      var rest := Sum(calls[1..]);
      assert (calls[0] + rest) * weight == calls[0] * weight + rest * weight;
    }
  }

  /** Splitting one call into k moves the total charge by at most (k + 1) / 2 tokens. */
  lemma SplittingMovesTheChargeLittle(weight: nat, calls: seq<nat>)
    ensures -(|calls| + 1) <= 2 * (ChargedSum(weight, calls) - ChargedAt(weight, Sum(calls))) <= |calls| + 1
  {
    ChargedSumGap(weight, calls);
  }

  // ------------------------------------------------------------------ cost

  datatype Tokens = Tokens(input: nat, cached: nat, output: nat)

  function Plus(a: Tokens, b: Tokens): Tokens {
    Tokens(a.input + b.input, a.cached + b.cached, a.output + b.output)
  }

  /** Tokens times price, in 1e-12 dollars: exact. */
  function ExactCost(p: ModelPrice, n: Tokens): nat {
    n.input * p.input + n.cached * p.cachedInput + n.output * p.output
  }

  /** The cost of a call in 1e-8 dollars; within half a unit of the exact cost. */
  function Cost(p: ModelPrice, n: Tokens): (cost: nat)
    ensures var exact := n.input * p.input + n.cached * p.cachedInput + n.output * p.output;
      -10_000 <= 20_000 * cost - 2 * exact <= 10_000
  {
    RoundHalfEven(ExactCost(p, n), COST_QUANTUM)
  }

  lemma CostIsMonotone(p: ModelPrice, a: Tokens, b: Tokens)
    requires a.input <= b.input && a.cached <= b.cached && a.output <= b.output
    ensures Cost(p, a) <= Cost(p, b)
  {
    Below(p.input, a.input, b.input);
    Below(p.cachedInput, a.cached, b.cached);
    Below(p.output, a.output, b.output);
    RoundHalfEvenMonotone(ExactCost(p, a), ExactCost(p, b), COST_QUANTUM);
  }

  function TotalTokens(calls: seq<Tokens>): Tokens {
    if calls == [] then Tokens(0, 0, 0) else Plus(calls[0], TotalTokens(calls[1..]))
  }

  function CostSum(p: ModelPrice, calls: seq<Tokens>): nat {
    if calls == [] then 0 else Cost(p, calls[0]) + CostSum(p, calls[1..])
  }

  lemma ExactCostAdds(p: ModelPrice, a: Tokens, b: Tokens)
    ensures ExactCost(p, Plus(a, b)) == ExactCost(p, a) + ExactCost(p, b)
  {
    assert (a.input + b.input) * p.input == a.input * p.input + b.input * p.input;
    assert (a.cached + b.cached) * p.cachedInput == a.cached * p.cachedInput + b.cached * p.cachedInput;
    assert (a.output + b.output) * p.output == a.output * p.output + b.output * p.output;
  }

  lemma {:induction false} CostSumGap(p: ModelPrice, calls: seq<Tokens>)
    ensures var gap := 20_000 * CostSum(p, calls) - 2 * ExactCost(p, TotalTokens(calls));
      -10_000 * |calls| <= gap <= 10_000 * |calls|
  {
    if calls != [] {
      CostSumGap(p, calls[1..]);
      ExactCostAdds(p, calls[0], TotalTokens(calls[1..]));
    }
  }

  /** The summed costs of k calls are within (k + 1) / 2 units of the cost of all their tokens. */
  lemma SummedCostsAreNearTheCombinedOne(p: ModelPrice, calls: seq<Tokens>)
    ensures -(|calls| + 1) <= 2 * (CostSum(p, calls) - Cost(p, TotalTokens(calls))) <= |calls| + 1
  {
    CostSumGap(p, calls);
  }
}
