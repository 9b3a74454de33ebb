// One firm's state and the firm-level rules of a round: applying a decision
// record at the start of the round (Firm::play_round), the profit trend
// (calc_profit_trend) and the share price formula (set_share_prices).
module Firms {
  import opened Arith

  datatype Result<T, E> = Ok(value: T) | Err(error: E)

  /** The fields of a firm. Every `u32` of the source is a `nat`, the `i32` profit trend an `int`. */
  datatype Firm = Firm(
    name: string,
    sharesRemaining: nat,
    sharesToSell: nat,
    shareMarketBoost: nat,
    sharePrice: nat,
    employees: nat,
    numberToHire: nat,
    wageAmount: nat,
    currentFunds: nat,
    previousFunds: seq<nat>,    // most recent first
    profitTrend: int,
    usefulness: nat,
    servings: nat,
    userPreferenceFulfillment: nat,
    employeePreferenceFulfillment: nat)

  /** The six numbers a firm's owner enters at the start of a round, in the order they are read. */
  datatype Decision = Decision(
    fundsToWagesPercentage: nat,
    numberToHire: nat,
    wageToUsefulness: nat,
    servings: nat,
    wageToPumping: nat,
    sharesToSell: nat)

  /** The ways a decision record aborts the round: three failed `assert!`s and a division by zero. */
  datatype DecisionError = ZeroServings | PercentageAbove100 | WageSharesNot100 | ZeroHires

  predicate Accepted(d: Decision)
  {
    d.servings > 0 && d.fundsToWagesPercentage <= 100 &&
    d.wageToUsefulness + d.wageToPumping == 100 && d.numberToHire > 0
  }

  /** The per-head wage: `pct` percent of the funds, truncated, shared among `hires` people,
      truncated again. It is the largest wage that many people can be paid from that budget. */
  function Wage(funds: nat, pct: nat, hires: nat): (w: nat)
    requires pct <= 100 && hires > 0
    ensures var budget := funds * pct / 100;
      budget <= funds && w * hires <= budget < w * hires + hires
  {
    var budget := funds * pct / 100;
    PercentAtMost(funds, pct);
    DivBounds(budget, hires);
    budget / hires
  }

  /** Usefulness per serving: the workforce's production share spread over the servings, truncated. */
  function UsefulnessPerServing(employees: nat, share: nat, servings: nat): (u: nat)
    requires servings > 0
    ensures u * servings <= employees * share < u * servings + servings
  {
    DivBounds(employees * share, servings);
    employees * share / servings
  }

  /** Production and promotion together never draw on more than the whole workforce. */
  lemma SplitWithinWorkforce(employees: nat, toUsefulness: nat, toPumping: nat, servings: nat)
    requires servings > 0 && toUsefulness + toPumping == 100
    ensures UsefulnessPerServing(employees, toUsefulness, servings) * servings + employees * toPumping
      <= 100 * employees
  {
    assert employees * toUsefulness + employees * toPumping == employees * (toUsefulness + toPumping);
  }

  /** The derivation step of Firm::play_round for an accepted decision: this round's wage,
      usefulness and share promotion, computed from the funds and last round's headcount.
      Only the six round fields change; funds, headcount and history are untouched. */
  function Derive(f: Firm, d: Decision): (g: Firm)
    requires Accepted(d)
    ensures g == f.(wageAmount := g.wageAmount, numberToHire := d.numberToHire,
                    usefulness := g.usefulness, servings := d.servings,
                    shareMarketBoost := f.employees * d.wageToPumping, sharesToSell := d.sharesToSell)
  {
    f.(wageAmount := Wage(f.currentFunds, d.fundsToWagesPercentage, d.numberToHire),
       numberToHire := d.numberToHire,
       usefulness := UsefulnessPerServing(f.employees, d.wageToUsefulness, d.servings),
       servings := d.servings,
       shareMarketBoost := f.employees * d.wageToPumping,
       sharesToSell := d.sharesToSell)
  }

  /** What the derived figures mean: the wage is the largest per-head wage the chosen share of
      the funds pays `numberToHire` people; usefulness per serving is the production share
      spread over the servings, truncated; production and promotion together use at most the
      whole workforce. */
  lemma DeriveBounds(f: Firm, d: Decision)
    requires Accepted(d)
    ensures var g := Derive(f, d);
      var budget := f.currentFunds * d.fundsToWagesPercentage / 100;
      budget <= f.currentFunds &&
      g.wageAmount * d.numberToHire <= budget < g.wageAmount * d.numberToHire + d.numberToHire
    ensures var g := Derive(f, d);
      g.usefulness * d.servings <= f.employees * d.wageToUsefulness < g.usefulness * d.servings + d.servings
    ensures var g := Derive(f, d);
      g.usefulness * d.servings + g.shareMarketBoost <= 100 * f.employees
  {
    SplitWithinWorkforce(f.employees, d.wageToUsefulness, d.wageToPumping, d.servings);
  }

  /** The outcome of Firm::play_round once the decision is read: the three `assert!`s, then the
      division by the hire count, each aborting the round; otherwise the derived firm. */
  function Played(f: Firm, d: Decision): (r: Result<Firm, DecisionError>)
    ensures r.Ok? <==> Accepted(d)
    ensures r.Ok? ==> r.value == Derive(f, d)
    ensures d.servings == 0 ==> r == Err(ZeroServings)
    ensures d.servings > 0 && d.fundsToWagesPercentage > 100 ==> r == Err(PercentageAbove100)
    ensures d.servings > 0 && d.fundsToWagesPercentage <= 100 && d.wageToUsefulness + d.wageToPumping != 100
      ==> r == Err(WageSharesNot100)
    ensures Accepted(d.(numberToHire := 1)) && d.numberToHire == 0 ==> r == Err(ZeroHires)
  {
    if d.servings == 0 then Err(ZeroServings)
    else if d.fundsToWagesPercentage > 100 then Err(PercentageAbove100)
    else if d.wageToUsefulness + d.wageToPumping != 100 then Err(WageSharesNot100)
    else if d.numberToHire == 0 then Err(ZeroHires)
    else Ok(Derive(f, d))
  }

  /** Firm::play_round given the decision record: the checks, then the field assignments in
      the source's order, each derived figure computed from the fields as they stand. */
  method PlayRound(f: Firm, d: Decision) returns (r: Result<Firm, DecisionError>)
    ensures r == Played(f, d)
  {
    if d.servings == 0 {
      return Err(ZeroServings);
    }
    if d.fundsToWagesPercentage > 100 {
      return Err(PercentageAbove100);
    }
    if d.wageToUsefulness + d.wageToPumping != 100 {
      return Err(WageSharesNot100);
    }
    if d.numberToHire == 0 {
      return Err(ZeroHires);
    }
    var firm := f;
    firm := firm.(wageAmount := Wage(firm.currentFunds, d.fundsToWagesPercentage, d.numberToHire));
    firm := firm.(numberToHire := d.numberToHire);
    firm := firm.(usefulness := UsefulnessPerServing(firm.employees, d.wageToUsefulness, d.servings));
    firm := firm.(servings := d.servings);
    firm := firm.(shareMarketBoost := firm.employees * d.wageToPumping);
    firm := firm.(sharesToSell := d.sharesToSell);
    assert firm == Derive(f, d);
    r := Ok(firm);
  }

  /** calc_profit_trend: the mean of the last one to three per-round changes of funds, with
      `previousFunds` most recent first. The changes telescope, so the mean is the change
      since the oldest entry used, divided (toward zero) by the number of rounds it spans. */
  function ProfitTrend(currentFunds: nat, previousFunds: seq<nat>): (trend: int)
    requires |previousFunds| > 0
    ensures var k := Min(|previousFunds|, 3);
      trend == TruncDiv(currentFunds - previousFunds[k - 1], k)
  {
    var first: int := currentFunds - previousFunds[0];
    if |previousFunds| > 2 then
      var second: int := previousFunds[0] as int - previousFunds[1];
      var third: int := previousFunds[1] as int - previousFunds[2];
      TruncDiv(first + second + third, 3)
    else if |previousFunds| > 1 then
      var second: int := previousFunds[0] as int - previousFunds[1];
      TruncDiv(first + second, 2)
    else
      first
  }

  /** The trend reads no history beyond the three most recent entries. */
  lemma ProfitTrendReadsThree(currentFunds: nat, h1: seq<nat>, h2: seq<nat>)
    requires |h1| > 0 && |h2| > 0
    requires Min(|h1|, 3) == Min(|h2|, 3) && h1[..Min(|h1|, 3)] == h2[..Min(|h2|, 3)]
    ensures ProfitTrend(currentFunds, h1) == ProfitTrend(currentFunds, h2)
  {
    var k := Min(|h1|, 3);
    assert h1[k - 1] == h1[..k][k - 1] == h2[..k][k - 1] == h2[k - 1];
  }

  /** The share price set by set_share_prices: funds, trend and promotion together, in hundreds,
      and 0 when a falling trend makes the total negative. */
  function SharePrice(currentFunds: nat, profitTrend: int, boost: nat): (price: nat)
    ensures var total := currentFunds + profitTrend + boost;
      (total <= 0 ==> price == 0) &&
      (0 <= total ==> price * 100 <= total < price * 100 + 100)
  {
    var total := currentFunds + profitTrend + boost;
    if total <= 0 then 0 else total / 100
  }

  /** With a non-negative trend the price is exactly the source's formula. */
  lemma SharePriceExact(currentFunds: nat, profitTrend: int, boost: nat)
    requires profitTrend >= 0
    ensures SharePrice(currentFunds, profitTrend, boost) == (currentFunds + profitTrend + boost) / 100
  {
  }

  /** A lower trend never raises the price. */
  lemma SharePriceMonotone(currentFunds: nat, t1: int, t2: int, boost: nat)
    requires t1 <= t2
    ensures SharePrice(currentFunds, t1, boost) <= SharePrice(currentFunds, t2, boost)
  {
    var a, b := currentFunds + t1 + boost, currentFunds + t2 + boost;
    if 0 < a {
      DivMonotone(a, b, 100);
    }
  }

  /** The price as the source computes it in a release build: the signed trend is cast with
      `as u32`, which turns a negative trend into 2^32 plus the trend, and the `u32` additions
      wrap (a debug build stops with an overflow panic instead whenever they would wrap). */
  function SharePriceAsWritten(currentFunds: nat, profitTrend: int, boost: nat): (price: nat)
    ensures price < U32Modulus / 100 + 1
  {
    AsU32(currentFunds + AsU32(profitTrend) + boost) / 100
  }

  /** Wherever the true total of funds, trend and promotion lies in [0, 2^32), the source's
      release-build price and SharePrice agree, even when an intermediate sum wraps. */
  lemma SharePriceAgrees(currentFunds: nat, profitTrend: int, boost: nat)
    requires currentFunds < U32Modulus && boost < U32Modulus && -0x8000_0000 <= profitTrend
    requires 0 <= currentFunds + profitTrend + boost < U32Modulus
    ensures SharePriceAsWritten(currentFunds, profitTrend, boost) == SharePrice(currentFunds, profitTrend, boost)
  {
    var total := currentFunds + profitTrend + boost;
    if profitTrend < 0 {
      assert AsU32(profitTrend) == profitTrend + U32Modulus;
      assert AsU32(currentFunds + AsU32(profitTrend) + boost) == total;
    }
  }

  /** As written, a trend of -1 on empty funds prices a share at 42949672 where a
      trend of 0 prices it at 0: a falling trend raises the price. */
  lemma FallingTrendRaisesPriceAsWritten()
    ensures SharePriceAsWritten(0, -1, 0) == 42949672
    ensures SharePriceAsWritten(0, 0, 0) == 0
    ensures SharePrice(0, -1, 0) == 0
  {
    assert AsU32(-1) == 4294967295;
    assert AsU32(0 + 4294967295 + 0) == 4294967295;
  }
}
