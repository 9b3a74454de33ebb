// Whole rounds: Market::end_round as the composition of its five stages, and the
// main loop, which plays and resolves rounds one after another. The source's loop
// never ends; here it runs a given number of rounds.
module Rounds {
  import opened Arith
  import opened Firms
  import opened Clearing
  import opened Markets

  /** Both pools are full after a round whatever they held before; the market's parameters
      never change and no firm is ever added. */
  lemma RoundKeepsValid(m: Market)
    ensures var r := RoundResolved(m);
      Valid(r) && SameParameters(m, r) && |r.firms| <= |m.firms|
  {
    var sold := GoodsCleared(m);
    SurvivorsAreSolvent(sold.firms);
  }

  /** The firms left after a round are those solvent once goods were sold, in their original
      order and under their own names, each with the funds it held at the start of the round
      recorded at the head of its history. */
  lemma RoundSurvivors(m: Market)
    ensures var idx := SolventIndices(GoodsCleared(m).firms);
      var r := RoundResolved(m);
      |r.firms| == |idx| &&
      (forall k, l :: 0 <= k < l < |idx| ==> idx[k] < idx[l]) &&
      forall k :: 0 <= k < |idx| ==>
        idx[k] < |m.firms| &&
        r.firms[k].name == m.firms[idx[k]].name &&
        r.firms[k].previousFunds == [m.firms[idx[k]].currentFunds] + m.firms[idx[k]].previousFunds
  {
    var sold := GoodsCleared(m);
    var paid := WagesPaid(sold);
    var priced := SharesPriced(paid);
    var shares := SharesSold(priced);
    var r := LabourCleared(shares);
    assert r == RoundResolved(m);
    var idx := SolventIndices(sold.firms);
    ClearKeepsNames(GoodsStage(m), m.firms, m.usersLeft);
    SolventIndicesExact(sold.firms);
    SurvivorsAreSolvent(sold.firms);
    ClearKeepsNames(LabourStage(shares), shares.firms, shares.workersLeft);
    forall k | 0 <= k < |idx|
      ensures r.firms[k].name == m.firms[idx[k]].name
      ensures r.firms[k].previousFunds == [m.firms[idx[k]].currentFunds] + m.firms[idx[k]].previousFunds
    {
      assert paid.firms[k] == Paid(sold.firms[idx[k]]);
      assert priced.firms[k] == Priced(paid.firms[k]);
      assert shares.firms[k] == SoldShares(priced.firms[k]);
    }
  }

  /** The decisions the owners enter in round `round`, one per firm in list order. Each
      owner answers having seen the whole market displayed, so the answer for firm `i` may
      depend on the round, the market and the firm's position. */
  function DecisionsFor(round: nat, m: Market, decide: (nat, Market, nat) -> Decision): (ds: seq<Decision>)
    ensures |ds| == |m.firms|
  {
    seq(|m.firms|, i requires 0 <= i < |m.firms| => decide(round, m, i))
  }

  /** One round of the main loop: Market::play_round with this round's decisions, then
      Market::end_round. */
  function Round(m: Market, round: nat, decide: (nat, Market, nat) -> Decision): Result<Market, DecisionError>
  {
    match Decided(m.firms, DecisionsFor(round, m, decide))
    case Err(e) => Err(e)
    case Ok(firms) => Ok(RoundResolved(m.(firms := firms)))
  }

  /** A completed round leaves the market valid, with its parameters, and with no more firms
      than before. */
  predicate Keeps(m: Market, r: Result<Market, DecisionError>)
  {
    r.Ok? ==> Valid(r.value) && SameParameters(m, r.value) && |r.value.firms| <= |m.firms|
  }

  lemma RoundKeepsMarket(m: Market, round: nat, decide: (nat, Market, nat) -> Decision)
    ensures Keeps(m, Round(m, round, decide))
  {
    var decided := Decided(m.firms, DecisionsFor(round, m, decide));
    if decided.Ok? {
      RoundKeepsValid(m.(firms := decided.value));
    }
  }

  // The main loop, as the iteration of a round step over the round numbers 0, 1, 2, ...

  /** The first `n` steps from `m`; an error aborts the run. */
  function Iterate(m: Market, n: nat, step: (Market, nat) -> Result<Market, DecisionError>)
    : Result<Market, DecisionError>
    decreases n
  {
    if n == 0 then Ok(m)
    else
      match Iterate(m, n - 1, step)
      case Err(e) => Err(e)
      case Ok(before) => step(before, n - 1)
  }

  /** Once a step fails, no later step runs: the run ends with that error. */
  lemma {:induction false} IterateStopsAtError(m: Market, k: nat, n: nat,
                                               step: (Market, nat) -> Result<Market, DecisionError>)
    requires k <= n && Iterate(m, k, step).Err?
    ensures Iterate(m, n, step) == Iterate(m, k, step)
    decreases n
  {
    if k < n {
      IterateStopsAtError(m, k, n - 1, step);
    }
  }

  /** If every step keeps the market valid, with its parameters and without new firms, so does
      every run; from an invalid start, one step is enough to make it valid. */
  lemma {:induction false} IterateKeeps(m: Market, n: nat, step: (Market, nat) -> Result<Market, DecisionError>)
    requires forall before: Market, k: nat :: Keeps(before, step(before, k))
    ensures var r := Iterate(m, n, step);
      r.Ok? ==> SameParameters(m, r.value) && |r.value.firms| <= |m.firms| &&
                (n > 0 || Valid(m) ==> Valid(r.value))
    decreases n
  {
    if n > 0 {
      IterateKeeps(m, n - 1, step);
      var before := Iterate(m, n - 1, step);
      if before.Ok? {
        assert Keeps(before.value, step(before.value, n - 1));
      }
    }
  }

  /** The round step the owners' input `decide` drives. */
  function RoundStep(decide: (nat, Market, nat) -> Decision): (Market, nat) -> Result<Market, DecisionError>
  {
    (m: Market, round: nat) => Round(m, round, decide)
  }

  /** The first `n` rounds of the main loop, numbered from 0; a rejected decision aborts the
      run. `decide` stands for the owners' input. */
  function Run(m: Market, n: nat, decide: (nat, Market, nat) -> Decision): Result<Market, DecisionError>
  {
    Iterate(m, n, RoundStep(decide))
  }

  /** However many rounds are played, the market keeps its parameters and gains no firm, and
      after at least one round both pools are full; a rejected decision ends the run. */
  lemma RunKeepsValid(m: Market, n: nat, decide: (nat, Market, nat) -> Decision)
    ensures var r := Run(m, n, decide);
      r.Ok? ==> SameParameters(m, r.value) && |r.value.firms| <= |m.firms| &&
                (n > 0 || Valid(m) ==> Valid(r.value))
  {
    var step := RoundStep(decide);
    forall before: Market, k: nat
      ensures Keeps(before, step(before, k))
    {
      RoundKeepsMarket(before, k, decide);
    }
    IterateKeeps(m, n, step);
  }

  /** One pass of the main loop's body. */
  method PlayAndResolve(m: Market, round: nat, decide: (nat, Market, nat) -> Decision)
    returns (r: Result<Market, DecisionError>)
    ensures r == Round(m, round, decide)
  {
    var played := Markets.PlayRound(m, DecisionsFor(round, m, decide));
    if played.Err? {
      return Err(played.error);
    }
    var resolved := EndRound(played.value);
    r := Ok(resolved);
  }

  /** The main loop, stopped after `n` rounds or at the first rejected decision. */
  method RunRounds(m: Market, n: nat, decide: (nat, Market, nat) -> Decision)
    returns (r: Result<Market, DecisionError>)
    ensures r == Run(m, n, decide)
  {
    var market := m;
    for round := 0 to n
      invariant Iterate(m, round, RoundStep(decide)) == Ok(market)
    {
      var next := PlayAndResolve(market, round, decide);
      if next.Err? {
        IterateStopsAtError(m, round + 1, n, RoundStep(decide));
        return Err(next.error);
      }
      market := next.value;
    }
    r := Ok(market);
  }
}
