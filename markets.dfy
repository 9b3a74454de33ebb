// The market and the five stages Market::end_round runs, in order: sell_goods,
// pay_employees, set_share_prices, sell_shares, recruit_employees. Each Rust
// stage takes the market by value and returns the new one; each is modelled
// the same way, as a method over a Market value whose loop mirrors the
// source's, proved equal to a function that states the stage's outcome.
module Markets {
  import opened Arith
  import opened Ranking
  import opened Allocation
  import opened Firms
  import opened Clearing

  datatype Market = Market(
    firms: seq<Firm>,
    laborSupply: nat,
    workersLeft: nat,
    minWage: nat,
    users: nat,
    usersLeft: nat,
    minUsefulnessPerUser: nat)

  /** Between stages both pools are full: each clearing stage refills its pool as it ends. */
  predicate Valid(m: Market)
  {
    m.workersLeft == m.laborSupply && m.usersLeft == m.users
  }

  /** No stage changes the market's sizes and floors. */
  predicate SameParameters(m: Market, r: Market)
  {
    r.laborSupply == m.laborSupply && r.minWage == m.minWage &&
    r.users == m.users && r.minUsefulnessPerUser == m.minUsefulnessPerUser
  }

  /** Every firm has at least one funds entry on record, as the profit trend needs. */
  predicate Recorded(firms: seq<Firm>)
  {
    forall i :: 0 <= i < |firms| ==> firms[i].previousFunds != []
  }

  /** new_market: no firms, both pools full. */
  function NewMarket(laborSupply: nat, minWage: nat, users: nat, minUsefulness: nat): (m: Market)
    ensures Valid(m) && m.firms == []
    ensures m.laborSupply == laborSupply && m.minWage == minWage
    ensures m.users == users && m.minUsefulnessPerUser == minUsefulness
  {
    Market([], laborSupply, laborSupply, minWage, users, users, minUsefulness)
  }

  /** Market::new_firm: appends a firm with the given name, shares and funds and nothing else:
      no employees, no history, no price, nothing produced. */
  function NewFirm(m: Market, name: string, startingShares: nat, startingFunds: nat): (r: Market)
    ensures |r.firms| == |m.firms| + 1 && r.firms[..|m.firms|] == m.firms
    ensures r == m.(firms := r.firms)
    ensures var f := r.firms[|m.firms|];
      f.name == name && f.sharesRemaining == startingShares && f.currentFunds == startingFunds &&
      f.previousFunds == [] && f.profitTrend == 0 &&
      f.sharesToSell == f.shareMarketBoost == f.sharePrice == 0 &&
      f.employees == f.numberToHire == f.wageAmount == 0 &&
      f.usefulness == f.servings == 0 &&
      f.userPreferenceFulfillment == f.employeePreferenceFulfillment == 0
  {
    var f := Firm(
      name := name,
      sharesRemaining := startingShares, sharesToSell := 0, shareMarketBoost := 0, sharePrice := 0,
      employees := 0, numberToHire := 0, wageAmount := 0,
      currentFunds := startingFunds, previousFunds := [], profitTrend := 0,
      usefulness := 0, servings := 0,
      userPreferenceFulfillment := 0, employeePreferenceFulfillment := 0);
    assert (m.firms + [f])[..|m.firms|] == m.firms;
    m.(firms := m.firms + [f])
  }

  // ---------------------------------------------------------------------------
  // Market::play_round: every firm applies its decision, in list order.

  /** The firms after applying one decision each, or the error of the first rejected decision. */
  function Decided(firms: seq<Firm>, decisions: seq<Decision>): (r: Result<seq<Firm>, DecisionError>)
    requires |decisions| == |firms|
    ensures r.Ok? ==> |r.value| == |firms|
    decreases |firms|
  {
    if firms == [] then Ok([])
    else
      var k := |firms| - 1;
      match Decided(firms[..k], decisions[..k])
      case Err(e) => Err(e)
      case Ok(done) =>
        match Firms.Played(firms[k], decisions[k])
        case Err(e) => Err(e)
        case Ok(f) => Ok(done + [f])
  }

  /** A round is accepted exactly when every decision in it is. */
  lemma {:induction false} DecidedAccepts(firms: seq<Firm>, decisions: seq<Decision>)
    requires |decisions| == |firms|
    ensures Decided(firms, decisions).Ok? <==> forall i :: 0 <= i < |firms| ==> Accepted(decisions[i])
    decreases |firms|
  {
    if firms != [] {
      var k := |firms| - 1;
      DecidedAccepts(firms[..k], decisions[..k]);
      assert forall i :: 0 <= i < k ==> decisions[..k][i] == decisions[i];
    }
  }

  /** An accepted round gives each firm exactly what its own decision derives from it. */
  lemma {:induction false} DecidedApplies(firms: seq<Firm>, decisions: seq<Decision>)
    requires |decisions| == |firms| && Decided(firms, decisions).Ok?
    ensures forall i :: 0 <= i < |firms| ==>
      Accepted(decisions[i]) && Decided(firms, decisions).value[i] == Derive(firms[i], decisions[i])
    decreases |firms|
  {
    DecidedAccepts(firms, decisions);
    if firms != [] {
      var k := |firms| - 1;
      DecidedApplies(firms[..k], decisions[..k]);
      var done := Decided(firms[..k], decisions[..k]).value;
      var r := Decided(firms, decisions).value;
      assert r == done + [Derive(firms[k], decisions[k])];
      forall i | 0 <= i < k
        ensures r[i] == Derive(firms[i], decisions[i])
      {
        assert r[i] == done[i] && firms[..k][i] == firms[i] && decisions[..k][i] == decisions[i];
      }
    }
  }

  /** A rejected round reports the error of the first rejected decision. */
  lemma {:induction false} DecidedFirstError(firms: seq<Firm>, decisions: seq<Decision>)
    requires |decisions| == |firms| && Decided(firms, decisions).Err?
    ensures exists i :: (0 <= i < |firms| && !Accepted(decisions[i]) &&
      Decided(firms, decisions) == Err(Firms.Played(firms[i], decisions[i]).error) &&
      forall j :: 0 <= j < i ==> Accepted(decisions[j]))
    decreases |firms|
  {
    var k := |firms| - 1;
    var before := Decided(firms[..k], decisions[..k]);
    if before.Err? {
      DecidedFirstError(firms[..k], decisions[..k]);
      var i :| 0 <= i < k && !Accepted(decisions[..k][i]) &&
        before == Err(Firms.Played(firms[..k][i], decisions[..k][i]).error) &&
        forall j :: 0 <= j < i ==> Accepted(decisions[..k][j]);
      assert forall j :: 0 <= j < i ==> decisions[..k][j] == decisions[j];
      assert Decided(firms, decisions) == before;
    } else {
      DecidedAccepts(firms[..k], decisions[..k]);
      assert forall j :: 0 <= j < k ==> Accepted(decisions[..k][j]);
      assert Decided(firms, decisions) == Err(Firms.Played(firms[k], decisions[k]).error);
    }
  }

  method PlayRound(m: Market, decisions: seq<Decision>) returns (r: Result<Market, DecisionError>)
    requires |decisions| == |m.firms|
    ensures r == match Decided(m.firms, decisions)
                 case Ok(firms) => Ok(m.(firms := firms))
                 case Err(e) => Err(e)
  {
    var firms: seq<Firm> := [];
    for i := 0 to |m.firms|
      invariant Decided(m.firms[..i], decisions[..i]) == Ok(firms)
    {
      assert m.firms[..i + 1][..i] == m.firms[..i] && decisions[..i + 1][..i] == decisions[..i];
      var played := Firms.PlayRound(m.firms[i], decisions[i]);
      if played.Err? {
        PrefixRejected(m.firms, decisions, i + 1);
        return Err(played.error);
      }
      firms := firms + [played.value];
    }
    assert m.firms[..|m.firms|] == m.firms && decisions[..|m.firms|] == decisions;
    r := Ok(m.(firms := firms));
  }

  /** A rejection among the first `n` decisions aborts the whole round with that same error. */
  lemma {:induction false} PrefixRejected(firms: seq<Firm>, decisions: seq<Decision>, n: nat)
    requires |decisions| == |firms| && n <= |firms|
    requires Decided(firms[..n], decisions[..n]).Err?
    ensures Decided(firms, decisions) == Decided(firms[..n], decisions[..n])
    decreases |firms|
  {
    if n < |firms| {
      var k := |firms| - 1;
      assert firms[..k][..n] == firms[..n] && decisions[..k][..n] == decisions[..n];
      PrefixRejected(firms[..k], decisions[..k], n);
      assert Decided(firms[..k], decisions[..k]).Err?;
    } else {
      assert firms[..n] == firms && decisions[..n] == decisions;
    }
  }

  // ---------------------------------------------------------------------------
  // Stage 1, sell_goods.

  function GoodsStage(m: Market): Stage
  {
    Goods(m.minUsefulnessPerUser)
  }

  /** Units each firm sells, in serving order. */
  function UnitsSold(m: Market): (units: seq<nat>)
    ensures |units| == |m.firms| && Sum(units) <= m.usersLeft
  {
    Grants(GoodsStage(m), m.firms, m.usersLeft)
  }

  /** The market after sell_goods: the pool is the users left at entry, and is refilled on exit. */
  function GoodsCleared(m: Market): (r: Market)
    ensures |r.firms| == |m.firms| && Recorded(r.firms)
  {
    var r := m.(firms := Clear(GoodsStage(m), m.firms, m.usersLeft), usersLeft := m.users);
    forall i | 0 <= i < |r.firms|
      ensures r.firms[i].previousFunds != []
    {
      ClearEach(GoodsStage(m), m.firms, m.usersLeft, i);
    }
    r
  }

  /** One turn of sell_goods: the firm at index `i` records its funds, then, if its product is
      useful enough, sells its servings, or what is left of the users when they are fewer. */
  method SellTo(firms: seq<Firm>, i: nat, minUsefulness: nat, usersLeft: nat)
    returns (r: seq<Firm>, left: nat)
    requires i < |firms|
    ensures var sold := Grant(ClaimOf(Goods(minUsefulness), firms[i]), usersLeft);
      r == firms[i := Serve(Goods(minUsefulness), firms[i], sold)] && left + sold == usersLeft
  {
    r, left := firms, usersLeft;
    r := r[i := r[i].(previousFunds := [firms[i].currentFunds] + r[i].previousFunds)];
    var usefulness := r[i].usefulness;
    var servings := r[i].servings;
    if usefulness >= minUsefulness {
      if left >= servings {
        r := r[i := r[i].(userPreferenceFulfillment := usefulness * servings)];
        r := r[i := r[i].(currentFunds := r[i].currentFunds + UnitPrice * servings)];
        left := left - servings;
      } else {
        r := r[i := r[i].(userPreferenceFulfillment := usefulness * left)];
        r := r[i := r[i].(currentFunds := r[i].currentFunds + UnitPrice * left)];
        left := 0;
      }
    }
  }

  method SellGoods(m: Market) returns (r: Market)
    ensures r == GoodsCleared(m)
  {
    var st := GoodsStage(m);
    var order := ServingOrder(st, m.firms);
    var firms := m.firms;
    var usersLeft := m.usersLeft;
    PartialEnds(st, m.firms, m.usersLeft);
    var p := 0;
    while p < |order|
      invariant p <= |order|
      invariant firms == Partial(st, m.firms, m.usersLeft, p)
      invariant Used(st, m.firms, m.usersLeft, p) + usersLeft == m.usersLeft
    {
      PartialStep(st, m.firms, m.usersLeft, p, usersLeft);
      firms, usersLeft := SellTo(firms, order[p], m.minUsefulnessPerUser, usersLeft);
      p := p + 1;
    }
    r := m.(firms := firms, usersLeft := m.users);
  }

  // ---------------------------------------------------------------------------
  // Stage 2, pay_employees.

  /** A firm can pay this round's wage to last round's headcount. */
  predicate Solvent(f: Firm)
  {
    f.wageAmount * f.employees <= f.currentFunds
  }

  function Paid(f: Firm): (g: Firm)
    requires Solvent(f)
    ensures g.currentFunds + f.wageAmount * f.employees == f.currentFunds
    ensures g == f.(currentFunds := g.currentFunds)
  {
    f.(currentFunds := f.currentFunds - f.wageAmount * f.employees)
  }

  /** The firms left after wages are paid, each with its wage bill debited. */
  function Survivors(firms: seq<Firm>): (r: seq<Firm>)
    ensures |r| <= |firms|
    ensures Recorded(firms) ==> Recorded(r)
    decreases |firms|
  {
    if firms == [] then []
    else
      var k := |firms| - 1;
      assert Recorded(firms) ==> Recorded(firms[..k]);
      Survivors(firms[..k]) + (if Solvent(firms[k]) then [Paid(firms[k])] else [])
  }

  /** Indices of the solvent firms, in list order. */
  function SolventIndices(firms: seq<Firm>): (idx: seq<nat>)
    decreases |firms|
  {
    if firms == [] then []
    else
      var k := |firms| - 1;
      SolventIndices(firms[..k]) + (if Solvent(firms[k]) then [k] else [])
  }

  function WagesPaid(m: Market): (r: Market)
    ensures Recorded(m.firms) ==> Recorded(r.firms)
  {
    m.(firms := Survivors(m.firms))
  }

  method PayEmployees(m: Market) returns (r: Market)
    ensures r == WagesPaid(m)
  {
    var firms: seq<Firm> := [];
    for i := 0 to |m.firms|
      invariant firms == Survivors(m.firms[..i])
    {
      assert m.firms[..i + 1][..i] == m.firms[..i];
      var firm := m.firms[i];
      var employeePay := firm.wageAmount * firm.employees;
      if employeePay <= firm.currentFunds {
        firm := firm.(currentFunds := firm.currentFunds - employeePay);
        firms := firms + [firm];
      }
    }
    assert m.firms[..|m.firms|] == m.firms;
    r := m.(firms := firms);
  }

  // ---------------------------------------------------------------------------
  // Stage 3, set_share_prices.

  function Priced(f: Firm): Firm
  {
    f.(sharePrice := SharePrice(f.currentFunds, f.profitTrend, f.shareMarketBoost))
  }

  function SharesPriced(m: Market): (r: Market)
    ensures |r.firms| == |m.firms|
    ensures Recorded(m.firms) ==> Recorded(r.firms)
  {
    m.(firms := seq(|m.firms|, i requires 0 <= i < |m.firms| => Priced(m.firms[i])))
  }

  /** Only the share price of each firm changes; the list keeps its length and order. */
  method SetSharePrices(m: Market) returns (r: Market)
    ensures r == SharesPriced(m)
    ensures r == m.(firms := r.firms) && |r.firms| == |m.firms|
    ensures forall i :: 0 <= i < |m.firms| ==>
      r.firms[i] == m.firms[i].(sharePrice := SharePrice(m.firms[i].currentFunds, m.firms[i].profitTrend,
                                                         m.firms[i].shareMarketBoost))
  {
    var firms: seq<Firm> := [];
    for i := 0 to |m.firms|
      invariant |firms| == i
      invariant forall j :: 0 <= j < i ==> firms[j] == Priced(m.firms[j])
    {
      var firm := m.firms[i];
      firm := firm.(sharePrice := SharePrice(firm.currentFunds, firm.profitTrend, firm.shareMarketBoost));
      firms := firms + [firm];
    }
    r := m.(firms := firms);
  }

  // ---------------------------------------------------------------------------
  // Stage 4, sell_shares.

  /** A firm sells as many of the shares it offers as it has left, at the current price,
      and recomputes its profit trend from the new funds. */
  function SoldShares(f: Firm): (g: Firm)
    requires f.previousFunds != []
    ensures var k := Min(f.sharesToSell, f.sharesRemaining);
      g.sharesRemaining + k == f.sharesRemaining &&
      g.currentFunds == f.currentFunds + f.sharePrice * k &&
      g.profitTrend == ProfitTrend(g.currentFunds, f.previousFunds)
    ensures g == f.(currentFunds := g.currentFunds, sharesRemaining := g.sharesRemaining,
                    profitTrend := g.profitTrend)
  {
    var k := Min(f.sharesToSell, f.sharesRemaining);
    var funds := f.currentFunds + f.sharePrice * k;
    f.(currentFunds := funds, sharesRemaining := f.sharesRemaining - k,
       profitTrend := ProfitTrend(funds, f.previousFunds))
  }

  /** No firm is removed; each sells its shares independently of the others. */
  function SharesSold(m: Market): (r: Market)
    requires Recorded(m.firms)
    ensures r == m.(firms := r.firms) && |r.firms| == |m.firms|
    ensures forall i :: 0 <= i < |m.firms| ==> r.firms[i] == SoldShares(m.firms[i])
  {
    m.(firms := seq(|m.firms|, i requires 0 <= i < |m.firms| => SoldShares(m.firms[i])))
  }

  method SellShares(m: Market) returns (r: Market)
    requires Recorded(m.firms)
    ensures r == SharesSold(m)
  {
    var firms: seq<Firm> := [];
    for i := 0 to |m.firms|
      invariant |firms| == i
      invariant forall j :: 0 <= j < i ==> firms[j] == SoldShares(m.firms[j])
    {
      var firm := m.firms[i];
      if firm.sharesToSell <= firm.sharesRemaining {
        firm := firm.(currentFunds := firm.currentFunds + firm.sharePrice * firm.sharesToSell);
        firm := firm.(sharesRemaining := firm.sharesRemaining - firm.sharesToSell);
      } else {
        firm := firm.(currentFunds := firm.currentFunds + firm.sharePrice * firm.sharesRemaining);
        firm := firm.(sharesRemaining := 0);
      }
      firm := firm.(profitTrend := ProfitTrend(firm.currentFunds, firm.previousFunds));
      firms := firms + [firm];
    }
    r := m.(firms := firms);
  }

  // ---------------------------------------------------------------------------
  // Stage 5, recruit_employees.

  function LabourStage(m: Market): Stage
  {
    Labour(m.minWage)
  }

  /** Workers each firm hires, in serving order. */
  function WorkersHired(m: Market): (hired: seq<nat>)
    ensures |hired| == |m.firms| && Sum(hired) <= m.workersLeft
  {
    Grants(LabourStage(m), m.firms, m.workersLeft)
  }

  /** The market after recruit_employees: the pool is the workers left at entry, refilled on exit. */
  function LabourCleared(m: Market): (r: Market)
    ensures |r.firms| == |m.firms|
  {
    m.(firms := Clear(LabourStage(m), m.firms, m.workersLeft), workersLeft := m.laborSupply)
  }

  /** One turn of recruit_employees: the firm at index `i`, if it pays at least the minimum wage,
      hires the workers it wants, or what is left of them when they are fewer. */
  method HireFor(firms: seq<Firm>, i: nat, minWage: nat, workersLeft: nat)
    returns (r: seq<Firm>, left: nat)
    requires i < |firms|
    ensures var hired := Grant(ClaimOf(Labour(minWage), firms[i]), workersLeft);
      r == firms[i := Serve(Labour(minWage), firms[i], hired)] && left + hired == workersLeft
  {
    r, left := firms, workersLeft;
    var wageAmount := r[i].wageAmount;
    var numberToHire := r[i].numberToHire;
    if wageAmount >= minWage {
      if left >= numberToHire {
        r := r[i := r[i].(employeePreferenceFulfillment := wageAmount * numberToHire)];
        r := r[i := r[i].(employees := numberToHire)];
        left := left - numberToHire;
      } else {
        r := r[i := r[i].(employeePreferenceFulfillment := wageAmount * left)];
        r := r[i := r[i].(employees := left)];
        left := 0;
      }
    }
  }

  method RecruitEmployees(m: Market) returns (r: Market)
    ensures r == LabourCleared(m)
  {
    var st := LabourStage(m);
    var order := ServingOrder(st, m.firms);
    var firms := m.firms;
    var workersLeft := m.workersLeft;
    PartialEnds(st, m.firms, m.workersLeft);
    var p := 0;
    while p < |order|
      invariant p <= |order|
      invariant firms == Partial(st, m.firms, m.workersLeft, p)
      invariant Used(st, m.firms, m.workersLeft, p) + workersLeft == m.workersLeft
    {
      PartialStep(st, m.firms, m.workersLeft, p, workersLeft);
      firms, workersLeft := HireFor(firms, order[p], m.minWage, workersLeft);
      p := p + 1;
    }
    r := m.(firms := firms, workersLeft := m.laborSupply);
  }

  // ---------------------------------------------------------------------------
  // Market::end_round.

  /** The five stages in the source's order. The profit trend is always defined: sell_goods
      records every firm's funds, and the stages after it keep those records. */
  function RoundResolved(m: Market): (r: Market)
    ensures |r.firms| <= |m.firms|
  {
    var sold := GoodsCleared(m);
    var paid := WagesPaid(sold);
    var priced := SharesPriced(paid);
    LabourCleared(SharesSold(priced))
  }

  method EndRound(m: Market) returns (r: Market)
    ensures r == RoundResolved(m)
  {
    r := SellGoods(m);
    r := PayEmployees(r);
    r := SetSharePrices(r);
    r := SellShares(r);
    r := RecruitEmployees(r);
  }

  // ---------------------------------------------------------------------------
  // What each stage does to each firm.

  /** sell_goods for the firm served at position `p` (firms served in order of usefulness):
      its funds are recorded first; a useful enough product sells its servings, capped by the
      users the earlier firms left, for ten each, and sets the fulfillment to usefulness times the
      units sold; a product below the floor sells nothing and leaves funds and fulfillment alone. */
  lemma GoodsServed(m: Market, p: nat)
    requires p < |m.firms|
    ensures var i := ServingOrder(GoodsStage(m), m.firms)[p];
      var f := m.firms[i];
      var sold := UnitsSold(m)[p];
      var g := GoodsCleared(m).firms[i];
      Sum(UnitsSold(m)[..p]) <= m.usersLeft &&
      g.previousFunds == [f.currentFunds] + f.previousFunds &&
      (f.usefulness >= m.minUsefulnessPerUser ==>
         sold == Min(f.servings, m.usersLeft - Sum(UnitsSold(m)[..p])) &&
         g.currentFunds == f.currentFunds + UnitPrice * sold &&
         g.userPreferenceFulfillment == f.usefulness * sold) &&
      (f.usefulness < m.minUsefulnessPerUser ==>
         sold == 0 && g.currentFunds == f.currentFunds &&
         g.userPreferenceFulfillment == f.userPreferenceFulfillment) &&
      g == f.(previousFunds := g.previousFunds, currentFunds := g.currentFunds,
              userPreferenceFulfillment := g.userPreferenceFulfillment)
  {
    ClearAt(GoodsStage(m), m.firms, m.usersLeft, p);
  }

  /** sell_goods as a whole: no more units sold than users left at entry, and all of them unless
      the eligible firms offer fewer; the pool is refilled; firms keep their places and names. */
  lemma GoodsStageTotals(m: Market)
    ensures Sum(UnitsSold(m)) == Min(m.usersLeft, Demand(GoodsStage(m), m.firms))
    ensures var r := GoodsCleared(m);
      r.usersLeft == r.users && r.workersLeft == m.workersLeft && SameParameters(m, r) &&
      |r.firms| == |m.firms| && forall i :: 0 <= i < |m.firms| ==> r.firms[i].name == m.firms[i].name
  {
    GrantsTotal(GoodsStage(m), m.firms, m.usersLeft);
    ClearKeepsNames(GoodsStage(m), m.firms, m.usersLeft);
  }

  /** Once the users run out, every firm served later sells nothing and earns nothing. */
  lemma GoodsSoldOut(m: Market, p: nat, q: nat)
    requires p <= q < |m.firms| && Sum(UnitsSold(m)[..p]) == m.usersLeft
    ensures UnitsSold(m)[q] == 0
    ensures var i := ServingOrder(GoodsStage(m), m.firms)[q];
      GoodsCleared(m).firms[i].currentFunds == m.firms[i].currentFunds
  {
    GrantsExhausted(GoodsStage(m), m.firms, m.usersLeft, p, q);
    GoodsServed(m, q);
  }

  /** A useful enough firm that cannot sell all its servings leaves no users for the less
      useful firms served after it. */
  lemma GoodsShortfall(m: Market, p: nat, q: nat)
    requires p < q < |m.firms|
    requires var f := m.firms[ServingOrder(GoodsStage(m), m.firms)[p]];
      f.usefulness >= m.minUsefulnessPerUser && UnitsSold(m)[p] < f.servings
    ensures UnitsSold(m)[q] == 0
  {
    GrantsShortfall(GoodsStage(m), m.firms, m.usersLeft, p, q);
  }

  /** recruit_employees for the firm served at position `p` (firms served in order of wage):
      a firm paying at least the minimum wage hires what it wants, capped by the workers the
      earlier firms left, as its whole headcount, and its fulfillment is the wage times the hires;
      a firm below the minimum keeps its headcount and fulfillment. */
  lemma LabourServed(m: Market, p: nat)
    requires p < |m.firms|
    ensures var i := ServingOrder(LabourStage(m), m.firms)[p];
      var f := m.firms[i];
      var hired := WorkersHired(m)[p];
      var g := LabourCleared(m).firms[i];
      Sum(WorkersHired(m)[..p]) <= m.workersLeft &&
      (f.wageAmount >= m.minWage ==>
         hired == Min(f.numberToHire, m.workersLeft - Sum(WorkersHired(m)[..p])) &&
         g.employees == hired &&
         g.employeePreferenceFulfillment == f.wageAmount * hired) &&
      (f.wageAmount < m.minWage ==> hired == 0 && g == f) &&
      g == f.(employees := g.employees, employeePreferenceFulfillment := g.employeePreferenceFulfillment)
  {
    ClearAt(LabourStage(m), m.firms, m.workersLeft, p);
  }

  /** recruit_employees as a whole: no more workers hired than were left at entry, and all of
      them unless the eligible firms want fewer; the pool is refilled; firms keep places and names. */
  lemma LabourStageTotals(m: Market)
    ensures Sum(WorkersHired(m)) == Min(m.workersLeft, Demand(LabourStage(m), m.firms))
    ensures var r := LabourCleared(m);
      r.workersLeft == r.laborSupply && r.usersLeft == m.usersLeft && SameParameters(m, r) &&
      |r.firms| == |m.firms| && forall i :: 0 <= i < |m.firms| ==> r.firms[i].name == m.firms[i].name
  {
    GrantsTotal(LabourStage(m), m.firms, m.workersLeft);
    ClearKeepsNames(LabourStage(m), m.firms, m.workersLeft);
  }

  /** Once the workers run out, every firm served later hires nobody. */
  lemma LabourExhausted(m: Market, p: nat, q: nat)
    requires p <= q < |m.firms| && Sum(WorkersHired(m)[..p]) == m.workersLeft
    ensures WorkersHired(m)[q] == 0
  {
    GrantsExhausted(LabourStage(m), m.firms, m.workersLeft, p, q);
  }

  /** A firm paying the minimum wage that cannot hire all it wants leaves no workers for the
      lower-paying firms served after it. */
  lemma LabourShortfall(m: Market, p: nat, q: nat)
    requires p < q < |m.firms|
    requires var f := m.firms[ServingOrder(LabourStage(m), m.firms)[p]];
      f.wageAmount >= m.minWage && WorkersHired(m)[p] < f.numberToHire
    ensures WorkersHired(m)[q] == 0
  {
    GrantsShortfall(LabourStage(m), m.firms, m.workersLeft, p, q);
  }

  /** The solvent indices are exactly the solvent firms' indices, increasing. */
  lemma {:induction false} SolventIndicesExact(firms: seq<Firm>)
    ensures var idx := SolventIndices(firms);
      (forall k :: 0 <= k < |idx| ==> idx[k] < |firms| && Solvent(firms[idx[k]])) &&
      (forall k, l :: 0 <= k < l < |idx| ==> idx[k] < idx[l]) &&
      (forall i :: 0 <= i < |firms| && Solvent(firms[i]) ==> i in idx)
    decreases |firms|
  {
    if firms != [] {
      var k := |firms| - 1;
      var pre := firms[..k];
      var before := SolventIndices(pre);
      SolventIndicesExact(pre);
      var idx := SolventIndices(firms);
      var added: seq<nat> := if Solvent(firms[k]) then [k] else [];
      assert idx == before + added;
      forall j | 0 <= j < |idx|
        ensures idx[j] < |firms| && Solvent(firms[idx[j]])
      {
        if j < |before| {
          assert idx[j] == before[j] && pre[before[j]] == firms[before[j]];
        }
      }
      forall j, l | 0 <= j < l < |idx|
        ensures idx[j] < idx[l]
      {
        if l < |before| {
          assert idx[j] == before[j] && idx[l] == before[l];
        } else {
          assert idx[j] == before[j] < k;
        }
      }
      forall i | 0 <= i < |firms| && Solvent(firms[i])
        ensures i in idx
      {
        if i < k {
          assert pre[i] == firms[i] && i in before;
        } else {
          assert idx[|idx| - 1] == i;
        }
      }
    }
  }

  /** pay_employees keeps exactly the solvent firms (SolventIndicesExact), in their original
      order, each with its wage bill debited. */
  lemma {:induction false} SurvivorsAreSolvent(firms: seq<Firm>)
    ensures var idx := SolventIndices(firms);
      |Survivors(firms)| == |idx| &&
      forall k :: 0 <= k < |idx| ==>
        idx[k] < |firms| && Solvent(firms[idx[k]]) && Survivors(firms)[k] == Paid(firms[idx[k]])
    decreases |firms|
  {
    SolventIndicesExact(firms);
    if firms != [] {
      var k := |firms| - 1;
      var pre := firms[..k];
      SurvivorsAreSolvent(pre);
      SolventIndicesExact(pre);
      var before, kept := SolventIndices(pre), Survivors(pre);
      var idx, r := SolventIndices(firms), Survivors(firms);
      if Solvent(firms[k]) {
        assert r == kept + [Paid(firms[k])] && idx == before + [k];
      } else {
        assert r == kept && idx == before;
      }
      forall j | 0 <= j < |idx|
        ensures r[j] == Paid(firms[idx[j]])
      {
        if j < |before| {
          assert r[j] == kept[j] && idx[j] == before[j] && pre[before[j]] == firms[before[j]];
        }
      }
    }
  }
}
