// The two clearing stages of a round, over the list of firms: sell_goods
// ranks firms by usefulness and lets each in turn sell to the remaining
// users; recruit_employees ranks them by wage and lets each in turn hire
// from the remaining workers. Both number the firms, sort by descending key
// (Ranking), hand the pool out in that order (Allocation), and write each
// firm's outcome back at its own index (Settle).
module Clearing {
  import opened Arith
  import opened Ranking
  import opened Allocation
  import opened Firms

  /** Revenue per unit of goods sold. */
  const UnitPrice: nat := 10

  /** A clearing stage with its floor: the least usefulness users buy, or the least wage workers take. */
  datatype Stage = Goods(minUsefulness: nat) | Labour(minWage: nat)

  /** The key firms are ranked by. */
  function Key(st: Stage, f: Firm): nat
  {
    match st
    case Goods(_) => f.usefulness
    case Labour(_) => f.wageAmount
  }

  function Floor(st: Stage): nat
  {
    match st
    case Goods(minUsefulness) => minUsefulness
    case Labour(minWage) => minWage
  }

  /** Units a firm asks of the pool: servings offered, or workers wanted. */
  function Request(st: Stage, f: Firm): nat
  {
    match st
    case Goods(_) => f.servings
    case Labour(_) => f.numberToHire
  }

  predicate Eligible(st: Stage, f: Firm)
  {
    Key(st, f) >= Floor(st)
  }

  function ClaimOf(st: Stage, f: Firm): Claim
  {
    if Eligible(st, f) then Want(Request(st, f)) else Skip
  }

  /** One firm's outcome when its turn comes and it is granted `units`. Selling goods
      first records the funds the firm holds into its history, whatever it sells; an
      eligible firm is paid for the units and credited with the usefulness it delivered.
      Hiring sets an eligible firm's headcount to the units. An ineligible firm keeps its
      funds, headcount and fulfillment figures. */
  function Serve(st: Stage, f: Firm, units: nat): (r: Firm)
    ensures r.name == f.name && r.sharesRemaining == f.sharesRemaining && r.wageAmount == f.wageAmount
    ensures r.usefulness == f.usefulness && r.servings == f.servings && r.numberToHire == f.numberToHire
    ensures st.Goods? ==> r.previousFunds == [f.currentFunds] + f.previousFunds && f.currentFunds <= r.currentFunds
    ensures st.Labour? ==> r.previousFunds == f.previousFunds && r.currentFunds == f.currentFunds
  {
    match st
    case Goods(_) =>
      var recorded := f.(previousFunds := [f.currentFunds] + f.previousFunds);
      if Eligible(st, f) then
        recorded.(userPreferenceFulfillment := f.usefulness * units,
                  currentFunds := f.currentFunds + UnitPrice * units)
      else recorded
    case Labour(_) =>
      if Eligible(st, f) then
        f.(employeePreferenceFulfillment := f.wageAmount * units, employees := units)
      else f
  }

  function Keys(st: Stage, firms: seq<Firm>): (keys: seq<nat>)
    ensures |keys| == |firms|
    ensures forall i :: 0 <= i < |firms| ==> keys[i] == Key(st, firms[i])
  {
    seq(|firms|, i requires 0 <= i < |firms| => Key(st, firms[i]))
  }

  /** The order the stage serves firms in. */
  function ServingOrder(st: Stage, firms: seq<Firm>): (order: seq<nat>)
    ensures IsRanking(Keys(st, firms), order)
  {
    Rank(Keys(st, firms))
  }

  predicate IndicesOf(firms: seq<Firm>, order: seq<nat>)
  {
    forall p :: 0 <= p < |order| ==> order[p] < |firms|
  }

  predicate Distinct(order: seq<nat>)
  {
    forall p, q :: 0 <= p < q < |order| ==> order[p] != order[q]
  }

  /** In a list without repeats, no entry appears before its own position. */
  lemma NotBefore(order: seq<nat>, p: nat)
    requires Distinct(order) && p < |order|
    ensures order[p] !in order[..p]
  {
    forall q | 0 <= q < p
      ensures order[..p][q] != order[p]
    {
    }
  }

  lemma RankingIsDistinctIndices(st: Stage, firms: seq<Firm>, order: seq<nat>)
    requires IsRanking(Keys(st, firms), order)
    ensures IndicesOf(firms, order) && Distinct(order)
  {
    forall p, q | 0 <= p < q < |order|
      ensures order[p] != order[q]
    {
      RankingDistinct(Keys(st, firms), order, p, q);
    }
  }

  /** The firms' claims in serving order. */
  function Claims(st: Stage, firms: seq<Firm>, order: seq<nat>): (claims: seq<Claim>)
    requires IndicesOf(firms, order)
    ensures |claims| == |order|
    ensures forall p :: 0 <= p < |order| ==> claims[p] == ClaimOf(st, firms[order[p]])
  {
    seq(|order|, p requires 0 <= p < |order| => ClaimOf(st, firms[order[p]]))
  }

  /** Units granted to the firms, in serving order, from a pool of `pool`. */
  function Grants(st: Stage, firms: seq<Firm>, pool: nat): (grants: seq<nat>)
    ensures |grants| == |firms| && Sum(grants) <= pool
  {
    var order := ServingOrder(st, firms);
    RankingIsDistinctIndices(st, firms, order);
    Allocate(Claims(st, firms, order), pool)
  }

  lemma GrantOfClaim(st: Stage, f: Firm, left: nat)
    ensures Grant(ClaimOf(st, f), left) == if Eligible(st, f) then Min(Request(st, f), left) else 0
  {
  }

  /** Writes each served firm's outcome back at its own index, in serving order. */
  function Settle(st: Stage, firms: seq<Firm>, order: seq<nat>, grants: seq<nat>): (r: seq<Firm>)
    requires |grants| == |order| && IndicesOf(firms, order)
    ensures |r| == |firms|
    decreases |order|
  {
    if order == [] then firms
    else
      var k := |order| - 1;
      Settle(st, firms, order[..k], grants[..k])[order[k] := Serve(st, firms[order[k]], grants[k])]
  }

  /** The firms after a clearing stage that starts with `pool` units. */
  function Clear(st: Stage, firms: seq<Firm>, pool: nat): (r: seq<Firm>)
    ensures |r| == |firms|
  {
    var order := ServingOrder(st, firms);
    RankingIsDistinctIndices(st, firms, order);
    Settle(st, firms, order, Grants(st, firms, pool))
  }

  /** Serving one more firm: the settled list after `p + 1` turns is the list after `p` turns
      with the firm at position `p` replaced by its outcome. */
  lemma SettleStep(st: Stage, firms: seq<Firm>, order: seq<nat>, grants: seq<nat>, p: nat)
    requires |grants| == |order| && IndicesOf(firms, order) && Distinct(order) && p < |order|
    ensures Settle(st, firms, order[..p], grants[..p])[order[p]] == firms[order[p]]
    ensures Settle(st, firms, order[..p + 1], grants[..p + 1]) ==
      Settle(st, firms, order[..p], grants[..p])[order[p] := Serve(st, firms[order[p]], grants[p])]
  {
    NotBefore(order, p);
    SettleUntouched(st, firms, order[..p], grants[..p], order[p]);
    assert order[..p + 1][..p] == order[..p] && grants[..p + 1][..p] == grants[..p];
  }

  /** The firms after the first `p` turns of a clearing stage that starts with `pool` units. */
  function Partial(st: Stage, firms: seq<Firm>, pool: nat, p: nat): (r: seq<Firm>)
    requires p <= |firms|
    ensures |r| == |firms|
  {
    var order := ServingOrder(st, firms);
    RankingIsDistinctIndices(st, firms, order);
    Settle(st, firms, order[..p], Grants(st, firms, pool)[..p])
  }

  /** Units handed out in the first `p` turns. */
  function Used(st: Stage, firms: seq<Firm>, pool: nat, p: nat): nat
    requires p <= |firms|
  {
    Sum(Grants(st, firms, pool)[..p])
  }

  /** Before the first turn nothing has changed; after the last, the stage is cleared. */
  lemma PartialEnds(st: Stage, firms: seq<Firm>, pool: nat)
    ensures Partial(st, firms, pool, 0) == firms && Used(st, firms, pool, 0) == 0
    ensures Partial(st, firms, pool, |firms|) == Clear(st, firms, pool)
  {
    var order := ServingOrder(st, firms);
    var grants := Grants(st, firms, pool);
    assert order[..|firms|] == order && grants[..|firms|] == grants;
    assert order[..0] == [];
    assert grants[..0] == [];
  }

  /** Turn `p` of a clearing stage, with `left` units remaining: the firm served is still in its
      initial state, its claim is granted from what is left, and its outcome is the only change. */
  lemma PartialStep(st: Stage, firms: seq<Firm>, pool: nat, p: nat, left: nat)
    requires p < |firms| && Used(st, firms, pool, p) + left == pool
    ensures var i := ServingOrder(st, firms)[p];
      var g := Grant(ClaimOf(st, firms[i]), left);
      Partial(st, firms, pool, p)[i] == firms[i] &&
      Partial(st, firms, pool, p + 1) == Partial(st, firms, pool, p)[i := Serve(st, firms[i], g)] &&
      Used(st, firms, pool, p + 1) == Used(st, firms, pool, p) + g
  {
    var order := ServingOrder(st, firms);
    RankingIsDistinctIndices(st, firms, order);
    var claims := Claims(st, firms, order);
    var grants := Allocate(claims, pool);
    assert Grants(st, firms, pool) == grants;
    assert Partial(st, firms, pool, p) == Settle(st, firms, order[..p], grants[..p]);
    assert Partial(st, firms, pool, p + 1) == Settle(st, firms, order[..p + 1], grants[..p + 1]);
    SettleStep(st, firms, order, grants, p);
    AllocateAtLeft(claims, pool, p, left);
    SumTake(grants, p);
  }

  /** A firm that is not served keeps its state. */
  lemma {:induction false} SettleUntouched(st: Stage, firms: seq<Firm>, order: seq<nat>, grants: seq<nat>, i: nat)
    requires |grants| == |order| && IndicesOf(firms, order)
    requires i < |firms| && i !in order
    ensures Settle(st, firms, order, grants)[i] == firms[i]
    decreases |order|
  {
    if order != [] {
      var k := |order| - 1;
      assert i != order[k];
      assert i !in order[..k];
      SettleUntouched(st, firms, order[..k], grants[..k], i);
    }
  }

  /** The firm served at position `p` ends with the outcome of the units granted at `p`. */
  lemma {:induction false} SettleAt(st: Stage, firms: seq<Firm>, order: seq<nat>, grants: seq<nat>, p: nat)
    requires |grants| == |order| && IndicesOf(firms, order) && Distinct(order)
    requires p < |order|
    ensures Settle(st, firms, order, grants)[order[p]] == Serve(st, firms[order[p]], grants[p])
    decreases |order|
  {
    var k := |order| - 1;
    if p < k {
      assert order[..k][p] == order[p] && grants[..k][p] == grants[p];
      SettleAt(st, firms, order[..k], grants[..k], p);
    }
  }

  /** Per firm, as served in rank order: the outcome of clearing is Serve with the units the
      firm's claim is granted from what the firms ranked before it left of the pool. */
  lemma ClearAt(st: Stage, firms: seq<Firm>, pool: nat, p: nat)
    requires p < |firms|
    ensures var order := ServingOrder(st, firms);
      var grants := Grants(st, firms, pool);
      var f := firms[order[p]];
      Sum(grants[..p]) <= pool &&
      grants[p] == (if Eligible(st, f) then Min(Request(st, f), pool - Sum(grants[..p])) else 0) &&
      Clear(st, firms, pool)[order[p]] == Serve(st, f, grants[p])
  {
    var order := ServingOrder(st, firms);
    RankingIsDistinctIndices(st, firms, order);
    var claims := Claims(st, firms, order);
    var grants := Grants(st, firms, pool);
    assert grants == Allocate(claims, pool);
    AllocateAt(claims, pool, p);
    GrantOfClaim(st, firms[order[p]], pool - Sum(grants[..p]));
    SettleAt(st, firms, order, grants, p);
  }

  /** Every firm is served exactly once: each index appears at one position of the serving order. */
  lemma ClearEach(st: Stage, firms: seq<Firm>, pool: nat, i: nat)
    requires i < |firms|
    ensures exists p :: (0 <= p < |firms| && ServingOrder(st, firms)[p] == i &&
      (forall p' :: 0 <= p' < |firms| && ServingOrder(st, firms)[p'] == i ==> p' == p) &&
      Clear(st, firms, pool)[i] == Serve(st, firms[i], Grants(st, firms, pool)[p]))
  {
    var order := ServingOrder(st, firms);
    RankingIsDistinctIndices(st, firms, order);
    assert i in order;
    var p :| 0 <= p < |order| && order[p] == i;
    forall p' | 0 <= p' < |firms| && order[p'] == i
      ensures p' == p
    {
    }
    ClearAt(st, firms, pool, p);
  }

  /** The serving order is the stable sort by descending key: every firm once, larger keys
      first, equal keys in list order; and it is the only order with that property. */
  lemma ServingOrderIsStableSort(st: Stage, firms: seq<Firm>, order: seq<nat>)
    ensures order == ServingOrder(st, firms) <==>
      (|order| == |firms| &&
       (forall p :: 0 <= p < |order| ==> order[p] < |firms|) &&
       (forall i :: 0 <= i < |firms| ==> i in order) &&
       forall p, q :: 0 <= p < q < |order| && order[p] < |firms| && order[q] < |firms| ==>
         Key(st, firms[order[p]]) > Key(st, firms[order[q]]) ||
         (Key(st, firms[order[p]]) == Key(st, firms[order[q]]) && order[p] < order[q]))
  {
    var keys := Keys(st, firms);
    if |order| == |firms| && (forall p :: 0 <= p < |order| ==> order[p] < |firms|) &&
       (forall i :: 0 <= i < |firms| ==> i in order) &&
       (forall p, q :: 0 <= p < q < |order| && order[p] < |firms| && order[q] < |firms| ==>
         Key(st, firms[order[p]]) > Key(st, firms[order[q]]) ||
         (Key(st, firms[order[p]]) == Key(st, firms[order[q]]) && order[p] < order[q]))
    {
      assert IsRanking(keys, order);
      RankingUnique(keys, order, ServingOrder(st, firms));
    }
  }

  /** Clearing changes no firm's name: every firm stays at its own index. Selling goods records
      every firm's funds in its history; hiring leaves the history alone. */
  lemma ClearKeepsNames(st: Stage, firms: seq<Firm>, pool: nat)
    ensures forall i :: 0 <= i < |firms| ==>
      Clear(st, firms, pool)[i].name == firms[i].name &&
      Clear(st, firms, pool)[i].previousFunds ==
        (if st.Goods? then [firms[i].currentFunds] + firms[i].previousFunds else firms[i].previousFunds)
  {
    forall i | 0 <= i < |firms|
      ensures Clear(st, firms, pool)[i].name == firms[i].name
      ensures Clear(st, firms, pool)[i].previousFunds ==
        (if st.Goods? then [firms[i].currentFunds] + firms[i].previousFunds else firms[i].previousFunds)
    {
      ClearEach(st, firms, pool, i);
    }
  }

  /** What the eligible firms ask of the pool in total. */
  function Demand(st: Stage, firms: seq<Firm>): nat
  {
    var order := ServingOrder(st, firms);
    RankingIsDistinctIndices(st, firms, order);
    TotalRequested(Claims(st, firms, order))
  }

  /** Nothing is wasted: a stage hands out its whole pool, or meets every eligible request. */
  lemma GrantsTotal(st: Stage, firms: seq<Firm>, pool: nat)
    ensures Sum(Grants(st, firms, pool)) == Min(pool, Demand(st, firms))
  {
    var order := ServingOrder(st, firms);
    RankingIsDistinctIndices(st, firms, order);
    AllocateTotal(Claims(st, firms, order), pool);
  }

  /** Once the firms served before position `p` have used up the pool, no later firm gets a unit. */
  lemma GrantsExhausted(st: Stage, firms: seq<Firm>, pool: nat, p: nat, q: nat)
    requires p <= q < |firms| && Sum(Grants(st, firms, pool)[..p]) == pool
    ensures Grants(st, firms, pool)[q] == 0
  {
    var order := ServingOrder(st, firms);
    RankingIsDistinctIndices(st, firms, order);
    AllocateExhausted(Claims(st, firms, order), pool, p, q);
  }

  /** An eligible firm granted less than it asked for empties the pool for every firm after it. */
  lemma GrantsShortfall(st: Stage, firms: seq<Firm>, pool: nat, p: nat, q: nat)
    requires p < q < |firms|
    requires var f := firms[ServingOrder(st, firms)[p]];
      Eligible(st, f) && Grants(st, firms, pool)[p] < Request(st, f)
    ensures Grants(st, firms, pool)[q] == 0
  {
    var order := ServingOrder(st, firms);
    RankingIsDistinctIndices(st, firms, order);
    AllocateShortfall(Claims(st, firms, order), pool, p, q);
  }
}
