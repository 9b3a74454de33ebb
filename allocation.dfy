// Allocating a finite pool by rank: the scheme both clearing stages follow.
// The claims are listed in serving order; each claim in turn takes what it
// asks for while the pool lasts, the claim that meets an insufficient pool
// takes what is left, and every later claim gets nothing. A claim below the
// stage's floor asks for nothing and leaves the pool untouched.
module Allocation {
  import opened Arith

  /** What one firm asks of the pool when its turn comes. */
  datatype Claim = Skip | Want(amount: nat)

  function Requested(c: Claim): nat
  {
    match c
    case Skip => 0
    case Want(n) => n
  }

  /** Total asked for by a list of claims. */
  function TotalRequested(claims: seq<Claim>): nat
  {
    if claims == [] then 0
    else TotalRequested(claims[..|claims| - 1]) + Requested(claims[|claims| - 1])
  }

  /** Units a claim receives when `left` units remain: its whole request when
      the pool covers it, otherwise everything that is left. */
  function Grant(c: Claim, left: nat): (g: nat)
    ensures g <= left && g <= Requested(c)
    ensures g == Requested(c) || g == left
  {
    match c
    case Skip => 0
    case Want(n) => if left >= n then n else left
  }

  /** The units granted to each claim, in serving order, from a pool of `pool` units. */
  function Allocate(claims: seq<Claim>, pool: nat): (grants: seq<nat>)
    ensures |grants| == |claims|
    ensures Sum(grants) <= pool
    decreases |claims|
  {
    if claims == [] then []
    else
      var k := |claims| - 1;
      var before := Allocate(claims[..k], pool);
      var g := Grant(claims[k], pool - Sum(before));
      SumSnoc(before, g);
      before + [g]
  }

  /** Allocating a prefix of the claims grants exactly what the whole allocation grants them. */
  lemma {:induction false} AllocatePrefix(claims: seq<Claim>, pool: nat, p: nat)
    requires p <= |claims|
    ensures Allocate(claims, pool)[..p] == Allocate(claims[..p], pool)
    decreases |claims|
  {
    if p < |claims| {
      var k := |claims| - 1;
      assert claims[..k][..p] == claims[..p];
      AllocatePrefix(claims[..k], pool, p);
      assert Allocate(claims, pool)[..k] == Allocate(claims[..k], pool);
      assert Allocate(claims, pool)[..p] == Allocate(claims, pool)[..k][..p];
    } else {
      assert claims[..p] == claims;
    }
  }

  /** Claim `p` is granted its request, capped by what the claims before it left of the pool. */
  lemma AllocateAt(claims: seq<Claim>, pool: nat, p: nat)
    requires p < |claims|
    ensures var grants := Allocate(claims, pool);
      Sum(grants[..p]) <= pool &&
      grants[p] == Grant(claims[p], pool - Sum(grants[..p]))
  {
    var grants := Allocate(claims, pool);
    var before := Allocate(claims[..p], pool);
    var upto := Allocate(claims[..p + 1], pool);
    assert claims[..p + 1][..p] == claims[..p];
    assert claims[..p + 1][p] == claims[p];
    assert upto == before + [Grant(claims[p], pool - Sum(before))];
    AllocatePrefix(claims, pool, p + 1);
    AllocatePrefix(claims, pool, p);
    assert grants[p] == grants[..p + 1][p] == upto[p];
  }

  /** The same, with what the earlier claims left of the pool named `left`. */
  lemma AllocateAtLeft(claims: seq<Claim>, pool: nat, p: nat, left: nat)
    requires p < |claims| && Sum(Allocate(claims, pool)[..p]) + left == pool
    ensures Allocate(claims, pool)[p] == Grant(claims[p], left)
  {
    AllocateAt(claims, pool, p);
  }

  /** Nothing is wasted: the pool is handed out in full, or every claim is met in full. */
  lemma {:induction false} AllocateTotal(claims: seq<Claim>, pool: nat)
    ensures Sum(Allocate(claims, pool)) == Min(pool, TotalRequested(claims))
    decreases |claims|
  {
    if claims != [] {
      var k := |claims| - 1;
      var before := Allocate(claims[..k], pool);
      AllocateTotal(claims[..k], pool);
      SumSnoc(before, Grant(claims[k], pool - Sum(before)));
    }
  }

  /** Once the claims before position `p` have used up the pool, every claim from `p` on gets nothing. */
  lemma AllocateExhausted(claims: seq<Claim>, pool: nat, p: nat, q: nat)
    requires p <= q < |claims|
    requires Sum(Allocate(claims, pool)[..p]) == pool
    ensures Allocate(claims, pool)[q] == 0
  {
    var grants := Allocate(claims, pool);
    AllocateAt(claims, pool, q);
    assert grants[..q][..p] == grants[..p];
    SumPrefix(grants[..q], p);
  }

  /** A claim granted less than it asked for empties the pool: every later claim gets nothing. */
  lemma AllocateShortfall(claims: seq<Claim>, pool: nat, p: nat, q: nat)
    requires p < q < |claims|
    requires Allocate(claims, pool)[p] < Requested(claims[p])
    ensures Allocate(claims, pool)[q] == 0
  {
    var grants := Allocate(claims, pool);
    AllocateAt(claims, pool, p);
    assert grants[..p + 1] == grants[..p] + [grants[p]];
    SumSnoc(grants[..p], grants[p]);
    AllocateExhausted(claims, pool, p + 1, q);
  }
}
