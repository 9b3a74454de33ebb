// The ranking both clearing stages serve firms in. The source numbers the
// firms, sorts the numbered copies with `sort_by` on a descending key, and
// walks the sorted list. `sort_by` is stable, so the order it yields is the
// list of firm indices sorted by key, largest first, equal keys in their
// original order. Rank builds that list by insertion; RankingUnique shows
// that there is only one such list, so any stable sort gives the same one.
module Ranking {

  /** Index `a` is served before index `b`: a larger key, or an equal key and an earlier position. */
  predicate Precedes(keys: seq<nat>, a: nat, b: nat)
    requires a < |keys| && b < |keys|
  {
    keys[a] > keys[b] || (keys[a] == keys[b] && a < b)
  }

  predicate InRange(keys: seq<nat>, s: seq<nat>)
  {
    forall p :: 0 <= p < |s| ==> s[p] < |keys|
  }

  predicate Sorted(keys: seq<nat>, s: seq<nat>)
    requires InRange(keys, s)
  {
    forall p, q :: 0 <= p < q < |s| ==> Precedes(keys, s[p], s[q])
  }

  /** `order` lists every index of `keys` once, in serving order. */
  predicate IsRanking(keys: seq<nat>, order: seq<nat>)
  {
    |order| == |keys| && InRange(keys, order) && Sorted(keys, order) &&
    forall i :: 0 <= i < |keys| ==> i in order
  }

  /** Places index `x` into the serving order `s`. */
  function Insert(keys: seq<nat>, x: nat, s: seq<nat>): (r: seq<nat>)
    requires x < |keys| && InRange(keys, s) && Sorted(keys, s) && x !in s
    ensures |r| == |s| + 1 && InRange(keys, r) && Sorted(keys, r)
    ensures forall y :: y in r <==> y == x || y in s
  {
    if s == [] then [x]
    else if Precedes(keys, x, s[0]) then [x] + s
    else
      var rest := Insert(keys, x, s[1..]);
      assert forall q :: 0 <= q < |rest| ==> Precedes(keys, s[0], rest[q]) by {
        forall q | 0 <= q < |rest|
          ensures Precedes(keys, s[0], rest[q])
        {
          if rest[q] != x {
            assert rest[q] in s[1..];
            var j :| 0 <= j < |s[1..]| && s[1..][j] == rest[q];
            assert s[j + 1] == rest[q];
          }
        }
      }
      [s[0]] + rest
  }

  /** The serving order of the indices below `n`. */
  function RankBelow(keys: seq<nat>, n: nat): (r: seq<nat>)
    requires n <= |keys|
    ensures |r| == n && InRange(keys, r) && Sorted(keys, r)
    ensures forall y: nat :: y in r <==> y < n
  {
    if n == 0 then [] else Insert(keys, n - 1, RankBelow(keys, n - 1))
  }

  /** The order `sort_by` leaves the numbered firms in. */
  function Rank(keys: seq<nat>): (order: seq<nat>)
    ensures IsRanking(keys, order)
  {
    RankBelow(keys, |keys|)
  }

  /** A ranking never lists an index twice. */
  lemma RankingDistinct(keys: seq<nat>, order: seq<nat>, p: nat, q: nat)
    requires IsRanking(keys, order)
    requires p < |order| && q < |order| && p != q
    ensures order[p] != order[q]
  {
    if p < q {
      assert Precedes(keys, order[p], order[q]);
    } else {
      assert Precedes(keys, order[q], order[p]);
    }
  }

  /** Two rankings that agree before position `p` agree at `p`. */
  lemma SameAtFirstDifference(keys: seq<nat>, o1: seq<nat>, o2: seq<nat>, p: nat)
    requires IsRanking(keys, o1) && IsRanking(keys, o2)
    requires p < |o1| && o1[..p] == o2[..p]
    ensures o1[p] == o2[p]
  {
    var a, b := o1[p], o2[p];
    // b is not among the first p entries of o1, so o1 lists it at p or later.
    forall i | 0 <= i < p
      ensures o1[i] != b
    {
      assert o1[i] == o2[..p][i];
      RankingDistinct(keys, o2, i, p);
    }
    assert b in o1;
    var qb :| 0 <= qb < |o1| && o1[qb] == b;
    assert qb == p || Precedes(keys, a, b);
    // and symmetrically for a in o2.
    forall i | 0 <= i < p
      ensures o2[i] != a
    {
      assert o2[i] == o1[..p][i];
      RankingDistinct(keys, o1, i, p);
    }
    assert a in o2;
    var qa :| 0 <= qa < |o2| && o2[qa] == a;
    assert qa == p || Precedes(keys, b, a);
  }

  /** A ranking is determined by the keys: every stable sort by descending key yields Rank. */
  lemma {:induction false} RankingUnique(keys: seq<nat>, o1: seq<nat>, o2: seq<nat>)
    requires IsRanking(keys, o1) && IsRanking(keys, o2)
    ensures o1 == o2
  {
    var p := 0;
    while p < |o1|
      invariant p <= |o1|
      invariant o1[..p] == o2[..p]
    {
      SameAtFirstDifference(keys, o1, o2, p);
      assert o1[..p + 1] == o1[..p] + [o1[p]];
      assert o2[..p + 1] == o2[..p] + [o2[p]];
      p := p + 1;
    }
    assert o1 == o1[..p] && o2 == o2[..p];
  }
}
