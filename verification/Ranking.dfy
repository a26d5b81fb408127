/** Stable ranking of positions by a real key, and rounds over a ranking that visit one position a step. */
module Ranking {

  /** May a position with key x stand before one with key y? */
  predicate Ahead(x: real, y: real, descending: bool) {
    if descending then x >= y else x <= y
  }

  ghost predicate InRange(ranking: seq<nat>, n: nat) {
    forall i :: 0 <= i < |ranking| ==> ranking[i] < n
  }

  /** Put position k behind every position of the ranking it does not strictly precede. */
  function Insert(ranking: seq<nat>, keys: seq<real>, k: nat, descending: bool): seq<nat>
    requires k < |keys| && InRange(ranking, |keys|)
  {
    if ranking == [] then [k]
    else
      var n := |ranking| - 1;
      if Ahead(keys[ranking[n]], keys[k], descending) then ranking + [k]
      else Insert(ranking[..n], keys, k, descending) + [ranking[n]]
  }

  /** The first n positions in the order a stable sort by key gives them. */
  function Rank(keys: seq<real>, n: nat, descending: bool): (ranking: seq<nat>)
    requires n <= |keys|
    ensures |ranking| == n && InRange(ranking, n)
  {
    if n == 0 then []
    else
      InsertInRange(Rank(keys, n - 1, descending), keys, n - 1, descending, n);
      Insert(Rank(keys, n - 1, descending), keys, n - 1, descending)
  }

  lemma {:induction false} InsertMembers(ranking: seq<nat>, keys: seq<real>, k: nat, descending: bool)
    requires k < |keys| && InRange(ranking, |keys|)
    ensures |Insert(ranking, keys, k, descending)| == |ranking| + 1
    ensures forall p: nat :: p in Insert(ranking, keys, k, descending) <==> p in ranking || p == k
  {
    if ranking != [] {
      var n := |ranking| - 1;
      assert ranking == ranking[..n] + [ranking[n]];
      InsertMembers(ranking[..n], keys, k, descending);
    }
  }

  ghost predicate Ranked(ranking: seq<nat>, keys: seq<real>, descending: bool) {
    && (forall i :: 0 <= i < |ranking| ==> ranking[i] < |keys|)
    && (forall i, j :: 0 <= i < j < |ranking| ==> ranking[i] != ranking[j])
    && forall i, j :: 0 <= i < j < |ranking| ==> Ahead(keys[ranking[i]], keys[ranking[j]], descending)
  }

  lemma {:induction false} InsertInRange(ranking: seq<nat>, keys: seq<real>, k: nat, descending: bool, m: nat)
    requires k < |keys| && InRange(ranking, |keys|)
    requires k < m && InRange(ranking, m)
    ensures |Insert(ranking, keys, k, descending)| == |ranking| + 1 && InRange(Insert(ranking, keys, k, descending), m)
  {
    if ranking != [] { InsertInRange(ranking[..|ranking|-1], keys, k, descending, m); }
  }

  lemma AppendRanked(front: seq<nat>, keys: seq<real>, last: nat, descending: bool)
    requires Ranked(front, keys, descending) && last < |keys|
    requires forall i :: 0 <= i < |front| ==> front[i] != last && Ahead(keys[front[i]], keys[last], descending)
    ensures Ranked(front + [last], keys, descending)
  {}

  lemma {:induction false} InsertRanked(ranking: seq<nat>, keys: seq<real>, k: nat, descending: bool)
    requires Ranked(ranking, keys, descending) && k < |keys| && k !in ranking
    requires InRange(ranking, |keys|)
    ensures Ranked(Insert(ranking, keys, k, descending), keys, descending)
  {
    hide Ranked;
    if ranking == [] {
      SingletonRanked(keys, k, descending);
    } else {
      var n := |ranking| - 1;
      var last := ranking[n];
      assert last in ranking;
      PrefixRanked(ranking, keys, descending);
      if Ahead(keys[last], keys[k], descending) {
        LastAhead(ranking, keys, k, descending);
        AppendRanked(ranking, keys, k, descending);
      } else {
        InsertRanked(ranking[..n], keys, k, descending);
        var front := Insert(ranking[..n], keys, k, descending);
        InsertMembers(ranking[..n], keys, k, descending);
        InsertInRange(ranking[..n], keys, k, descending, |keys|);
        hide Insert;
        forall i | 0 <= i < |front| ensures front[i] != last && Ahead(keys[front[i]], keys[last], descending) {
          assert front[i] in front;
          FrontAhead(ranking, keys, k, front[i], descending);
        }
        AppendRanked(front, keys, last, descending);
      }
    }
  }

  lemma SingletonRanked(keys: seq<real>, k: nat, descending: bool)
    requires k < |keys|
    ensures Ranked([k], keys, descending)
  {}

  lemma PrefixRanked(ranking: seq<nat>, keys: seq<real>, descending: bool)
    requires Ranked(ranking, keys, descending) && ranking != []
    ensures Ranked(ranking[..|ranking|-1], keys, descending)
  {}

  lemma LastAhead(ranking: seq<nat>, keys: seq<real>, k: nat, descending: bool)
    requires Ranked(ranking, keys, descending) && ranking != [] && k < |keys| && k !in ranking
    requires Ahead(keys[ranking[|ranking|-1]], keys[k], descending)
    ensures forall i :: 0 <= i < |ranking| ==>
              ranking[i] < |keys| && ranking[i] != k && Ahead(keys[ranking[i]], keys[k], descending)
  {
    forall i | 0 <= i < |ranking|
      ensures ranking[i] < |keys| && ranking[i] != k && Ahead(keys[ranking[i]], keys[k], descending)
    {
      assert ranking[i] in ranking;
      if i < |ranking| - 1 { assert Ahead(keys[ranking[i]], keys[ranking[|ranking|-1]], descending); }
    }
  }

  lemma FrontAhead(ranking: seq<nat>, keys: seq<real>, k: nat, p: nat, descending: bool)
    requires Ranked(ranking, keys, descending) && k < |keys| && k !in ranking && ranking != [] && p < |keys|
    requires p in ranking[..|ranking|-1] || p == k
    requires !Ahead(keys[ranking[|ranking|-1]], keys[k], descending)
    ensures p != ranking[|ranking|-1] && Ahead(keys[p], keys[ranking[|ranking|-1]], descending)
  {
    var n := |ranking| - 1;
    assert ranking[n] in ranking;
    if p != k {
      var j :| 0 <= j < n && ranking[j] == p;
    }
  }

  /** The ranking is a permutation of the positions, in key order. */
  lemma {:induction false} RankIsRanked(keys: seq<real>, n: nat, descending: bool)
    requires n <= |keys|
    ensures Ranked(Rank(keys, n, descending), keys, descending)
    ensures forall p: nat :: p < n ==> p in Rank(keys, n, descending)
  {
    if n > 0 {
      RankIsRanked(keys, n - 1, descending);
      InsertMembers(Rank(keys, n - 1, descending), keys, n - 1, descending);
      InsertRanked(Rank(keys, n - 1, descending), keys, n - 1, descending);
    }
  }

  // ---------------------------------------------------------------- sums along a ranking

  function Sum(s: seq<int>): int {
    if s == [] then 0 else Sum(s[..|s|-1]) + s[|s|-1]
  }

  function SumReal(s: seq<real>): real {
    if s == [] then 0.0 else SumReal(s[..|s|-1]) + s[|s|-1]
  }

  function SumAlong(ranking: seq<nat>, keys: seq<real>): real
    requires InRange(ranking, |keys|)
  {
    if ranking == [] then 0.0
    else
      var n := |ranking| - 1;
      SumAlong(ranking[..n], keys) + keys[ranking[n]]
  }

  lemma {:induction false} SumAlongInsert(ranking: seq<nat>, keys: seq<real>, values: seq<real>, k: nat,
                                          descending: bool)
    requires k < |keys| == |values| && InRange(ranking, |keys|)
    ensures InRange(Insert(ranking, keys, k, descending), |keys|)
    ensures SumAlong(Insert(ranking, keys, k, descending), values) == SumAlong(ranking, values) + values[k]
  {
    InsertMembers(ranking, keys, k, descending);
    if ranking == [] {
      assert [k][..0] == [];
    } else {
      var n := |ranking| - 1;
      assert ranking == ranking[..n] + [ranking[n]];
      if Ahead(keys[ranking[n]], keys[k], descending) {
        assert (ranking + [k])[..n+1] == ranking;
      } else {
        SumAlongInsert(ranking[..n], keys, values, k, descending);
        InsertMembers(ranking[..n], keys, k, descending);
        assert (Insert(ranking[..n], keys, k, descending) + [ranking[n]])[..n+1]
               == Insert(ranking[..n], keys, k, descending);
      }
    }
  }

  lemma SumAlongNothing(values: seq<real>)
    ensures SumAlong([], values) == 0.0
  {}

  /** Along a ranking by whatever keys, values add up to what they do in their own order. */
  lemma {:induction false} SumAlongRank(keys: seq<real>, values: seq<real>, n: nat, descending: bool)
    requires n <= |keys| == |values|
    ensures SumAlong(Rank(keys, n, descending), values) == SumReal(values[..n])
  {
    hide Insert, SumAlong;
    if n == 0 {
      SumAlongNothing(values);
    } else {
      SumAlongRank(keys, values, n - 1, descending);
      SumAlongInsert(Rank(keys, n - 1, descending), keys, values, n - 1, descending);
      assert values[..n][..n-1] == values[..n-1];
    }
  }

  // ---------------------------------------------------------------- rounds

  /** How often position p was visited when `rounds` rounds and the first `offset` positions of the next
      one are done. */
  function Visits(rounds: nat, offset: nat, p: nat): nat {
    rounds + if p < offset then 1 else 0
  }

  /** One step on: the position visited is the offset, and the count of steps stays in step. */
  lemma NextStep(index: nat, rounds: nat, offset: nat, n: nat)
    requires offset < n && index == rounds * n + offset
    ensures index % n == offset
    ensures index + 1 == if offset + 1 == n then (rounds + 1) * n else rounds * n + (offset + 1)
  {
    ModUnique(index, n, rounds, offset);
    assert (rounds + 1) * n == rounds * n + n;
  }

  lemma ModUnique(a: nat, n: nat, q: nat, r: nat)
    requires r < n && a == q * n + r
    ensures a % n == r
  {
    var q', r' := a / n, a % n;
    assert a == q' * n + r';
    if q' < q { Apart(q', q, n); }
    if q < q' { Apart(q, q', n); }
  }

  lemma Apart(a: nat, b: nat, n: nat)
    requires a < b
    ensures a * n + n <= b * n
  {
    assert b * n == a * n + (b - a) * n;
    assert (b - a) * n == n + (b - a - 1) * n;
  }

  lemma RoundsReached(index: nat, rounds: nat, offset: nat, n: nat, m: nat)
    requires offset < n && index == rounds * n + offset && m * n <= index
    ensures m <= rounds
  {
    if rounds < m { Apart(rounds, m, n); }
  }

  /** A value counted down once a visit, but never below `floor`. */
  function CountDown(value: int, floor: int, visits: nat): int {
    if value <= floor then value else if value - visits < floor then floor else value - visits
  }
}
