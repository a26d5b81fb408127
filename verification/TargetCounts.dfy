/** Turning a difficulty coefficient into how many questions of each difficulty to look for, and scaling
    counts until they add up to the number of questions. Counts are held in the order of their keys. */
module TargetCounts {
  import opened MarkDistribution
  import opened Ranking

  /** Rounding with ties to the even neighbour. */
  function RoundHalfEven(x: real): int {
    var below := x.Floor;
    var fraction := x - below as real;
    if fraction < 0.5 || (fraction == 0.5 && below % 2 == 0) then below else below + 1
  }

  lemma RoundIsNear(x: real)
    ensures -0.5 <= RoundHalfEven(x) as real - x <= 0.5
  {}

  lemma RoundIsMonotone(x: real, y: real)
    requires x <= y
    ensures RoundHalfEven(x) <= RoundHalfEven(y)
  {
    if x.Floor < y.Floor {
      assert RoundHalfEven(x) <= x.Floor + 1 <= y.Floor <= RoundHalfEven(y);
    }
  }

  lemma RoundKeepsSign(x: real)
    ensures x >= 0.0 ==> RoundHalfEven(x) >= 0
  {
    if x >= 0.0 { RoundIsMonotone(0.0, x); }
  }

  // ---------------------------------------------------------------- scaling counts

  function Quota(target: int, questionCount: nat, total: int): real
    requires total > 0
  {
    questionCount as real * target as real / total as real
  }

  function Rate(questionCount: nat, total: int): (r: real)
    requires total > 0
    ensures r >= 0.0
  {
    questionCount as real / total as real
  }

  function Rounded(targets: seq<int>, questionCount: nat, total: int): (counts: seq<int>)
    requires total > 0
    ensures |counts| == |targets|
  {
    seq(|targets|, i requires 0 <= i < |targets| => RoundHalfEven(Quota(targets[i], questionCount, total)))
  }

  function AsReals(s: seq<int>): (r: seq<real>)
    ensures |r| == |s| && forall i :: 0 <= i < |s| ==> r[i] == s[i] as real
  {
    seq(|s|, i requires 0 <= i < |s| => s[i] as real)
  }

  lemma QuotaIsScaled(target: int, questionCount: nat, total: int)
    requires total > 0
    ensures Quota(target, questionCount, total) == target as real * Rate(questionCount, total)
    ensures total as real * Rate(questionCount, total) == questionCount as real
  {}

  lemma QuotaIsMonotone(a: int, b: int, questionCount: nat, total: int)
    requires total > 0 && a <= b
    ensures Quota(a, questionCount, total) <= Quota(b, questionCount, total)
  {
    QuotaIsScaled(a, questionCount, total);
    QuotaIsScaled(b, questionCount, total);
    var c := Rate(questionCount, total);
    ProductOrder(a as real, b as real, c);
  }

  lemma ProductOrder(a: real, b: real, c: real)
    requires a <= b && c >= 0.0
    ensures a * c <= b * c
  {
    assert (b - a) * c >= 0.0;
  }

  lemma RoundedInOrder(targets: seq<int>, questionCount: nat, total: int, i: nat, j: nat)
    requires total > 0 && i < |targets| && j < |targets| && targets[i] >= targets[j]
    ensures Rounded(targets, questionCount, total)[i] >= Rounded(targets, questionCount, total)[j]
  {
    hide Quota, RoundHalfEven;
    QuotaIsMonotone(targets[j], targets[i], questionCount, total);
    RoundIsMonotone(Quota(targets[j], questionCount, total), Quota(targets[i], questionCount, total));
  }

  lemma RoundedNonNegative(targets: seq<int>, questionCount: nat, total: int)
    requires total > 0
    ensures forall i :: 0 <= i < |targets| && targets[i] >= 0 ==> Rounded(targets, questionCount, total)[i] >= 0
  {
    hide Quota, RoundHalfEven;
    forall i | 0 <= i < |targets| && targets[i] >= 0 ensures Rounded(targets, questionCount, total)[i] >= 0 {
      QuotaIsMonotone(0, targets[i], questionCount, total);
      QuotaIsScaled(0, questionCount, total);
      RoundKeepsSign(Quota(targets[i], questionCount, total));
    }
  }

  /** Rounding moves the sum by at most half a count for each key. */
  lemma {:induction false} RoundedSum(targets: seq<int>, questionCount: nat, total: int, n: nat)
    requires total > 0 && n <= |targets|
    ensures var quotas := SumReal(Quotas(targets, questionCount, total)[..n]);
            -0.5 * n as real <= Sum(Rounded(targets, questionCount, total)[..n]) as real - quotas <= 0.5 * n as real
  {
    hide RoundHalfEven, Quota, Rounded;
    if n > 0 {
      var quotas, counts := Quotas(targets, questionCount, total), Rounded(targets, questionCount, total);
      RoundedSum(targets, questionCount, total, n - 1);
      assert quotas[..n][..n-1] == quotas[..n-1] && counts[..n][..n-1] == counts[..n-1];
      RoundedAt(targets, questionCount, total, n - 1);
      RoundIsNear(Quota(targets[n-1], questionCount, total));
    }
  }

  function Quotas(targets: seq<int>, questionCount: nat, total: int): (quotas: seq<real>)
    requires total > 0
    ensures |quotas| == |targets|
    ensures forall i :: 0 <= i < |targets| ==> quotas[i] == Quota(targets[i], questionCount, total)
  {
    seq(|targets|, i requires 0 <= i < |targets| => Quota(targets[i], questionCount, total))
  }

  lemma {:induction false} QuotasSum(targets: seq<int>, questionCount: nat, total: int, n: nat)
    requires total > 0 && n <= |targets|
    ensures SumReal(Quotas(targets, questionCount, total)[..n])
            == Sum(targets[..n]) as real * Rate(questionCount, total)
  {
    hide Quota, Rate;
    if n > 0 {
      var quotas := Quotas(targets, questionCount, total);
      QuotasSum(targets, questionCount, total, n - 1);
      assert quotas[..n][..n-1] == quotas[..n-1] && targets[..n][..n-1] == targets[..n-1];
      QuotaIsScaled(targets[n-1], questionCount, total);
      Distributes(Sum(targets[..n-1]), targets[n-1], Rate(questionCount, total));
    }
  }

  lemma RoundedAt(targets: seq<int>, questionCount: nat, total: int, i: nat)
    requires total > 0 && i < |targets|
    ensures Rounded(targets, questionCount, total)[i] == RoundHalfEven(Quota(targets[i], questionCount, total))
  {
    hide RoundHalfEven, Quota;
  }

  lemma Distributes(a: int, b: int, c: real)
    ensures (a + b) as real * c == a as real * c + b as real * c
  {}

  /** At most half of the keys are ever one short. */
  lemma ShortByHalf(targets: seq<int>, questionCount: nat)
    requires Sum(targets) > 0
    ensures 2 * (questionCount - Sum(Rounded(targets, questionCount, Sum(targets)))) <= |targets|
  {
    hide Rounded, Sum, SumReal, Rate, Quota;
    var total := Sum(targets);
    RoundedSum(targets, questionCount, total, |targets|);
    QuotasSum(targets, questionCount, total, |targets|);
    assert targets[..|targets|] == targets;
    assert Quotas(targets, questionCount, total)[..|targets|] == Quotas(targets, questionCount, total);
    assert Rounded(targets, questionCount, total)[..|targets|] == Rounded(targets, questionCount, total);
    QuotaIsScaled(0, questionCount, total);
  }

  /** One half for each key that holds something. */
  function Halves(s: seq<int>): (h: seq<real>)
    ensures |h| == |s| && forall i :: 0 <= i < |h| ==> h[i] == if s[i] > 0 then 0.5 else 0.0
  {
    seq(|s|, i requires 0 <= i < |s| => if s[i] > 0 then 0.5 else 0.0)
  }

  lemma RoundedOne(target: int, questionCount: nat, total: int)
    requires total > 0 && target >= 0
    ensures var quota, count := Quota(target, questionCount, total), RoundHalfEven(Quota(target, questionCount, total));
            && quota - count as real <= (if target > 0 then 0.5 else 0.0)
            && count as real - quota <= (if count > 0 then 0.5 else 0.0)
            && (target == 0 ==> count == 0)
  {
    hide Quota;
    QuotaIsScaled(target, questionCount, total);
    QuotaIsMonotone(0, target, questionCount, total);
    QuotaIsScaled(0, questionCount, total);
    RoundIsNear(Quota(target, questionCount, total));
    RoundKeepsSign(Quota(target, questionCount, total));
  }

  /** Rounding falls short by at most half a count for each key asked for, and exceeds by at most half a count for
      each key that got something. */
  lemma {:induction false} RoundedSumHalves(targets: seq<int>, questionCount: nat, total: int, n: nat)
    requires total > 0 && n <= |targets| && forall i :: 0 <= i < |targets| ==> targets[i] >= 0
    ensures var quotas, counts := SumReal(Quotas(targets, questionCount, total)[..n]),
                                  Rounded(targets, questionCount, total);
            && quotas - Sum(counts[..n]) as real <= SumReal(Halves(targets)[..n])
            && Sum(counts[..n]) as real - quotas <= SumReal(Halves(counts)[..n])
  {
    hide RoundHalfEven, Quota, Rounded, Halves;
    if n > 0 {
      var quotas, counts := Quotas(targets, questionCount, total), Rounded(targets, questionCount, total);
      RoundedSumHalves(targets, questionCount, total, n - 1);
      assert quotas[..n][..n-1] == quotas[..n-1] && counts[..n][..n-1] == counts[..n-1];
      assert Halves(targets)[..n][..n-1] == Halves(targets)[..n-1]
             && Halves(counts)[..n][..n-1] == Halves(counts)[..n-1];
      RoundedAt(targets, questionCount, total, n - 1);
      RoundedOne(targets[n-1], questionCount, total);
    }
  }

  lemma RoundedWithinHalves(targets: seq<int>, questionCount: nat)
    requires Sum(targets) > 0 && forall i :: 0 <= i < |targets| ==> targets[i] >= 0
    ensures var counts := Rounded(targets, questionCount, Sum(targets));
            && (questionCount - Sum(counts)) as real <= SumReal(Halves(targets))
            && (Sum(counts) - questionCount) as real <= SumReal(Halves(counts))
  {
    hide Rounded, Sum, SumReal, Rate, Quota, Halves;
    var total := Sum(targets);
    RoundedSumHalves(targets, questionCount, total, |targets|);
    QuotasSum(targets, questionCount, total, |targets|);
    var counts := Rounded(targets, questionCount, total);
    assert targets[..|targets|] == targets && counts[..|targets|] == counts;
    assert Quotas(targets, questionCount, total)[..|targets|] == Quotas(targets, questionCount, total);
    assert Halves(targets)[..|targets|] == Halves(targets) && Halves(counts)[..|targets|] == Halves(counts);
    QuotaIsScaled(0, questionCount, total);
  }

  // ---------------------------------------------------------------- the repair

  function Largest(s: seq<int>): (m: nat)
    ensures forall i :: 0 <= i < |s| ==> s[i] <= m
  {
    if s == [] then 0
    else
      var m, last := Largest(s[..|s|-1]), s[|s|-1];
      if last > m then last else m
  }

  lemma LoweredCount(counts: seq<int>, start: seq<int>, ranking: seq<nat>, rounds: nat, offset: nat, q: nat)
    requires LoweredBy(counts, start, ranking, rounds, offset, 0) && Covers(ranking, |start|) && q < |start|
    ensures start[q] >= 0 ==> counts[q] >= 0
    ensures start[q] <= rounds ==> counts[q] <= 0
  {
    var p := PositionOf(ranking, |start|, q);
  }

  lemma {:induction false} SumAtMostZero(s: seq<int>)
    requires forall i :: 0 <= i < |s| ==> s[i] <= 0
    ensures Sum(s) <= 0
  {
    if s != [] { SumAtMostZero(s[..|s|-1]); }
  }

  /** While counts still add up to too much, some count is above zero, so a round takes something off. */
  lemma StillLowering(counts: seq<int>, start: seq<int>, ranking: seq<nat>, rounds: nat, offset: nat, index: nat,
                      questionCount: nat)
    requires LoweredBy(counts, start, ranking, rounds, offset, 0) && Covers(ranking, |start|)
    requires offset < |start| && index == rounds * |start| + offset
    requires Sum(counts) > questionCount
    ensures index < Largest(start) * |start|
  {
    hide Sum, Largest, Covers, LoweredBy;
    if Largest(start) <= rounds {
      LoweredShape(counts, start, ranking, rounds, offset);
      forall q | 0 <= q < |counts| ensures counts[q] <= 0 { LoweredCount(counts, start, ranking, rounds, offset, q); }
      SumAtMostZero(counts);
    } else {
      Apart(rounds, Largest(start), |start|);
    }
  }

  lemma LoweredShape(counts: seq<int>, start: seq<int>, ranking: seq<nat>, rounds: nat, offset: nat)
    requires LoweredBy(counts, start, ranking, rounds, offset, 0)
    ensures |counts| == |start|
  {}

  method Adjust(start: seq<int>, ranking: seq<nat>, questionCount: nat)
    returns (counts: seq<int>, ghost rounds: nat, ghost offset: nat)
    requires start != [] && Covers(ranking, |start|)
    requires questionCount - Sum(start) < |start|
    ensures |counts| == |start| && Sum(counts) == questionCount
    ensures Sum(start) <= questionCount ==> RaisedBy(counts, start, ranking, questionCount - Sum(start))
    ensures Sum(start) > questionCount ==> LoweredBy(counts, start, ranking, rounds, offset, 0)
  {
    counts := start;
    rounds, offset := 0, 0;
    var n := |ranking|;
    var difference, index := questionCount - Sum(start), 0;
    while difference != 0 && n > 0
      invariant 0 <= index && |counts| == n
      invariant Sum(counts) == questionCount - difference
      invariant Sum(start) <= questionCount ==>
                  0 <= difference == questionCount - Sum(start) - index && RaisedBy(counts, start, ranking, index)
      invariant Sum(start) > questionCount ==>
                  difference <= 0 && offset < n && index == rounds * n + offset
                      && LoweredBy(counts, start, ranking, rounds, offset, 0)
      decreases if difference > 0 then difference else 0, Largest(start) * n - index
    {
      hide RaisedBy, LoweredBy, Covers, Sum, Largest;
      CoversIsRange(ranking, n);
      if Sum(start) > questionCount {
        StillLowering(counts, start, ranking, rounds, offset, index, questionCount);
        NextStep(index, rounds, offset, n);
      } else {
        SmallMod(index, n);
      }
      var q := ranking[index % n];
      if difference > 0 {
        RaiseStep(counts, start, ranking, index);
        SumUpdate(counts, q, counts[q] + 1);
        counts := counts[q := counts[q] + 1];
        difference := difference - 1;
      } else {
        LowerStep(counts, start, ranking, rounds, offset, 0);
        if counts[q] > 0 {
          SumUpdate(counts, q, counts[q] - 1);
          counts := counts[q := counts[q] - 1];
          difference := difference + 1;
        }
        if offset + 1 == n { rounds, offset := rounds + 1, 0; } else { offset := offset + 1; }
      }
      index := index + 1;
    }
  }

  /** What scaled counts keep of the targets: nothing turns negative, and a larger target never gets fewer. */
  ghost predicate Faithful(counts: seq<int>, targets: seq<int>) {
    && |counts| == |targets|
    && (forall i :: 0 <= i < |targets| && targets[i] >= 0 ==> counts[i] >= 0)
    && forall i, j :: 0 <= i < |targets| && 0 <= j < |targets| && targets[i] > targets[j] ==> counts[i] >= counts[j]
  }

  /** Counts that follow the targets: none negative for a target that is not, and none larger for a smaller one. */
  ghost predicate InStep(counts: seq<int>, targets: seq<int>) {
    && |counts| == |targets|
    && (forall i :: 0 <= i < |targets| && targets[i] >= 0 ==> counts[i] >= 0)
    && forall i, j :: 0 <= i < |targets| && 0 <= j < |targets| && targets[i] >= targets[j] ==> counts[i] >= counts[j]
  }

  lemma StepAt(counts: seq<int>, targets: seq<int>, i: nat)
    requires InStep(counts, targets) && i < |targets|
    ensures targets[i] >= 0 ==> counts[i] >= 0
  {}

  lemma StepPair(counts: seq<int>, targets: seq<int>, i: nat, j: nat)
    requires InStep(counts, targets) && i < |targets| && j < |targets| && targets[i] > targets[j]
    ensures counts[i] >= counts[j]
  {}

  lemma RaisedFaithfully(counts: seq<int>, targets: seq<int>, start: seq<int>, extra: nat)
    requires |start| == |targets| && extra < |start|
    requires InStep(start, targets)
    requires RaisedBy(counts, start, Rank(AsReals(targets), |targets|, true), extra)
    ensures Faithful(counts, targets)
  {
    hide Rank, Ranked, Covers, RaisedBy, InStep;
    var ranking := Rank(AsReals(targets), |targets|, true);
    RankIsRanked(AsReals(targets), |targets|, true);
    RankedCovers(ranking, AsReals(targets), true);
    RaisedShape(counts, start, ranking, extra);
    forall i | 0 <= i < |targets| ensures targets[i] >= 0 ==> counts[i] >= 0 {
      StepAt(start, targets, i);
      RaisedOne(counts, start, ranking, extra, i);
    }
    forall i, j | 0 <= i < |targets| && 0 <= j < |targets| && targets[i] > targets[j] ensures counts[i] >= counts[j] {
      StepPair(start, targets, i, j);
      RaisedPair(counts, start, ranking, AsReals(targets), extra, i, j);
    }
  }

  lemma RankedCovers(ranking: seq<nat>, keys: seq<real>, descending: bool)
    requires Ranked(ranking, keys, descending) && |ranking| == |keys|
    requires forall p: nat :: p < |keys| ==> p in ranking
    ensures Covers(ranking, |keys|)
  {}

  lemma RaisedShape(counts: seq<int>, start: seq<int>, ranking: seq<nat>, extra: nat)
    requires RaisedBy(counts, start, ranking, extra)
    ensures |counts| == |start| == |ranking|
  {}

  lemma RaisedOne(counts: seq<int>, start: seq<int>, ranking: seq<nat>, extra: nat, q: nat)
    requires RaisedBy(counts, start, ranking, extra) && Covers(ranking, |start|) && q < |start|
    ensures |counts| == |start| && start[q] <= counts[q] <= start[q] + 1
  {
    var p := PositionOf(ranking, |start|, q);
  }

  lemma RaisedPair(counts: seq<int>, start: seq<int>, ranking: seq<nat>, keys: seq<real>, extra: nat, i: nat, j: nat)
    requires RaisedBy(counts, start, ranking, extra) && Covers(ranking, |start|) && Ranked(ranking, keys, true)
    requires i < |start| == |keys| && j < |start| && keys[i] > keys[j] && start[i] >= start[j]
    ensures counts[i] >= counts[j]
  {
    var p := PositionOf(ranking, |start|, i);
    var q := PositionOf(ranking, |start|, j);
    assert q < p ==> Ahead(keys[ranking[q]], keys[ranking[p]], true);
  }

  lemma LoweredPair(counts: seq<int>, start: seq<int>, ranking: seq<nat>, keys: seq<real>, rounds: nat, offset: nat,
                    i: nat, j: nat)
    requires LoweredBy(counts, start, ranking, rounds, offset, 0)
    requires Covers(ranking, |start|) && Ranked(ranking, keys, false)
    requires i < |start| == |keys| && j < |start| && keys[i] > keys[j] && start[i] >= start[j]
    ensures counts[i] >= counts[j]
  {
    var p := PositionOf(ranking, |start|, i);
    var q := PositionOf(ranking, |start|, j);
    assert p < q ==> Ahead(keys[ranking[p]], keys[ranking[q]], false);
  }

  lemma LoweredFaithfully(counts: seq<int>, targets: seq<int>, start: seq<int>, rounds: nat, offset: nat)
    requires |start| == |targets|
    requires InStep(start, targets)
    requires LoweredBy(counts, start, Rank(AsReals(targets), |targets|, false), rounds, offset, 0)
    ensures Faithful(counts, targets)
  {
    hide Rank, Ranked, Covers, LoweredBy, InStep;
    var ranking := Rank(AsReals(targets), |targets|, false);
    RankIsRanked(AsReals(targets), |targets|, false);
    RankedCovers(ranking, AsReals(targets), false);
    LoweredShape(counts, start, ranking, rounds, offset);
    forall i | 0 <= i < |targets| ensures targets[i] >= 0 ==> counts[i] >= 0 {
      StepAt(start, targets, i);
      LoweredCount(counts, start, ranking, rounds, offset, i);
    }
    forall i, j | 0 <= i < |targets| && 0 <= j < |targets| && targets[i] > targets[j] ensures counts[i] >= counts[j] {
      StepPair(start, targets, i, j);
      LoweredPair(counts, start, ranking, AsReals(targets), rounds, offset, i, j);
    }
  }

  /** Scaled counts are the rounded quotas, each moved by at most one, all in the same direction; and a key that
      nothing was asked for gets nothing. */
  ghost predicate Near(counts: seq<int>, targets: seq<int>, rounded: seq<int>, questionCount: nat) {
    && |counts| == |targets| == |rounded|
    && (forall i :: 0 <= i < |targets| ==> -1 <= counts[i] - rounded[i] <= 1)
    && (Sum(rounded) <= questionCount ==> forall i :: 0 <= i < |targets| ==> counts[i] >= rounded[i])
    && (Sum(rounded) >= questionCount ==> forall i :: 0 <= i < |targets| ==> counts[i] <= rounded[i])
    && forall i :: 0 <= i < |targets| && targets[i] == 0 ==> counts[i] == 0
  }

  lemma ZeroNotRaised(counts: seq<int>, start: seq<int>, targets: seq<int>, extra: nat, q: nat)
    requires |start| == |targets| && q < |targets| && targets[q] == 0
    requires forall i :: 0 <= i < |targets| ==> targets[i] >= 0
    requires RaisedBy(counts, start, Rank(AsReals(targets), |targets|, true), extra)
    requires extra as real <= SumReal(Halves(targets))
    ensures |counts| == |start| && counts[q] == start[q]
  {
    var ranking := Rank(AsReals(targets), |targets|, true);
    RankIsRanked(AsReals(targets), |targets|, true);
    RankedCovers(ranking, AsReals(targets), true);
    SumAlongRank(AsReals(targets), Halves(targets), |targets|, true);
    assert Halves(targets)[..|targets|] == Halves(targets);
    hide Rank, SumAlong, SumReal;
    var p := PositionOf(ranking, |targets|, q);
    PositivesFirst(ranking, targets, p);
  }

  /** In a descending ranking, what comes before a key that nothing was asked for outweighs the halves of all. */
  lemma PositivesFirst(ranking: seq<nat>, targets: seq<int>, p: nat)
    requires InRange(ranking, |targets|) && Ranked(ranking, AsReals(targets), true) && p < |ranking|
    requires targets[ranking[p]] == 0 && forall i :: 0 <= i < |targets| ==> targets[i] >= 0
    ensures SumAlong(ranking, Halves(targets)) <= p as real
  {
    hide SumAlong;
    forall i | p <= i < |ranking| ensures Halves(targets)[ranking[i]] == 0.0 {
      if p < i { assert Ahead(AsReals(targets)[ranking[p]], AsReals(targets)[ranking[i]], true); }
    }
    hide Ranked, AsReals;
    FewBeforeZero(ranking, Halves(targets), p);
  }

  lemma RaisedNear(counts: seq<int>, targets: seq<int>, start: seq<int>, questionCount: nat)
    requires |start| == |targets| && Sum(start) <= questionCount
    requires forall i :: 0 <= i < |targets| ==> targets[i] >= 0 && (targets[i] == 0 ==> start[i] == 0)
    requires RaisedBy(counts, start, Rank(AsReals(targets), |targets|, true), questionCount - Sum(start))
    requires (questionCount - Sum(start)) as real <= SumReal(Halves(targets))
    requires Sum(start) == questionCount ==> counts == start
    ensures Near(counts, targets, start, questionCount)
  {
    hide Rank, Covers, RaisedBy, Sum, SumReal, Halves, Ranked;
    var ranking := Rank(AsReals(targets), |targets|, true);
    RankIsRanked(AsReals(targets), |targets|, true);
    RankedCovers(ranking, AsReals(targets), true);
    RaisedShape(counts, start, ranking, questionCount - Sum(start));
    forall i | 0 <= i < |targets|
      ensures start[i] <= counts[i] <= start[i] + 1 && (targets[i] == 0 ==> counts[i] == 0)
    {
      RaisedOne(counts, start, ranking, questionCount - Sum(start), i);
      if targets[i] == 0 { ZeroNotRaised(counts, start, targets, questionCount - Sum(start), i); }
    }
  }

  lemma {:induction false} DroppedByEach(counts: seq<int>, start: seq<int>)
    requires |counts| == |start|
    requires forall i :: 0 <= i < |start| ==> counts[i] <= if start[i] > 0 then start[i] - 1 else start[i]
    ensures (Sum(start) - Sum(counts)) as real >= 2.0 * SumReal(Halves(start))
  {
    if start != [] {
      var n := |start| - 1;
      DroppedByEach(counts[..n], start[..n]);
      assert Halves(start)[..n] == Halves(start[..n]);
    }
  }

  lemma LoweredStep(counts: seq<int>, start: seq<int>, ranking: seq<nat>, rounds: nat, offset: nat, q: nat)
    requires LoweredBy(counts, start, ranking, rounds, offset, 0)
    requires Covers(ranking, |start|) && q < |start| && start[q] >= 0
    ensures |counts| == |start| && 0 <= counts[q] <= start[q]
    ensures rounds == 0 ==> counts[q] >= start[q] - 1
    ensures rounds > 0 && start[q] > 0 ==> counts[q] <= start[q] - 1
  {
    var p := PositionOf(ranking, |start|, q);
  }

  lemma LoweredNear(counts: seq<int>, targets: seq<int>, start: seq<int>, rounds: nat, offset: nat, questionCount: nat)
    requires |start| == |targets| && Sum(counts) == questionCount < Sum(start)
    requires forall i :: 0 <= i < |targets| ==> targets[i] >= 0 && start[i] >= 0 && (targets[i] == 0 ==> start[i] == 0)
    requires LoweredBy(counts, start, Rank(AsReals(targets), |targets|, false), rounds, offset, 0)
    requires (Sum(start) - questionCount) as real <= SumReal(Halves(start))
    ensures Near(counts, targets, start, questionCount)
  {
    hide Rank, Covers, LoweredBy, Sum, SumReal, Halves, Ranked;
    var ranking := Rank(AsReals(targets), |targets|, false);
    RankIsRanked(AsReals(targets), |targets|, false);
    RankedCovers(ranking, AsReals(targets), false);
    LoweredShape(counts, start, ranking, rounds, offset);
    forall i | 0 <= i < |targets|
      ensures 0 <= counts[i] <= start[i] && (rounds == 0 ==> counts[i] >= start[i] - 1)
      ensures rounds > 0 && start[i] > 0 ==> counts[i] <= start[i] - 1
    {
      LoweredStep(counts, start, ranking, rounds, offset, i);
    }
    if rounds > 0 { DroppedByEach(counts, start); }
  }

  /** Scale counts so that they add up to the number of questions. */
  method NormalizeTargets(targets: seq<int>, questionCount: nat) returns (counts: seq<int>)
    ensures |counts| == |targets|
    ensures targets != [] ==> Sum(counts) == questionCount
    ensures Sum(targets) == questionCount ==> counts == targets
    ensures Sum(targets) != questionCount && Sum(targets) <= 0 ==>
              forall i :: 0 <= i < |targets| ==> counts[i] == if i == 0 then questionCount else 0
    ensures Sum(targets) > 0 ==> Faithful(counts, targets)
    ensures (Sum(targets) > 0 && Sum(targets) != questionCount
             && forall i :: 0 <= i < |targets| ==> targets[i] >= 0) ==>
              Near(counts, targets, Rounded(targets, questionCount, Sum(targets)), questionCount)
  {
    hide Rank, Sum, Covers, Ranked, RaisedBy, LoweredBy, Rounded, Near, Faithful, Halves, SumReal;
    var total := Sum(targets);
    if targets == [] || total == questionCount {
      SumOfNothing();
      OwnFaithful(targets);
      return targets;
    }
    if total <= 0 {
      counts := seq(|targets|, i requires 0 <= i < |targets| => if i == 0 then questionCount else 0);
      FirstTakesAll(counts, questionCount);
      return;
    }
    var normalized := Rounded(targets, questionCount, total);
    var difference := questionCount - Sum(normalized);
    var orderedKeys := Rank(AsReals(targets), |targets|, difference > 0);
    RankIsRanked(AsReals(targets), |targets|, difference > 0);
    RankedCovers(orderedKeys, AsReals(targets), difference > 0);
    ShortByHalf(targets, questionCount);
    RoundedNonNegative(targets, questionCount, total);
    forall i, j | 0 <= i < |targets| && 0 <= j < |targets| && targets[i] >= targets[j]
      ensures normalized[i] >= normalized[j]
    {
      RoundedInOrder(targets, questionCount, total, i, j);
    }
    ghost var rounds, offset;
    counts, rounds, offset := Adjust(normalized, orderedKeys, questionCount);
    if difference > 0 {
      RaisedFaithfully(counts, targets, normalized, difference);
    } else if difference < 0 {
      LoweredFaithfully(counts, targets, normalized, rounds, offset);
    } else {
      RaisedByNothing(counts, normalized, orderedKeys);
      ExactIsFaithful(counts, targets);
    }
    if forall i :: 0 <= i < |targets| ==> targets[i] >= 0 {
      AdjustedNear(counts, targets, normalized, rounds, offset, questionCount);
    }
  }

  lemma OwnFaithful(targets: seq<int>)
    ensures Faithful(targets, targets)
  {}

  lemma ExactIsFaithful(counts: seq<int>, targets: seq<int>)
    requires InStep(counts, targets)
    ensures Faithful(counts, targets)
  {}

  lemma AdjustedNear(counts: seq<int>, targets: seq<int>, start: seq<int>, rounds: nat, offset: nat, questionCount: nat)
    requires Sum(targets) > 0 && (forall i :: 0 <= i < |targets| ==> targets[i] >= 0)
    requires start == Rounded(targets, questionCount, Sum(targets))
    requires |counts| == |start| && Sum(counts) == questionCount
    requires var difference := questionCount - Sum(start);
             && (difference > 0 ==> RaisedBy(counts, start, Rank(AsReals(targets), |targets|, true), difference))
             && (difference == 0 ==> counts == start)
             && (difference < 0 ==>
                   LoweredBy(counts, start, Rank(AsReals(targets), |targets|, false), rounds, offset, 0))
    ensures Near(counts, targets, start, questionCount)
  {
    hide Rank, Sum, RaisedBy, LoweredBy, Rounded, Near, Halves, SumReal;
    RoundedWithinHalves(targets, questionCount);
    RoundedNonNegative(targets, questionCount, Sum(targets));
    forall i | 0 <= i < |targets| && targets[i] == 0 ensures start[i] == 0 {
      RoundedAt(targets, questionCount, Sum(targets), i);
      RoundedOne(0, questionCount, Sum(targets));
    }
    if questionCount > Sum(start) {
      RaisedNear(counts, targets, start, questionCount);
    } else if questionCount < Sum(start) {
      LoweredNear(counts, targets, start, rounds, offset, questionCount);
    } else {
      ExactNear(counts, targets, questionCount);
    }
  }

  lemma ExactNear(counts: seq<int>, targets: seq<int>, questionCount: nat)
    requires |counts| == |targets| && forall i :: 0 <= i < |targets| && targets[i] == 0 ==> counts[i] == 0
    ensures Near(counts, targets, counts, questionCount)
  {}

  /** Each scaled count lies within one and a half of its exact quota. */
  lemma NearQuota(counts: seq<int>, targets: seq<int>, questionCount: nat, i: nat)
    requires Sum(targets) > 0 && i < |targets|
    requires Near(counts, targets, Rounded(targets, questionCount, Sum(targets)), questionCount)
    ensures -1.5 <= counts[i] as real - Quota(targets[i], questionCount, Sum(targets)) <= 1.5
  {
    hide Sum, RoundHalfEven, Quota;
    RoundIsNear(Quota(targets[i], questionCount, Sum(targets)));
  }

  lemma SumOfNothing()
    ensures Sum([]) == 0
  {}

  lemma {:induction false} FirstTakesAll(counts: seq<int>, questionCount: nat)
    requires counts != []
    requires forall i :: 0 <= i < |counts| ==> counts[i] == if i == 0 then questionCount else 0
    ensures Sum(counts) == questionCount
  {
    if |counts| > 1 { FirstTakesAll(counts[..|counts|-1], questionCount); }
  }

  lemma RaisedByNothing(counts: seq<int>, start: seq<int>, ranking: seq<nat>)
    requires RaisedBy(counts, start, ranking, 0) && Covers(ranking, |start|)
    ensures counts == start
  {
    forall q | 0 <= q < |start| ensures counts[q] == start[q] {
      var p := PositionOf(ranking, |start|, q);
    }
  }

  // ---------------------------------------------------------------- the difficulty coefficient

  /** Easy, medium and hard sit at 0, one half and 1. */
  const ANCHORS := [0.0, 0.5, 1.0]

  function Distance(a: real, b: real): real {
    if a < b then b - a else a - b
  }

  function Closeness(coefficient: real, anchor: real): real {
    if 1.0 - Distance(coefficient, anchor) * 2.0 < 0.0 then 0.0 else 1.0 - Distance(coefficient, anchor) * 2.0
  }

  function DifficultyWeights(coefficient: real): (ws: seq<real>)
    ensures |ws| == 3
  {
    var ws := seq(3, i requires 0 <= i < 3 => Closeness(coefficient, ANCHORS[i]));
    if ws[0] == 0.0 && ws[1] == 0.0 && ws[2] == 0.0 then ws[1 := 1.0] else ws
  }

  /** The first of the nearest anchors. */
  function NearestAnchor(coefficient: real): (k: nat)
    ensures k < 3 && forall i :: 0 <= i < 3 ==> Distance(coefficient, ANCHORS[k]) <= Distance(coefficient, ANCHORS[i])
    ensures forall i :: 0 <= i < k ==> Distance(coefficient, ANCHORS[k]) < Distance(coefficient, ANCHORS[i])
  {
    var d := seq(3, i requires 0 <= i < 3 => Distance(coefficient, ANCHORS[i]));
    if d[0] <= d[1] && d[0] <= d[2] then 0 else if d[1] <= d[2] then 1 else 2
  }

  /** What each difficulty should get: between two anchors the two share the questions by nearness, and the third
      gets none. */
  function ExactShare(coefficient: real, questionCount: nat, k: nat): real
    requires k < 3
  {
    var n := questionCount as real;
    if coefficient <= 0.5 then
      if k == 0 then n * (1.0 - 2.0 * coefficient) else if k == 1 then n * (2.0 * coefficient) else 0.0
    else
      if k == 0 then 0.0 else if k == 1 then n * (2.0 - 2.0 * coefficient) else n * (2.0 * coefficient - 1.0)
  }

  /** Each difficulty gets its exact share, up or down to a neighbouring whole number. */
  ghost predicate SharedOut(counts: seq<int>, coefficient: real, questionCount: nat) {
    && |counts| == 3 && Sum(counts) == questionCount
    && forall k :: 0 <= k < 3 ==>
         counts[k] >= 0 && -0.5 <= counts[k] as real - ExactShare(coefficient, questionCount, k) <= 0.5
  }

  /** Counts for easy, medium and hard questions that add up to the number of questions. */
  method DifficultyTargets(coefficient: real, questionCount: nat) returns (counts: seq<int>)
    ensures |counts| == 3 && Sum(counts) == questionCount
    ensures forall i :: 0 <= i < 3 ==> counts[i] >= 0
    ensures 0.0 <= coefficient <= 1.0 ==> SharedOut(counts, coefficient, questionCount)
  {
    hide Rank, Sum, DifficultyWeights, RoundHalfEven, Near, Rounded, SharedOut;
    var weights := DifficultyWeights(coefficient);
    WeightsNonNegative(coefficient);
    var raw := RawTargets(weights, questionCount);
    if Sum(raw) <= 0 {
      var nearest := NearestAnchor(coefficient);
      SumUpdate(raw, nearest, questionCount);
      SumZeroMeansZeros(raw);
      if 0.0 <= coefficient <= 1.0 { AtMostOne(coefficient, questionCount, raw, nearest); }
      raw := raw[nearest := questionCount];
    }
    counts := NormalizeTargets(raw, questionCount);
    if 0.0 <= coefficient <= 1.0 && Sum(RawTargets(weights, questionCount)) > 0 {
      ScaledShares(coefficient, questionCount, raw, counts);
    }
  }

  lemma WeightsAreShares(coefficient: real, questionCount: nat, k: nat)
    requires 0.0 <= coefficient <= 1.0 && k < 3
    ensures questionCount as real * DifficultyWeights(coefficient)[k] == ExactShare(coefficient, questionCount, k)
  {}

  lemma SharesAddUp(coefficient: real, questionCount: nat)
    requires 0.0 <= coefficient <= 1.0
    ensures var n := questionCount;
            && (forall k :: 0 <= k < 3 ==> ExactShare(coefficient, n, k) >= 0.0)
            && ExactShare(coefficient, n, 0) + ExactShare(coefficient, n, 1) + ExactShare(coefficient, n, 2)
               == n as real
            && ExactShare(coefficient, n, if coefficient <= 0.5 then 2 else 0) == 0.0
  {
    var n := questionCount as real;
    if coefficient <= 0.5 {
      NonNegative(n, 1.0 - 2.0 * coefficient);
      NonNegative(n, 2.0 * coefficient);
    } else {
      NonNegative(n, 2.0 - 2.0 * coefficient);
      NonNegative(n, 2.0 * coefficient - 1.0);
    }
  }

  lemma NonNegative(a: real, b: real)
    requires a >= 0.0 && b >= 0.0
    ensures a * b >= 0.0
  {}

  lemma RawIsRoundedShare(coefficient: real, questionCount: nat, raw: seq<int>, k: nat)
    requires 0.0 <= coefficient <= 1.0 && k < 3
    requires raw == RawTargets(DifficultyWeights(coefficient), questionCount)
    ensures |raw| == 3 && raw[k] == RoundHalfEven(ExactShare(coefficient, questionCount, k)) >= 0
    ensures -0.5 <= raw[k] as real - ExactShare(coefficient, questionCount, k) <= 0.5
  {
    WeightsAreShares(coefficient, questionCount, k);
    RoundIsNear(ExactShare(coefficient, questionCount, k));
    hide DifficultyWeights, RoundHalfEven, ExactShare;
  }

  lemma SumOfThree(s: seq<int>)
    requires |s| == 3
    ensures Sum(s) == s[0] + s[1] + s[2]
  {
    assert Sum(s[..2]) == Sum(s[..2][..1]) + s[1];
    assert Sum(s[..2][..1]) == s[0];
  }

  /** When every share rounds to nothing there is at most one question, and the nearest difficulty gets it. */
  lemma AtMostOne(coefficient: real, questionCount: nat, raw: seq<int>, nearest: nat)
    requires 0.0 <= coefficient <= 1.0 && raw == RawTargets(DifficultyWeights(coefficient), questionCount)
    requires Sum(raw) <= 0 && nearest == NearestAnchor(coefficient)
    ensures SharedOut(raw[nearest := questionCount], coefficient, questionCount)
  {
    SumZeroMeansZeros(raw);
    SharesAddUp(coefficient, questionCount);
    SumUpdate(raw, nearest, questionCount);
    RawIsRoundedShare(coefficient, questionCount, raw, 0);
    RawIsRoundedShare(coefficient, questionCount, raw, 1);
    RawIsRoundedShare(coefficient, questionCount, raw, 2);
    hide DifficultyWeights, RoundHalfEven, Sum, RawTargets;
    assert questionCount <= 1;
    NearestShares(coefficient, questionCount, nearest);
  }

  lemma NearestShares(coefficient: real, questionCount: nat, nearest: nat)
    requires 0.0 <= coefficient <= 1.0 && nearest == NearestAnchor(coefficient) && questionCount <= 1
    ensures questionCount == 1 ==> ExactShare(coefficient, questionCount, nearest) >= 0.5
  {}

  lemma RoundBetween(x: real, low: int, high: int)
    requires low as real <= x <= high as real
    ensures low <= RoundHalfEven(x) <= high
  {
    RoundIsMonotone(low as real, x);
    RoundIsMonotone(x, high as real);
  }

  lemma PartOfWhole(a: real, b: real)
    requires 0.0 <= a <= b && b > 0.0
    ensures 0.0 <= a / b <= 1.0
  {
    var q := a / b;
    assert q * b == a;
    assert (1.0 - q) * b >= 0.0;
  }

  /** Scaling by one question more or less moves a count by at most one. */
  lemma ScaledByOne(a: int, questionCount: nat, total: int)
    requires total > 0 && 0 <= a <= total && -1 <= total - questionCount <= 1
    ensures total >= questionCount ==> a - 1 <= RoundHalfEven(Quota(a, questionCount, total)) <= a
    ensures total <= questionCount ==> a <= RoundHalfEven(Quota(a, questionCount, total)) <= a + 1
    ensures total == questionCount ==> RoundHalfEven(Quota(a, questionCount, total)) == a
  {
    var q := Quota(a, questionCount, total);
    QuotaIsScaled(a, questionCount, total);
    var part := a as real / total as real;
    PartOfWhole(a as real, total as real);
    assert q == a as real + (questionCount - total) as real * part;
    hide Quota;
    RoundBetween(q, if total >= questionCount then a - (total - questionCount) else a,
                 if total >= questionCount then a else a + (questionCount - total));
  }

  lemma ScaledShares(coefficient: real, questionCount: nat, raw: seq<int>, counts: seq<int>)
    requires 0.0 <= coefficient <= 1.0 && raw == RawTargets(DifficultyWeights(coefficient), questionCount)
    requires |raw| == |counts| == 3 && Sum(raw) > 0 && Sum(counts) == questionCount
    requires Sum(raw) == questionCount ==> counts == raw
    requires Sum(raw) != questionCount ==> Near(counts, raw, Rounded(raw, questionCount, Sum(raw)), questionCount)
    requires forall k :: 0 <= k < 3 ==> counts[k] >= 0
    ensures SharedOut(counts, coefficient, questionCount)
  {
    SharesAddUp(coefficient, questionCount);
    RawIsRoundedShare(coefficient, questionCount, raw, 0);
    RawIsRoundedShare(coefficient, questionCount, raw, 1);
    RawIsRoundedShare(coefficient, questionCount, raw, 2);
    SumOfThree(raw);
    SumOfThree(counts);
    var shares := [ExactShare(coefficient, questionCount, 0), ExactShare(coefficient, questionCount, 1),
                   ExactShare(coefficient, questionCount, 2)];
    RoundBetween(0.0, 0, 0);
    if Sum(raw) != questionCount {
      NearShares(raw, counts, shares, questionCount, if coefficient <= 0.5 then 2 else 0);
    }
    hide DifficultyWeights, RoundHalfEven, Sum, RawTargets, ExactShare, Near;
    assert forall k :: 0 <= k < 3 ==> -0.5 <= counts[k] as real - shares[k] <= 0.5;
  }

  lemma NearShares(raw: seq<int>, counts: seq<int>, shares: seq<real>, questionCount: nat, none: nat)
    requires |raw| == |counts| == |shares| == 3 && none < 3
    requires raw[none] == 0 && shares[none] == 0.0
    requires forall k :: 0 <= k < 3 ==> raw[k] >= 0 && counts[k] >= 0 && -0.5 <= raw[k] as real - shares[k] <= 0.5
    requires shares[0] + shares[1] + shares[2] == questionCount as real
    requires raw[0] + raw[1] + raw[2] == Sum(raw) > 0 && counts[0] + counts[1] + counts[2] == questionCount != Sum(raw)
    requires Near(counts, raw, Rounded(raw, questionCount, Sum(raw)), questionCount)
    ensures forall k :: 0 <= k < 3 ==> -0.5 <= counts[k] as real - shares[k] <= 0.5
  {
    var rounded := Rounded(raw, questionCount, Sum(raw));
    SumOfThree(rounded);
    RoundedByOne(raw, questionCount);
    hide Rounded;
    NearBounds(counts, raw, rounded, questionCount);
    hide Near, Sum;
    ThreeShares(raw, counts, rounded, shares, questionCount, none);
  }

  lemma ThreeShares(raw: seq<int>, counts: seq<int>, rounded: seq<int>, shares: seq<real>, n: int, none: nat)
    requires |raw| == |counts| == |rounded| == |shares| == 3 && none < 3
    requires raw[none] == counts[none] == rounded[none] == 0 && shares[none] == 0.0
    requires forall k :: 0 <= k < 3 ==> -0.5 <= raw[k] as real - shares[k] <= 0.5
    requires shares[0] + shares[1] + shares[2] == n as real
    requires counts[0] + counts[1] + counts[2] == n != raw[0] + raw[1] + raw[2]
    requires forall k :: 0 <= k < 3 ==>
               && (raw[0] + raw[1] + raw[2] > n ==> raw[k] - 1 <= rounded[k] <= raw[k])
               && (raw[0] + raw[1] + raw[2] < n ==> raw[k] <= rounded[k] <= raw[k] + 1)
               && (rounded[0] + rounded[1] + rounded[2] <= n ==> counts[k] >= rounded[k])
               && (rounded[0] + rounded[1] + rounded[2] >= n ==> counts[k] <= rounded[k])
    ensures forall k :: 0 <= k < 3 ==> -0.5 <= counts[k] as real - shares[k] <= 0.5
  {
    if none == 0 {
      TwoShares(raw[1], raw[2], counts[1], counts[2], rounded[1], rounded[2], shares[1], shares[2], n);
    } else if none == 1 {
      TwoShares(raw[0], raw[2], counts[0], counts[2], rounded[0], rounded[2], shares[0], shares[2], n);
    } else {
      TwoShares(raw[0], raw[1], counts[0], counts[1], rounded[0], rounded[1], shares[0], shares[1], n);
    }
  }

  lemma NearBounds(counts: seq<int>, targets: seq<int>, rounded: seq<int>, questionCount: nat)
    requires Near(counts, targets, rounded, questionCount) && |targets| == 3
    ensures |counts| == |rounded| == 3
    ensures forall k :: 0 <= k < 3 && targets[k] == 0 ==> counts[k] == 0
    ensures Sum(rounded) <= questionCount ==> forall k :: 0 <= k < 3 ==> counts[k] >= rounded[k]
    ensures Sum(rounded) >= questionCount ==> forall k :: 0 <= k < 3 ==> counts[k] <= rounded[k]
  {
    hide Sum;
  }

  lemma RoundedByOne(raw: seq<int>, questionCount: nat)
    requires |raw| == 3 && Sum(raw) > 0 && (forall k :: 0 <= k < 3 ==> raw[k] >= 0)
    requires -1 <= Sum(raw) - questionCount <= 1
    ensures var rounded := Rounded(raw, questionCount, Sum(raw));
            forall k :: 0 <= k < 3 ==>
              && (Sum(raw) > questionCount ==> raw[k] - 1 <= rounded[k] <= raw[k])
              && (Sum(raw) < questionCount ==> raw[k] <= rounded[k] <= raw[k] + 1)
              && (raw[k] == 0 ==> rounded[k] == 0)
  {
    var total := Sum(raw);
    hide Rounded, Sum, Quota, RoundHalfEven;
    forall k | 0 <= k < 3
      ensures total > questionCount ==> raw[k] - 1 <= Rounded(raw, questionCount, total)[k] <= raw[k]
      ensures total < questionCount ==> raw[k] <= Rounded(raw, questionCount, total)[k] <= raw[k] + 1
      ensures raw[k] == 0 ==> Rounded(raw, questionCount, total)[k] == 0
    {
      MemberAtMostSum(raw, k);
      RoundedAt(raw, questionCount, total, k);
      RoundedOne(raw[k], questionCount, total);
      ScaledByOne(raw[k], questionCount, total);
    }
  }

  /** Two rounded shares that add up to one too many or one too few, adjusted to add up, are still neighbours of what
      was shared. */
  lemma TwoShares(a: int, b: int, ca: int, cb: int, ra: int, rb: int, x: real, y: real, n: int)
    requires x + y == n as real && ca + cb == n != a + b
    requires -0.5 <= a as real - x <= 0.5 && -0.5 <= b as real - y <= 0.5
    requires a + b > n ==> a - 1 <= ra <= a && b - 1 <= rb <= b
    requires a + b < n ==> a <= ra <= a + 1 && b <= rb <= b + 1
    requires ra + rb <= n ==> ca >= ra && cb >= rb
    requires ra + rb >= n ==> ca <= ra && cb <= rb
    ensures -0.5 <= ca as real - x <= 0.5 && -0.5 <= cb as real - y <= 0.5
  {
    assert a + b == n + 1 || a + b == n - 1;
    if a + b == n + 1 {
      assert a as real - x == 0.5 && b as real - y == 0.5;
      assert a - 1 <= ca <= a;
    } else {
      assert a as real - x == -0.5 && b as real - y == -0.5;
      assert a <= ca <= a + 1;
    }
  }

  function RawTargets(weights: seq<real>, questionCount: nat): (raw: seq<int>)
    requires forall i :: 0 <= i < |weights| ==> weights[i] >= 0.0
    ensures |raw| == |weights| && forall i :: 0 <= i < |raw| ==> raw[i] >= 0
  {
    seq(|weights|, i requires 0 <= i < |weights| => RawTarget(questionCount, weights[i]))
  }

  function RawTarget(questionCount: nat, w: real): (target: int)
    requires w >= 0.0
    ensures target >= 0
  {
    RoundedProduct(questionCount, w);
    RoundHalfEven(questionCount as real * w)
  }

  lemma RoundedProduct(count: nat, w: real)
    requires w >= 0.0
    ensures RoundHalfEven(count as real * w) >= 0
  {
    hide RoundHalfEven;
    assert count as real * w >= 0.0;
    RoundKeepsSign(count as real * w);
  }

  lemma WeightsNonNegative(coefficient: real)
    ensures forall i :: 0 <= i < 3 ==> DifficultyWeights(coefficient)[i] >= 0.0
  {}

  lemma SumZeroMeansZeros(s: seq<int>)
    requires Sum(s) <= 0 && forall i :: 0 <= i < |s| ==> s[i] >= 0
    ensures Sum(s) == 0 && forall i :: 0 <= i < |s| ==> s[i] == 0
  {
    SumAtLeast(s, 0);
    forall i | 0 <= i < |s| ensures s[i] == 0 { MemberAtMostSum(s, i); }
  }
}
