/** Apportioning the marks of a paper, and of counts to targets: proportional shares rounded down and then
    repaired, one mark a step, in the order of their fractions. Weights and shares are reals. */
module MarkDistribution {
  import opened Ranking
  import opened Wrappers

  type Reply<T> = Result<T, string>

  // ---------------------------------------------------------------- shares

  const MINIMUM_WEIGHT := 0.01

  function Weights(scores: seq<real>): (ws: seq<real>)
    ensures |ws| == |scores|
  {
    seq(|scores|, i requires 0 <= i < |scores| => if scores[i] < MINIMUM_WEIGHT then MINIMUM_WEIGHT else scores[i])
  }

  function Share(weights: seq<real>, total: int, i: nat): real
    requires i < |weights| && SumReal(weights) > 0.0
  {
    Proportion(weights[i], total, SumReal(weights))
  }

  function Proportion(w: real, total: int, sum: real): real
    requires sum > 0.0
  {
    total as real * w / sum
  }

  /** The raw marks: the proportional shares, at least one mark each. */
  function RawMarks(weights: seq<real>, total: int): (raw: seq<real>)
    requires SumReal(weights) > 0.0
    ensures |raw| == |weights|
  {
    seq(|weights|, i requires 0 <= i < |weights| =>
      if Share(weights, total, i) < 1.0 then 1.0 else Share(weights, total, i))
  }

  function Floors(raw: seq<real>): (fs: seq<int>)
    ensures |fs| == |raw| && forall i :: 0 <= i < |raw| ==> fs[i] == raw[i].Floor
  {
    seq(|raw|, i requires 0 <= i < |raw| => raw[i].Floor)
  }

  function Fractions(raw: seq<real>): (fs: seq<real>)
    ensures |fs| == |raw| && forall i :: 0 <= i < |raw| ==> fs[i] == raw[i] - raw[i].Floor as real
  {
    seq(|raw|, i requires 0 <= i < |raw| => raw[i] - raw[i].Floor as real)
  }

  lemma {:induction false} WeightsPositive(ws: seq<real>)
    requires forall i :: 0 <= i < |ws| ==> ws[i] >= MINIMUM_WEIGHT
    ensures SumReal(ws) >= 0.0 && (ws != [] ==> SumReal(ws) > 0.0)
  {
    if ws != [] { WeightsPositive(ws[..|ws|-1]); }
  }

  lemma {:induction false} SharesSum(weights: seq<real>, total: int, n: nat, raw: seq<real>, c: real)
    requires n <= |weights| == |raw|
    requires forall i :: 0 <= i < |weights| ==> raw[i] >= weights[i] * c
    ensures SumReal(raw[..n]) >= SumReal(weights[..n]) * c
  {
    if n > 0 {
      SharesSum(weights, total, n - 1, raw, c);
      assert raw[..n][..n-1] == raw[..n-1] && weights[..n][..n-1] == weights[..n-1];
      assert SumReal(weights[..n]) * c == SumReal(weights[..n-1]) * c + weights[n-1] * c;
    }
  }

  lemma ShareIsScaled(w: real, total: int, sum: real)
    requires sum > 0.0
    ensures Proportion(w, total, sum) == w * (total as real / sum)
    ensures sum * (total as real / sum) == total as real
  {}

  lemma ScaledShare(weights: seq<real>, total: int, i: nat)
    requires i < |weights| && SumReal(weights) > 0.0
    ensures Share(weights, total, i) == weights[i] * (total as real / SumReal(weights))
  {
    hide SumReal, Proportion;
    ShareIsScaled(weights[i], total, SumReal(weights));
  }

  lemma RawAtLeastShare(weights: seq<real>, total: int, i: nat)
    requires i < |weights| && SumReal(weights) > 0.0
    ensures RawMarks(weights, total)[i] >= Share(weights, total, i)
  {
    hide SumReal, Proportion;
  }

  /** The raw marks add up to at least the total. */
  lemma RawMarksCoverTotal(weights: seq<real>, total: int)
    requires SumReal(weights) > 0.0
    ensures SumReal(RawMarks(weights, total)) >= total as real
  {
    var raw, c := RawMarks(weights, total), total as real / SumReal(weights);
    forall i | 0 <= i < |weights| ensures raw[i] >= weights[i] * c {
      ScaledShare(weights, total, i);
      RawAtLeastShare(weights, total, i);
    }
    hide Share, RawMarks;
    SharesSum(weights, total, |weights|, raw, c);
    assert raw[..|raw|] == raw && weights[..|weights|] == weights;
    ShareIsScaled(0.0, total, SumReal(weights));
  }

  lemma {:induction false} FractionsSum(raw: seq<real>, n: nat)
    requires n <= |raw|
    ensures SumReal(Fractions(raw)[..n]) == SumReal(raw[..n]) - Sum(Floors(raw)[..n]) as real
  {
    if n > 0 {
      FractionsSum(raw, n - 1);
      assert raw[..n][..n-1] == raw[..n-1] && Floors(raw)[..n][..n-1] == Floors(raw)[..n-1]
          && Fractions(raw)[..n][..n-1] == Fractions(raw)[..n-1];
    }
  }

  /** What the floors leave over is at most what the fractions add up to. */
  lemma RemainderWithinFractions(weights: seq<real>, total: int)
    requires SumReal(weights) > 0.0
    ensures var raw := RawMarks(weights, total);
            (total - Sum(Floors(raw))) as real <= SumReal(Fractions(raw))
  {
    var raw := RawMarks(weights, total);
    RawMarksCoverTotal(weights, total);
    FractionsSum(raw, |raw|);
    assert raw[..|raw|] == raw && Floors(raw)[..|raw|] == Floors(raw) && Fractions(raw)[..|raw|] == Fractions(raw);
  }

  // ---------------------------------------------------------------- repairing upwards

  /** Only positions with a positive fraction come before the remainder runs out. */
  lemma {:induction false} FewBeforeZero(ranking: seq<nat>, fractions: seq<real>, p: nat)
    requires InRange(ranking, |fractions|) && p <= |ranking|
    requires forall i :: 0 <= i < |fractions| ==> 0.0 <= fractions[i] < 1.0
    requires forall i :: p <= i < |ranking| ==> fractions[ranking[i]] == 0.0
    ensures SumAlong(ranking, fractions) <= p as real
    ensures p > 0 ==> SumAlong(ranking, fractions) < p as real
    decreases |ranking|
  {
    var n := |ranking|;
    if n > 0 {
      if p == n {
        FewBeforeZero(ranking[..n-1], fractions, p - 1);
      } else {
        FewBeforeZero(ranking[..n-1], fractions, p);
      }
    }
  }

  /** The marks after a positive remainder was handed out: the first `extra` ranked get one more. */
  ghost predicate RaisedBy(marks: seq<int>, floors: seq<int>, ranking: seq<nat>, extra: nat) {
    && |marks| == |floors| == |ranking| && InRange(ranking, |floors|)
    && forall p :: 0 <= p < |ranking| ==>
         marks[ranking[p]] == floors[ranking[p]] + if p < extra then 1 else 0
  }

  /** The marks after a deficit was collected: each counted down once a visit, never below `least`. */
  ghost predicate LoweredBy(marks: seq<int>, floors: seq<int>, ranking: seq<nat>, rounds: nat, offset: nat,
                            least: int) {
    && |marks| == |floors| == |ranking| && InRange(ranking, |floors|)
    && forall p :: 0 <= p < |ranking| ==>
         marks[ranking[p]] == CountDown(floors[ranking[p]], least, Visits(rounds, offset, p))
  }

  // ---------------------------------------------------------------- sums of repaired marks

  lemma {:induction false} SumUpdate(s: seq<int>, i: nat, v: int)
    requires i < |s|
    ensures Sum(s[i := v]) == Sum(s) - s[i] + v
  {
    var n := |s| - 1;
    if i < n {
      SumUpdate(s[..n], i, v);
      assert s[i := v][..n] == s[..n][i := v];
    } else {
      assert s[i := v][..n] == s[..n];
    }
  }

  lemma {:induction false} SumAtLeast(s: seq<int>, m: int)
    requires forall i :: 0 <= i < |s| ==> s[i] >= m
    ensures Sum(s) >= m * |s|
  {
    if s != [] {
      SumAtLeast(s[..|s|-1], m);
      assert m * |s| == m * (|s| - 1) + m;
    }
  }

  lemma {:induction false} SumOfOnes(s: seq<int>)
    requires forall i :: 0 <= i < |s| ==> s[i] == 1
    ensures Sum(s) == |s|
  {
    if s != [] { SumOfOnes(s[..|s|-1]); }
  }

  lemma {:induction false} MemberAtMostSum(s: seq<int>, i: nat)
    requires i < |s| && forall j :: 0 <= j < |s| ==> s[j] >= 0
    ensures s[i] <= Sum(s)
  {
    var n := |s| - 1;
    SumAtLeast(s[..n], 0);
    if i < n { MemberAtMostSum(s[..n], i); }
  }

  // ---------------------------------------------------------------- the repair loop

  lemma RaiseStep(marks: seq<int>, floors: seq<int>, ranking: seq<nat>, extra: nat)
    requires RaisedBy(marks, floors, ranking, extra) && extra < |ranking|
    requires forall i, j :: 0 <= i < j < |ranking| ==> ranking[i] != ranking[j]
    ensures var q := ranking[extra];
            RaisedBy(marks[q := marks[q] + 1], floors, ranking, extra + 1)
  {}

  lemma LowerStep(marks: seq<int>, floors: seq<int>, ranking: seq<nat>, rounds: nat, offset: nat, least: int)
    requires LoweredBy(marks, floors, ranking, rounds, offset, least) && offset < |ranking|
    requires forall i, j :: 0 <= i < j < |ranking| ==> ranking[i] != ranking[j]
    ensures var q := ranking[offset];
            var marks' := if marks[q] > least then marks[q := marks[q] - 1] else marks;
            if offset + 1 == |ranking| then LoweredBy(marks', floors, ranking, rounds + 1, 0, least)
            else LoweredBy(marks', floors, ranking, rounds, offset + 1, least)
  {}

  /** A ranking reaches every position. */
  ghost predicate Covers(ranking: seq<nat>, n: nat) {
    && |ranking| == n && InRange(ranking, n)
    && (forall i, j :: 0 <= i < j < |ranking| ==> ranking[i] != ranking[j])
    && forall q: nat :: q < n ==> q in ranking
  }

  lemma PositionOf(ranking: seq<nat>, n: nat, q: nat) returns (p: nat)
    requires Covers(ranking, n) && q < n
    ensures p < |ranking| && ranking[p] == q
  {
    assert q in ranking;
    p :| p < |ranking| && ranking[p] == q;
  }

  lemma LoweredMarks(marks: seq<int>, floors: seq<int>, ranking: seq<nat>, rounds: nat, offset: nat, q: nat)
    requires LoweredBy(marks, floors, ranking, rounds, offset, 1) && Covers(ranking, |floors|) && q < |floors|
    requires forall i :: 0 <= i < |floors| ==> floors[i] >= 1
    ensures 1 <= marks[q] <= floors[q]
    ensures floors[q] <= rounds ==> marks[q] == 1
  {
    var p := PositionOf(ranking, |floors|, q);
  }

  /** Enough rounds bring every mark down to one: the bound on attempts is never what ends the loop. */
  lemma BoundNeverBites(marks: seq<int>, floors: seq<int>, ranking: seq<nat>, rounds: nat, offset: nat, index: nat,
                        total: int)
    requires LoweredBy(marks, floors, ranking, rounds, offset, 1) && Covers(ranking, |floors|) && floors != []
    requires forall i :: 0 <= i < |floors| ==> floors[i] >= 1
    requires offset < |floors| && index == rounds * |floors| + offset
    requires total >= |floors| && Sum(floors) >= 0 && Sum(floors) * |floors| <= index
    ensures Sum(marks) <= total
  {
    RoundsReached(index, rounds, offset, |floors|, Sum(floors));
    forall q | 0 <= q < |marks| ensures marks[q] == 1 {
      MemberAtMostSum(floors, q);
      LoweredMarks(marks, floors, ranking, rounds, offset, q);
    }
    SumOfOnes(marks);
  }

  function MaxAttempts(n: nat, total: int, sum: int): int {
    var most := if total < sum then sum else total;
    if n * most < 1 then 1 else n * most
  }

  lemma AttemptsCover(n: nat, total: int, sum: int)
    requires n >= 1 && total >= n && sum >= n
    ensures sum * n <= MaxAttempts(n, total, sum) && n <= MaxAttempts(n, total, sum)
  {
    var most := if total < sum then sum else total;
    assert n * most >= n * sum by { assert n * most == n * sum + n * (most - sum); }
    assert n * sum >= n by { assert n * sum == n + n * (sum - 1); }
  }

  /** Hand out what is left over, or collect what is missing, one mark a step round the ranking. */
  method Repair(floors: seq<int>, ranking: seq<nat>, total: int)
    returns (marks: seq<int>, ghost rounds: nat, ghost offset: nat)
    requires floors != [] && Covers(ranking, |floors|) && total >= |floors|
    requires forall i :: 0 <= i < |floors| ==> floors[i] >= 1
    requires total - Sum(floors) < |floors|
    ensures |marks| == |floors| && Sum(marks) == total
    ensures Sum(floors) <= total ==> RaisedBy(marks, floors, ranking, total - Sum(floors))
    ensures Sum(floors) > total ==> LoweredBy(marks, floors, ranking, rounds, offset, 1) && offset < |floors|
  {
    marks := floors;
    rounds, offset := 0, 0;
    var n := |ranking|;
    var remaining := total - Sum(floors);
    var index, attempts := 0, 0;
    var maxAttempts := MaxAttempts(n, total, Sum(marks));
    SumAtLeast(floors, 1);
    AttemptsCover(n, total, Sum(floors));
    while remaining != 0 && n > 0 && attempts < maxAttempts
      invariant 0 <= attempts == index && |marks| == n
      invariant Sum(marks) == total - remaining
      invariant Sum(floors) <= total ==>
                  0 <= remaining == total - Sum(floors) - index && RaisedBy(marks, floors, ranking, index)
      invariant Sum(floors) > total ==>
                  remaining <= 0 && offset < n && index == rounds * n + offset
                      && LoweredBy(marks, floors, ranking, rounds, offset, 1)
      decreases maxAttempts - attempts
    {
      hide RaisedBy, LoweredBy, Covers, MaxAttempts;
      CoversIsRange(ranking, n);
      if Sum(floors) > total { NextStep(index, rounds, offset, n); } else { SmallMod(index, n); }
      var q := ranking[index % n];
      if remaining > 0 {
        RaiseStep(marks, floors, ranking, index);
        SumUpdate(marks, q, marks[q] + 1);
        marks := marks[q := marks[q] + 1];
        remaining := remaining - 1;
      } else {
        LowerStep(marks, floors, ranking, rounds, offset, 1);
        if marks[q] > 1 {
          SumUpdate(marks, q, marks[q] - 1);
          marks := marks[q := marks[q] - 1];
          remaining := remaining + 1;
        }
        if offset + 1 == n { rounds, offset := rounds + 1, 0; } else { offset := offset + 1; }
      }
      index := index + 1;
      attempts := attempts + 1;
    }
    if Sum(floors) > total && remaining != 0 {
      BoundNeverBites(marks, floors, ranking, rounds, offset, index, total);
    }
  }

  lemma CoversIsRange(ranking: seq<nat>, n: nat)
    requires Covers(ranking, n)
    ensures |ranking| == n && forall i :: 0 <= i < n ==> ranking[i] < n
    ensures forall i, j :: 0 <= i < j < |ranking| ==> ranking[i] != ranking[j]
  {}

  lemma SmallMod(index: nat, n: nat)
    requires index < n
    ensures index % n == index
  {}

  // ---------------------------------------------------------------- fairness

  /** What a distribution promises: positive marks that add up to the total; with enough marks for the
      floors, each mark is the floor or the ceiling of its raw share, otherwise none is above its floor;
      and a strictly larger raw share never receives fewer marks. */
  ghost predicate Fair(marks: seq<int>, raw: seq<real>, total: int) {
    && |marks| == |raw| && Sum(marks) == total
    && (forall i :: 0 <= i < |marks| ==> marks[i] >= 1)
    && (Sum(Floors(raw)) <= total ==>
          forall i :: 0 <= i < |marks| ==>
            marks[i] == raw[i].Floor || (marks[i] == raw[i].Floor + 1 && raw[i] > raw[i].Floor as real))
    && (Sum(Floors(raw)) > total ==> forall i :: 0 <= i < |marks| ==> marks[i] <= raw[i].Floor)
    && forall i, j :: 0 <= i < |marks| && 0 <= j < |marks| && raw[i] > raw[j] ==> marks[i] >= marks[j]
  }

  lemma RankCovers(raw: seq<real>, descending: bool)
    ensures Covers(Rank(Fractions(raw), |raw|, descending), |raw|)
    ensures Ranked(Rank(Fractions(raw), |raw|, descending), Fractions(raw), descending)
  {
    RankIsRanked(Fractions(raw), |raw|, descending);
  }

  /** The first `extra` of a descending ranking have positive fractions when the fractions cover them. */
  lemma RaisedHaveFractions(fractions: seq<real>, ranking: seq<nat>, extra: nat, p: nat)
    requires ranking == Rank(fractions, |fractions|, true) && p < extra <= |ranking|
    requires forall i :: 0 <= i < |fractions| ==> 0.0 <= fractions[i] < 1.0
    requires extra as real <= SumReal(fractions)
    ensures p < |ranking| && ranking[p] < |fractions| && fractions[ranking[p]] > 0.0
  {
    hide Rank, SumAlong, SumReal, Ranked;
    RankIsRanked(fractions, |fractions|, true);
    SumAlongRank(fractions, fractions, |fractions|, true);
    assert fractions[..|fractions|] == fractions;
    PositiveWithinSum(ranking, fractions, extra, p);
  }

  lemma PositiveWithinSum(ranking: seq<nat>, fractions: seq<real>, extra: nat, p: nat)
    requires InRange(ranking, |fractions|) && p < |ranking| && Ranked(ranking, fractions, true)
    requires forall i :: 0 <= i < |fractions| ==> 0.0 <= fractions[i] < 1.0
    requires p < extra && extra as real <= SumAlong(ranking, fractions)
    ensures fractions[ranking[p]] > 0.0
  {
    hide SumAlong, Ranked;
    if fractions[ranking[p]] == 0.0 { ZeroFromHere(ranking, fractions, p); }
  }

  lemma ZeroFromHere(ranking: seq<nat>, fractions: seq<real>, p: nat)
    requires InRange(ranking, |fractions|) && p < |ranking| && Ranked(ranking, fractions, true)
    requires forall i :: 0 <= i < |fractions| ==> 0.0 <= fractions[i] < 1.0
    requires fractions[ranking[p]] == 0.0
    ensures SumAlong(ranking, fractions) <= p as real
  {
    hide SumAlong;
    forall i | p <= i < |ranking| ensures fractions[ranking[i]] == 0.0 {
      if p < i { assert Ahead(fractions[ranking[p]], fractions[ranking[i]], true); }
    }
    FewBeforeZero(ranking, fractions, p);
  }

  lemma FractionBounds(raw: seq<real>)
    ensures forall i :: 0 <= i < |raw| ==> 0.0 <= Fractions(raw)[i] < 1.0
  {}

  /** The parts of two raw marks in order: floors first, then fractions. */
  lemma PartsInOrder(raw: seq<real>, i: nat, j: nat)
    requires i < |raw| && j < |raw| && raw[i] > raw[j]
    ensures Floors(raw)[i] > Floors(raw)[j]
            || (Floors(raw)[i] == Floors(raw)[j] && Fractions(raw)[i] > Fractions(raw)[j])
  {
    assert raw[i].Floor >= raw[j].Floor;
  }

  lemma RaisedIsFair(marks: seq<int>, raw: seq<real>, total: int)
    requires (forall i :: 0 <= i < |raw| ==> raw[i] >= 1.0)
    requires Sum(Floors(raw)) <= total && (total - Sum(Floors(raw))) as real <= SumReal(Fractions(raw))
    requires total - Sum(Floors(raw)) <= |raw|
    requires RaisedBy(marks, Floors(raw), Rank(Fractions(raw), |raw|, true), total - Sum(Floors(raw)))
    requires Sum(marks) == total
    ensures Fair(marks, raw, total)
  {
    hide Rank, Sum, SumReal, Ranked, SumAlong, RaisedBy, Covers;
    var floors, fractions := Floors(raw), Fractions(raw);
    var ranking := Rank(fractions, |raw|, true);
    var extra := total - Sum(floors);
    RankCovers(raw, true);
    FractionBounds(raw);
    RaisedLength(marks, floors, ranking, extra);
    forall i | 0 <= i < |marks| ensures marks[i] == floors[i] || (marks[i] == floors[i] + 1 && fractions[i] > 0.0) {
      RaisedMark(marks, floors, fractions, ranking, extra, i);
    }
    forall i, j | 0 <= i < |marks| && 0 <= j < |marks| && raw[i] > raw[j] ensures marks[i] >= marks[j] {
      PartsInOrder(raw, i, j);
      RaisedInOrder(marks, floors, fractions, ranking, extra, i, j);
    }
    RaisedParts(marks, raw, total);
  }

  lemma RaisedParts(marks: seq<int>, raw: seq<real>, total: int)
    requires |marks| == |raw| && Sum(marks) == total && Sum(Floors(raw)) <= total
    requires (forall i :: 0 <= i < |raw| ==> raw[i] >= 1.0)
    requires forall i :: 0 <= i < |marks| ==>
               marks[i] == Floors(raw)[i] || (marks[i] == Floors(raw)[i] + 1 && Fractions(raw)[i] > 0.0)
    requires forall i, j :: 0 <= i < |marks| && 0 <= j < |marks| && raw[i] > raw[j] ==> marks[i] >= marks[j]
    ensures Fair(marks, raw, total)
  {
    hide Sum;
    forall i | 0 <= i < |marks|
      ensures marks[i] >= 1
      ensures marks[i] == raw[i].Floor || (marks[i] == raw[i].Floor + 1 && raw[i] > raw[i].Floor as real)
    {
      assert Floors(raw)[i] == raw[i].Floor && Fractions(raw)[i] == raw[i] - raw[i].Floor as real;
    }
  }

  lemma RaisedLength(marks: seq<int>, floors: seq<int>, ranking: seq<nat>, extra: nat)
    requires RaisedBy(marks, floors, ranking, extra)
    ensures |marks| == |floors| == |ranking|
  {}

  /** A raised mark is its floor, or one more where there is a fraction. */
  lemma RaisedMark(marks: seq<int>, floors: seq<int>, fractions: seq<real>, ranking: seq<nat>, extra: nat, i: nat)
    requires ranking == Rank(fractions, |fractions|, true) && Covers(ranking, |fractions|) && extra <= |ranking|
    requires forall k :: 0 <= k < |fractions| ==> 0.0 <= fractions[k] < 1.0
    requires RaisedBy(marks, floors, ranking, extra) && extra as real <= SumReal(fractions)
    requires i < |floors| == |fractions| == |marks|
    ensures marks[i] == floors[i] || (marks[i] == floors[i] + 1 && fractions[i] > 0.0)
  {
    hide Rank, SumReal;
    var p := PositionOf(ranking, |fractions|, i);
    if p < extra { RaisedHaveFractions(fractions, ranking, extra, p); }
  }

  lemma RaisedInOrder(marks: seq<int>, floors: seq<int>, fractions: seq<real>, ranking: seq<nat>, extra: nat, i: nat,
                      j: nat)
    requires Covers(ranking, |fractions|) && Ranked(ranking, fractions, true)
    requires RaisedBy(marks, floors, ranking, extra)
    requires i < |fractions| == |floors| == |marks| && j < |fractions|
    requires floors[i] > floors[j] || (floors[i] == floors[j] && fractions[i] > fractions[j])
    ensures marks[i] >= marks[j]
  {
    var p := PositionOf(ranking, |fractions|, i);
    var q := PositionOf(ranking, |fractions|, j);
    assert q < p ==> Ahead(fractions[ranking[q]], fractions[ranking[p]], true);
  }

  lemma LoweredIsFair(marks: seq<int>, raw: seq<real>, total: int, rounds: nat, offset: nat)
    requires (forall i :: 0 <= i < |raw| ==> raw[i] >= 1.0)
    requires Sum(Floors(raw)) > total
    requires LoweredBy(marks, Floors(raw), Rank(Fractions(raw), |raw|, false), rounds, offset, 1)
    requires Sum(marks) == total
    ensures Fair(marks, raw, total)
  {
    var ranking := Rank(Fractions(raw), |raw|, false);
    RankCovers(raw, false);
    hide Rank, Sum, Ranked;
    forall i | 0 <= i < |marks| ensures 1 <= marks[i] <= raw[i].Floor {
      LoweredMarks(marks, Floors(raw), ranking, rounds, offset, i);
    }
    forall i, j | 0 <= i < |marks| && 0 <= j < |marks| && raw[i] > raw[j] ensures marks[i] >= marks[j] {
      LoweredInOrder(marks, raw, ranking, rounds, offset, i, j);
    }
  }

  lemma LoweredInOrder(marks: seq<int>, raw: seq<real>, ranking: seq<nat>, rounds: nat, offset: nat, i: nat, j: nat)
    requires Covers(ranking, |raw|) && Ranked(ranking, Fractions(raw), false)
    requires LoweredBy(marks, Floors(raw), ranking, rounds, offset, 1)
    requires i < |raw| && j < |raw| && raw[i] > raw[j]
    ensures marks[i] >= marks[j]
  {
    var p := PositionOf(ranking, |raw|, i);
    var q := PositionOf(ranking, |raw|, j);
    assert raw[i].Floor >= raw[j].Floor;
    assert p < q ==> Ahead(Fractions(raw)[ranking[p]], Fractions(raw)[ranking[q]], false);
  }

  /** Marks for questions of the given score weights. */
  method DistributeMarks(scores: seq<real>, total: int) returns (reply: Reply<seq<int>>)
    ensures scores == [] ==> reply == Ok([])
    ensures scores != [] ==> (reply.Fail? <==> total < |scores|)
    ensures scores != [] ==> SumReal(Weights(scores)) > 0.0
    ensures scores != [] && reply.Ok? ==> Fair(reply.value, RawMarks(Weights(scores), total), total)
  {
    hide Rank, Sum, SumReal, RawMarks, Fair, RaisedBy, LoweredBy, Covers, Ranked;
    if scores == [] { return Ok([]); }
    var weights := Weights(scores);
    WeightsHavePositiveSum(scores);
    if total < |scores| { return Fail("total_marks must be at least the number of questions"); }
    var raw := RawMarks(weights, total);
    var floors := Floors(raw);
    var remaining := total - Sum(floors);
    var ranking := Rank(Fractions(raw), |raw|, remaining > 0);
    RankCovers(raw, remaining > 0);
    RemainderBounds(weights, total);
    var marks, rounds, offset := Repair(floors, ranking, total);
    if remaining > 0 {
      RaisedIsFair(marks, raw, total);
    } else if remaining < 0 {
      LoweredIsFair(marks, raw, total, rounds, offset);
    } else {
      ExactIsFair(marks, raw, total, ranking);
    }
    reply := Ok(marks);
  }

  lemma WeightsHavePositiveSum(scores: seq<real>)
    requires scores != []
    ensures SumReal(Weights(scores)) > 0.0
  {
    hide SumReal;
    WeightsPositive(Weights(scores));
  }

  lemma RemainderBounds(weights: seq<real>, total: int)
    requires weights != [] && SumReal(weights) > 0.0
    ensures var raw := RawMarks(weights, total);
            && (forall i :: 0 <= i < |weights| ==> raw[i] >= 1.0 && Floors(raw)[i] >= 1)
            && (total - Sum(Floors(raw))) as real <= SumReal(Fractions(raw))
            && total - Sum(Floors(raw)) < |raw|
  {
    hide SumReal, Sum, RawMarks;
    RemainderWithinFractions(weights, total);
    FractionsBelowCount(RawMarks(weights, total));
    FloorsAtLeastOne(weights, total);
  }

  lemma ExactIsFair(marks: seq<int>, raw: seq<real>, total: int, ranking: seq<nat>)
    requires (forall i :: 0 <= i < |raw| ==> raw[i] >= 1.0)
    requires Covers(ranking, |raw|) && RaisedBy(marks, Floors(raw), ranking, 0)
    requires Sum(marks) == total == Sum(Floors(raw))
    ensures Fair(marks, raw, total)
  {
    forall i | 0 <= i < |marks| ensures marks[i] == raw[i].Floor {
      var p := PositionOf(ranking, |raw|, i);
    }
  }

  lemma FloorsAtLeastOne(weights: seq<real>, total: int)
    requires SumReal(weights) > 0.0
    ensures forall i :: 0 <= i < |weights| ==>
              RawMarks(weights, total)[i] >= 1.0 && Floors(RawMarks(weights, total))[i] >= 1
  {}

  lemma FractionsBelowCount(raw: seq<real>)
    ensures raw != [] ==> SumReal(Fractions(raw)) < |raw| as real
  {
    if raw != [] {
      BelowCount(Fractions(raw));
    }
  }

  lemma {:induction false} BelowCount(fractions: seq<real>)
    requires forall i :: 0 <= i < |fractions| ==> fractions[i] < 1.0
    ensures SumReal(fractions) <= |fractions| as real && (fractions != [] ==> SumReal(fractions) < |fractions| as real)
  {
    if fractions != [] { BelowCount(fractions[..|fractions|-1]); }
  }
}
