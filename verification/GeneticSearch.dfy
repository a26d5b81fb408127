/** The genetic search for a paper: crossover, mutation, tournaments and the generation loop, for every
    sequence of random draws. The draws that breed an individual are an input; which individuals a search starts
    from, and which candidate replaces a struck gene, are nondeterministic choices. */
module GeneticSearch {
  import opened Ranking
  import opened Wrappers

  type Genome = seq<int>

  const POPULATION_SIZE := 80
  const GENERATIONS := 120
  const ELITISM_COUNT := 4
  const TOURNAMENT_SIZE := 3
  const PATIENCE := 30
  const MINIMUM_GENERATION := 50

  // ---------------------------------------------------------------- duplicate-free lists

  /** An individual picks `count` different candidates. */
  ghost predicate Individual(xs: Genome, candidateIds: seq<int>, count: nat) {
    && |xs| == count && Distinct(xs)
    && forall x :: x in xs ==> x in candidateIds
  }

  function Elements<T(==,!new)>(xs: seq<T>): (s: set<T>)
    ensures forall x :: x in s <==> x in xs
  {
    set x | x in xs
  }

  lemma {:induction false} DistinctSize<T(!new)>(xs: seq<T>)
    ensures |Elements(xs)| <= |xs|
    ensures Distinct(xs) ==> |Elements(xs)| == |xs|
  {
    if xs != [] {
      var n := |xs| - 1;
      DistinctSize(xs[..n]);
      assert xs == xs[..n] + [xs[n]];
      assert Elements(xs) == Elements(xs[..n]) + {xs[n]};
    }
  }

  lemma SubsetSize<T(!new)>(a: set<T>, b: set<T>)
    requires a <= b
    ensures |a| <= |b| && (|a| == |b| ==> a == b)
    decreases |a|
  {
    if a != {} {
      var x :| x in a;
      SubsetSize(a - {x}, b - {x});
      assert a == (a - {x}) + {x} && b == (b - {x}) + {x};
    }
  }

  /** A duplicate-free list inside another list is no longer than it. */
  lemma NoLonger<T(!new)>(xs: seq<T>, ys: seq<T>)
    requires Distinct(xs) && forall x :: x in xs ==> x in ys
    ensures |xs| <= |ys|
  {
    DistinctSize(xs);
    DistinctSize(ys);
    SubsetSize(Elements(xs), Elements(ys));
  }

  /** A longer duplicate-free list holds something that a set of fewer elements does not. */
  lemma SomethingElse(candidateIds: seq<int>, taken: set<int>) returns (x: int)
    requires Distinct(candidateIds) && |taken| < |candidateIds|
    ensures x in candidateIds && x !in taken
  {
    DistinctSize(candidateIds);
    if Elements(candidateIds) <= taken { SubsetSize(Elements(candidateIds), taken); }
    x :| x in Elements(candidateIds) && x !in taken;
  }

  // ---------------------------------------------------------------- crossover

  /** The elements of a list that are not in `head`, in the order of the list. */
  function Missing(xs: seq<int>, head: seq<int>): (m: seq<int>)
    ensures |m| <= |xs|
  {
    if xs == [] then []
    else
      var n := |xs| - 1;
      Missing(xs[..n], head) + if xs[n] in head then [] else [xs[n]]
  }

  lemma {:induction false} MissingElements(xs: seq<int>, head: seq<int>)
    ensures forall x :: x in Missing(xs, head) <==> x in xs && x !in head
    ensures Distinct(xs) ==> Distinct(Missing(xs, head))
  {
    if xs != [] {
      var n := |xs| - 1;
      MissingElements(xs[..n], head);
      assert xs == xs[..n] + [xs[n]];
    }
  }

  lemma {:induction false} MissingPrefix(xs: seq<int>, head: seq<int>, n: nat)
    requires n <= |xs|
    ensures Missing(xs[..n], head) <= Missing(xs, head)
    decreases |xs|
  {
    if n < |xs| {
      MissingPrefix(xs[..|xs|-1], head, n);
      assert xs[..|xs|-1][..n] == xs[..n];
    } else {
      assert xs[..n] == xs;
    }
  }

  function Head(parent: Genome, pivot: nat): (head: Genome) {
    if pivot < |parent| then parent[..pivot] else parent
  }

  /** The child of a crossover: the head of one parent, then what the other has besides, in its order. */
  function Child(parentA: Genome, parentB: Genome, count: nat, pivot: nat): Genome {
    var head := Head(parentA, pivot);
    var rest := Missing(parentB, head);
    if |head| + |rest| <= count then head + rest
    else if |head| <= count then head + rest[..count - |head|]
    else head
  }

  /** The other parent always has enough: a head of one and the rest of the other fill an individual. */
  lemma ParentsSuffice(head: Genome, parentB: Genome)
    requires Distinct(parentB)
    ensures |head| + |Missing(parentB, head)| >= |parentB|
  {
    MissingElements(parentB, head);
    NoLonger(parentB, head + Missing(parentB, head));
  }

  lemma HeadAndMissing(head: Genome, xs: seq<int>)
    requires Distinct(head) && Distinct(xs)
    ensures Distinct(head + Missing(xs, head))
  {
    MissingElements(xs, head);
    var rest := Missing(xs, head);
    hide Missing;
    forall i, j | 0 <= i < j < |head| + |rest| ensures (head + rest)[i] != (head + rest)[j] {
      if i < |head| <= j {
        assert rest[j - |head|] in rest;
      }
    }
  }

  lemma ChildIsIndividual(parentA: Genome, parentB: Genome, candidateIds: seq<int>, count: nat, pivot: nat)
    requires Individual(parentA, candidateIds, count) && Individual(parentB, candidateIds, count)
    ensures var child := Child(parentA, parentB, count, pivot);
            && Individual(child, candidateIds, count)
            && (forall i :: 0 <= i < count && i < pivot ==> child[i] == parentA[i])
            && (forall i :: pivot <= i < count ==> child[i] in parentB && child[i] !in parentA[..pivot])
  {
    var head := Head(parentA, pivot);
    var rest := Missing(parentB, head);
    ParentsSuffice(head, parentB);
    MissingElements(parentB, head);
    hide Missing;
    var child := Child(parentA, parentB, count, pivot);
    assert child == (head + rest)[..count];
    HeadAndMissing(head, parentB);
    forall i | pivot <= i < count ensures child[i] in parentB && child[i] !in parentA[..pivot] {
      assert head == parentA[..pivot];
      assert child[i] == rest[i - pivot] && rest[i - pivot] in rest;
    }
  }

  /** Copy the first parent up to the pivot and fill up from the second, then from the candidates. The
      candidates are never reached. */
  method Crossover(parentA: Genome, parentB: Genome, candidateIds: seq<int>, count: nat, pivot: nat)
    returns (child: Genome)
    requires Individual(parentA, candidateIds, count) && Individual(parentB, candidateIds, count)
    ensures child == Child(parentA, parentB, count, pivot)
    ensures Individual(child, candidateIds, count)
  {
    hide Missing, Individual, Child, Distinct;
    IndividualShape(parentA, candidateIds, count);
    IndividualShape(parentB, candidateIds, count);
    child := if pivot < |parentA| then parentA[..pivot] else parentA;
    ghost var head := child;
    var childIds := Elements(child);
    var source := parentB + candidateIds;
    var i := 0;
    MissingNothing(parentB, head);
    while i < |source| && |child| < count
      invariant 0 <= i <= |parentB|
      invariant |child| <= count && child == head + Missing(parentB[..i], head)
      invariant childIds == Elements(child)
    {
      StillShort(head, parentB, i);
      assert source[i] == parentB[i];
      MissingStep(parentB, head, i);
      if source[i] !in childIds {
        child := child + [source[i]];
        childIds := childIds + {source[i]};
      }
      i := i + 1;
    }
    if |child| < count { StillShort(head, parentB, i); }
    Filled(parentA, parentB, count, pivot, i);
    ChildIsIndividual(parentA, parentB, candidateIds, count, pivot);
  }

  lemma IndividualShape(xs: Genome, candidateIds: seq<int>, count: nat)
    requires Individual(xs, candidateIds, count)
    ensures |xs| == count && Distinct(xs)
  {}

  lemma MissingNothing(xs: seq<int>, head: seq<int>)
    ensures head + Missing(xs[..0], head) == head
  {}

  lemma MissingStep(parentB: Genome, head: Genome, i: nat)
    requires Distinct(parentB) && i < |parentB|
    ensures Missing(parentB[..i+1], head)
            == Missing(parentB[..i], head) + (if parentB[i] in head then [] else [parentB[i]])
    ensures parentB[i] in head + Missing(parentB[..i], head) <==> parentB[i] in head
  {
    assert parentB[..i+1][..i] == parentB[..i];
    NotYetSeen(parentB, head, i);
  }

  lemma Filled(parentA: Genome, parentB: Genome, count: nat, pivot: nat, i: nat)
    requires i <= |parentB|
    requires var head := Head(parentA, pivot);
             |head| + |Missing(parentB[..i], head)| == count
    ensures var head := Head(parentA, pivot);
            Child(parentA, parentB, count, pivot) == head + Missing(parentB[..i], head)
  {
    hide Missing;
    MissingPrefix(parentB, Head(parentA, pivot), i);
  }

  lemma StillShort(head: Genome, parentB: Genome, i: nat)
    requires Distinct(parentB) && i <= |parentB| && |head| + |Missing(parentB[..i], head)| < |parentB|
    ensures i < |parentB|
  {
    ParentsSuffice(head, parentB);
    assert parentB[..|parentB|] == parentB;
  }

  lemma NotYetSeen(parentB: Genome, head: Genome, i: nat)
    requires Distinct(parentB) && i < |parentB|
    ensures parentB[i] in head + Missing(parentB[..i], head) <==> parentB[i] in head
  {
    MissingElements(parentB[..i], head);
  }

  // ---------------------------------------------------------------- mutation

  /** Replacing one gene by a candidate nobody holds keeps the individual duplicate-free. */
  lemma ReplaceGene(xs: Genome, candidateIds: seq<int>, count: nat, index: nat, replacement: int)
    requires Individual(xs, candidateIds, count) && index < count
    requires replacement in candidateIds && replacement !in Elements(xs) - {xs[index]} && replacement != xs[index]
    ensures Individual(xs[index := replacement], candidateIds, count)
    ensures Elements(xs[index := replacement]) == Elements(xs) - {xs[index]} + {replacement}
  {
    var ys := xs[index := replacement];
    forall x ensures x in Elements(ys) <==> x in Elements(xs) - {xs[index]} + {replacement} {
      if x in Elements(xs) - {xs[index]} {
        var j :| 0 <= j < |xs| && xs[j] == x;
        assert ys[j] == x;
      }
      if x == replacement { assert ys[index] == x; }
    }
  }

  /** A valid replacement exists whenever mutation looks for one. */
  lemma ReplacementExists(xs: Genome, candidateIds: seq<int>, count: nat, index: nat) returns (replacement: int)
    requires Individual(xs, candidateIds, count) && index < count && Distinct(candidateIds)
    requires |Elements(xs)| < |candidateIds|
    ensures replacement in candidateIds && replacement != xs[index] && replacement !in Elements(xs) - {xs[index]}
  {
    replacement := SomethingElse(candidateIds, Elements(xs));
    assert xs[index] in Elements(xs);
  }

  /** The struck genes changed, and no others, as long as there is a candidate left to change to. */
  ghost predicate MutationOf(before: Genome, after: Genome, struck: seq<bool>, candidates: nat) {
    && |after| == |before| == |struck|
    && forall i :: 0 <= i < |before| ==> (after[i] != before[i] <==> struck[i] && |before| < candidates)
  }

  /** Replace the struck genes, each by a candidate the individual does not hold. */
  method Mutate(individual: Genome, struck: seq<bool>, candidateIds: seq<int>, ghost count: nat)
    returns (mutated: Genome)
    requires Individual(individual, candidateIds, count) && Distinct(candidateIds) && |struck| == count
    ensures Individual(mutated, candidateIds, count)
    ensures MutationOf(individual, mutated, struck, |candidateIds|)
  {
    mutated := individual;
    forall x | x in individual ensures x in candidateIds {}
    NoLonger(individual, candidateIds);
    if candidateIds == [] { return; }
    var selectedIds := Elements(mutated);
    var index := 0;
    while index < |mutated|
      invariant 0 <= index <= |mutated|
      invariant Individual(mutated, candidateIds, count)
      invariant selectedIds == Elements(mutated)
      invariant forall i :: 0 <= i < index ==>
                  (mutated[i] != individual[i] <==> struck[i] && |individual| < |candidateIds|)
      invariant forall i :: index <= i < count ==> mutated[i] == individual[i]
    {
      DistinctSize(mutated);
      if struck[index] && |selectedIds| < |candidateIds| {
        var currentId := mutated[index];
        ghost var witnessId := ReplacementExists(mutated, candidateIds, count, index);
        selectedIds := selectedIds - {currentId};
        var replacementId :| replacementId in candidateIds && replacementId != currentId
            && replacementId !in selectedIds;
        ReplaceGene(mutated, candidateIds, count, index, replacementId);
        mutated := mutated[index := replacementId];
        selectedIds := selectedIds + {replacementId};
      }
      index := index + 1;
    }
  }

  // ---------------------------------------------------------------- choosing

  /** `count` different positions below `size`, in any order. */
  method Sample(size: nat, count: nat) returns (positions: seq<nat>)
    requires count <= size
    ensures |positions| == count && Distinct(positions)
    ensures forall i :: 0 <= i < count ==> positions[i] < size
  {
    positions := [];
    while |positions| < count
      invariant |positions| <= count && Distinct(positions)
      invariant forall i :: 0 <= i < |positions| ==> positions[i] < size
      decreases count - |positions|
    {
      ghost var unused := UnusedPosition(positions, size);
      var p: nat :| p < size && p !in positions;
      positions := positions + [p];
    }
  }

  lemma UnusedPosition(positions: seq<nat>, size: nat) returns (p: nat)
    requires |positions| < size
    ensures p < size && p !in positions
  {
    var all := seq(size, i requires 0 <= i < size => i);
    if forall q: nat :: q < size ==> q in positions {
      forall q | q in all ensures q in positions {}
      NoLonger(all, positions);
    }
    p :| p < size && p !in positions;
  }

  method SampleIndividual(candidateIds: seq<int>, count: nat) returns (xs: Genome)
    requires Distinct(candidateIds) && count <= |candidateIds|
    ensures Individual(xs, candidateIds, count)
  {
    var positions := Sample(|candidateIds|, count);
    xs := seq(count, i requires 0 <= i < count => candidateIds[positions[i]]);
    forall i, j | 0 <= i < j < count ensures xs[i] != xs[j] {
      assert positions[i] != positions[j];
    }
  }

  /** What chance decides about one child: who enters the two tournaments, whether and where the winners are crossed,
      and which genes mutation strikes. */
  datatype Breeding = Breeding(drawnA: seq<nat>, drawnB: seq<nat>, crossed: bool, pivot: nat, struck: seq<bool>)

  /** A sample without repetition from a population of some size. */
  predicate ValidSample(drawn: seq<nat>, size: nat) {
    && |drawn| == (if TOURNAMENT_SIZE < size then TOURNAMENT_SIZE else size) && Distinct(drawn)
    && forall i :: 0 <= i < |drawn| ==> drawn[i] < size
  }

  predicate ValidDraws(b: Breeding, size: nat, count: nat) {
    && ValidSample(b.drawnA, size) && ValidSample(b.drawnB, size) && |b.struck| == count
    && (if count > 1 then 1 <= b.pivot <= count - 1 else b.pivot == 1)
  }

  /** The best of those drawn; the first of the best on a tie. */
  function Winner(ranked: seq<Genome>, drawn: seq<nat>, score: Genome -> real): Genome
    requires drawn != [] && forall i :: 0 <= i < |drawn| ==> drawn[i] < |ranked|
  {
    var last := ranked[drawn[|drawn|-1]];
    if |drawn| == 1 then last
    else
      var earlier := Winner(ranked, drawn[..|drawn|-1], score);
      if score(last) > score(earlier) then last else earlier
  }

  lemma {:induction false} WinnerIsFirstBest(ranked: seq<Genome>, drawn: seq<nat>, score: Genome -> real)
    returns (k: nat)
    requires drawn != [] && forall i :: 0 <= i < |drawn| ==> drawn[i] < |ranked|
    ensures k < |drawn| && Winner(ranked, drawn, score) == ranked[drawn[k]]
    ensures forall i :: 0 <= i < |drawn| ==> score(ranked[drawn[i]]) <= score(ranked[drawn[k]])
    ensures forall i :: 0 <= i < k ==> score(ranked[drawn[i]]) < score(ranked[drawn[k]])
  {
    var n := |drawn| - 1;
    k := n;
    if n > 0 {
      var earlier := WinnerIsFirstBest(ranked, drawn[..n], score);
      if score(ranked[drawn[n]]) <= score(ranked[drawn[earlier]]) { k := earlier; }
      forall i | 0 <= i < n ensures score(ranked[drawn[i]]) <= score(ranked[drawn[earlier]]) {
        assert drawn[..n][i] == drawn[i];
      }
      forall i | 0 <= i < earlier ensures score(ranked[drawn[i]]) < score(ranked[drawn[earlier]]) {
        assert drawn[..n][i] == drawn[i];
      }
    }
  }

  method Tournament(ranked: seq<Genome>, drawn: seq<nat>, score: Genome -> real) returns (winner: Genome)
    requires drawn != [] && forall i :: 0 <= i < |drawn| ==> drawn[i] < |ranked|
    ensures winner == Winner(ranked, drawn, score)
  {
    winner := ranked[drawn[0]];
    assert drawn[..1] == [drawn[0]];
    for i := 1 to |drawn|
      invariant winner == Winner(ranked, drawn[..i], score)
    {
      assert drawn[..i+1][..i] == drawn[..i];
      if score(ranked[drawn[i]]) > score(winner) { winner := ranked[drawn[i]]; }
    }
    assert drawn[..|drawn|] == drawn;
  }

  // ---------------------------------------------------------------- generations

  ghost predicate Population(population: seq<Genome>, candidateIds: seq<int>, count: nat) {
    forall i :: 0 <= i < |population| ==> Individual(population[i], candidateIds, count)
  }

  function Scores(population: seq<Genome>, score: Genome -> real): (keys: seq<real>)
    ensures |keys| == |population| && forall i :: 0 <= i < |keys| ==> keys[i] == score(population[i])
  {
    seq(|population|, i requires 0 <= i < |population| => score(population[i]))
  }

  /** The population with the best first, equals in their old order. */
  function RankedPopulation(population: seq<Genome>, score: Genome -> real): (ranked: seq<Genome>)
    ensures |ranked| == |population|
  {
    var order := Rank(Scores(population, score), |population|, true);
    seq(|order|, i requires 0 <= i < |order| => population[order[i]])
  }

  lemma RankedFirstIsBest(population: seq<Genome>, score: Genome -> real, candidateIds: seq<int>, count: nat)
    requires population != [] && Population(population, candidateIds, count)
    ensures var ranked := RankedPopulation(population, score);
            && Population(ranked, candidateIds, count)
            && ranked[0] in population
            && forall x :: x in population ==> score(x) <= score(ranked[0])
  {
    var keys := Scores(population, score);
    var order := Rank(keys, |population|, true);
    RankIsRanked(keys, |population|, true);
    var ranked := RankedPopulation(population, score);
    hide Rank;
    forall x | x in population ensures score(x) <= score(ranked[0]) {
      var i :| 0 <= i < |population| && population[i] == x;
      assert i in order;
      var p :| 0 <= p < |order| && order[p] == i;
      assert p > 0 ==> Ahead(keys[order[0]], keys[order[p]], true);
    }
  }

  function PopulationSize(candidates: nat): nat {
    var least := ELITISM_COUNT + TOURNAMENT_SIZE;
    var size := if POPULATION_SIZE < least then least else POPULATION_SIZE;
    var limit := if candidates * 8 < 1 then 1 else candidates * 8;
    if limit < size then limit else size
  }

  /** A child of two tournament winners, crossed or a copy of the first, and then mutated, as the draws say. */
  ghost predicate Bred(child: Genome, ranked: seq<Genome>, b: Breeding, candidates: nat, count: nat,
                       score: Genome -> real) {
    && ValidDraws(b, |ranked|, count) && ranked != []
    && var first, second := Winner(ranked, b.drawnA, score), Winner(ranked, b.drawnB, score);
       MutationOf(if b.crossed then Child(first, second, count, b.pivot) else first, child, b.struck, candidates)
  }

  lemma WinnerIsIndividual(ranked: seq<Genome>, drawn: seq<nat>, score: Genome -> real, candidateIds: seq<int>,
                           count: nat)
    requires ranked != [] && Population(ranked, candidateIds, count) && ValidSample(drawn, |ranked|)
    ensures drawn != [] && (forall i :: 0 <= i < |drawn| ==> drawn[i] < |ranked|)
    ensures Individual(Winner(ranked, drawn, score), candidateIds, count)
  {
    var k := WinnerIsFirstBest(ranked, drawn, score);
    hide Individual, Winner, Distinct;
  }

  /** One child, bred as the draws say. */
  method Breed(ranked: seq<Genome>, b: Breeding, candidateIds: seq<int>, count: nat, score: Genome -> real)
    returns (child: Genome)
    requires ranked != [] && Population(ranked, candidateIds, count) && Distinct(candidateIds)
    requires ValidDraws(b, |ranked|, count)
    ensures Individual(child, candidateIds, count) && Bred(child, ranked, b, |candidateIds|, count, score)
  {
    hide Individual, Winner, Child, Distinct, Population, MutationOf;
    WinnerIsIndividual(ranked, b.drawnA, score, candidateIds, count);
    WinnerIsIndividual(ranked, b.drawnB, score, candidateIds, count);
    var parentA := Tournament(ranked, b.drawnA, score);
    var parentB := Tournament(ranked, b.drawnB, score);
    child := parentA;
    if b.crossed { child := Crossover(parentA, parentB, candidateIds, count, b.pivot); }
    child := Mutate(child, b.struck, candidateIds, count);
  }

  /** The next generation: the elite unchanged in front, then children of tournament winners. */
  method NextGeneration(ranked: seq<Genome>, draws: nat -> Breeding, candidateIds: seq<int>, count: nat, size: nat,
                        score: Genome -> real)
    returns (next: seq<Genome>)
    requires ranked != [] && |ranked| == size && Population(ranked, candidateIds, count) && Distinct(candidateIds)
    requires forall k: nat :: ValidDraws(draws(k), size, count)
    ensures |next| == size && Population(next, candidateIds, count)
    ensures forall i :: 0 <= i < size && i < ELITISM_COUNT ==> next[i] == ranked[i]
    ensures forall k :: ELITISM_COUNT <= k < size ==> Bred(next[k], ranked, draws(k), |candidateIds|, count, score)
  {
    hide Individual, Bred, ValidDraws, Distinct;
    var elite := if ELITISM_COUNT < |ranked| then ELITISM_COUNT else |ranked|;
    next := ranked[..elite];
    while |next| < size
      invariant elite <= |next| <= size && next[..elite] == ranked[..elite]
      invariant Population(next, candidateIds, count)
      invariant forall k :: elite <= k < |next| ==> Bred(next[k], ranked, draws(k), |candidateIds|, count, score)
      decreases size - |next|
    {
      var child := Breed(ranked, draws(|next|), candidateIds, count, score);
      next := next + [child];
    }
    assert forall i :: 0 <= i < elite ==> next[i] == next[..elite][i] == ranked[..elite][i];
  }

  /** The best score of a generation. */
  function TopScore(population: seq<Genome>, score: Genome -> real): real {
    if population == [] then 0.0 else score(RankedPopulation(population, score)[0])
  }

  /** The top score is attained in its generation and bounds every score there. */
  lemma TopScoreIsTop(population: seq<Genome>, score: Genome -> real, candidateIds: seq<int>, count: nat)
    requires population != [] && Population(population, candidateIds, count)
    ensures exists x :: x in population && score(x) == TopScore(population, score)
    ensures forall x :: x in population ==> score(x) <= TopScore(population, score)
  {
    RankedFirstIsBest(population, score, candidateIds, count);
    var best := RankedPopulation(population, score)[0];
    hide RankedPopulation, Population;
    assert best in population && score(best) == TopScore(population, score);
  }

  ghost function Tops(generations: seq<seq<Genome>>, score: Genome -> real): (tops: seq<real>)
    ensures |tops| == |generations|
    ensures forall g :: 0 <= g < |tops| ==> tops[g] == TopScore(generations[g], score)
  {
    seq(|generations|, g requires 0 <= g < |generations| => TopScore(generations[g], score))
  }

  /** The elite of a generation leads the next one unchanged. */
  ghost predicate EliteKept(before: seq<Genome>, after: seq<Genome>, score: Genome -> real) {
    forall i :: 0 <= i < ELITISM_COUNT && i < |before| && i < |after| ==> after[i] == RankedPopulation(before, score)[i]
  }

  /** The draws for child k of the generation that follows generation g. */
  type Tape = (nat, nat) -> Breeding

  /** The elite leads the next generation, and every other member of it is bred from this one as the tape says. */
  ghost predicate Follows(before: seq<Genome>, after: seq<Genome>, tape: Tape, g: nat, candidateIds: seq<int>,
                          count: nat, score: Genome -> real) {
    && EliteKept(before, after, score)
    && forall k :: ELITISM_COUNT <= k < |after| ==>
         Bred(after[k], RankedPopulation(before, score), tape(g, k), |candidateIds|, count, score)
  }

  /** Generations of full size, each following the one before. */
  ghost predicate Evolved(generations: seq<seq<Genome>>, tape: Tape, candidateIds: seq<int>, count: nat,
                          score: Genome -> real) {
    && (forall g :: 0 <= g < |generations| ==>
          |generations[g]| == PopulationSize(|candidateIds|) && Population(generations[g], candidateIds, count))
    && forall g: nat :: g + 1 < |generations| ==>
         Follows(generations[g], generations[g+1], tape, g, candidateIds, count, score)
  }

  /** Top scores that never fall. */
  ghost predicate Climbing(tops: seq<real>) {
    forall i, j :: 0 <= i <= j < |tops| ==> tops[i] <= tops[j]
  }

  /** Thirty generations without improvement, after the fiftieth. */
  ghost predicate Stale(tops: seq<real>, g: nat) {
    MINIMUM_GENERATION <= g < |tops| && tops[g - PATIENCE] == tops[g]
  }

  lemma TopsClimb(tops: seq<real>, top: real)
    requires Climbing(tops) && (tops != [] ==> tops[|tops| - 1] <= top)
    ensures Climbing(tops + [top])
  {}

  /** How long the top score has stood: since `since`, which is the first generation or an improvement. */
  ghost predicate StandsSince(tops: seq<real>, since: nat) {
    && since < |tops| && tops[since] == tops[|tops| - 1]
    && (since > 0 ==> tops[since - 1] < tops[since])
  }

  lemma StaleExactly(tops: seq<real>, since: nat)
    requires Climbing(tops) && StandsSince(tops, since)
    ensures Stale(tops, |tops| - 1) <==> |tops| - 1 - since >= PATIENCE && |tops| - 1 >= MINIMUM_GENERATION
  {}

  lemma StaleEarlier(tops: seq<real>, top: real)
    requires forall g :: 0 <= g < |tops| ==> !Stale(tops, g)
    ensures forall g :: 0 <= g < |tops| ==> !Stale(tops + [top], g)
  {
    forall g | 0 <= g < |tops| ensures !Stale(tops + [top], g) { assert !Stale(tops, g); }
  }

  lemma EvolvedMore(generations: seq<seq<Genome>>, tape: Tape, population: seq<Genome>, candidateIds: seq<int>,
                    count: nat, score: Genome -> real)
    requires Evolved(generations, tape, candidateIds, count, score)
    requires |population| == PopulationSize(|candidateIds|) && Population(population, candidateIds, count)
    requires generations != [] ==>
               Follows(generations[|generations| - 1], population, tape, |generations| - 1, candidateIds, count, score)
    ensures Evolved(generations + [population], tape, candidateIds, count, score)
  {
    hide Population, Follows, PopulationSize;
  }

  /** Everything ever ranked scores at most `bound`. */
  ghost predicate Bounded(generations: seq<seq<Genome>>, score: Genome -> real, bound: real) {
    forall g, x :: 0 <= g < |generations| && x in generations[g] ==> score(x) <= bound
  }

  /** Top scores that climb, were not stale before the last one, and whose last one has stood for so long. */
  ghost predicate Standing(tops: seq<real>, withoutImprovement: nat) {
    && Climbing(tops) && (forall g :: 0 <= g < |tops| - 1 ==> !Stale(tops, g))
    && (tops != [] ==> withoutImprovement < |tops| && StandsSince(tops, |tops| - 1 - withoutImprovement))
  }

  ghost predicate WasRanked(x: Genome, generations: seq<seq<Genome>>) {
    exists g :: 0 <= g < |generations| && x in generations[g]
  }

  /** Where a search stands once it ranked these generations: the best individual of all of them, and for how many
      generations nothing better came. */
  ghost predicate Searched(generations: seq<seq<Genome>>, tape: Tape, best: Genome, bestScore: real,
                           withoutImprovement: nat, candidateIds: seq<int>, count: nat, score: Genome -> real)
  {
    && Evolved(generations, tape, candidateIds, count, score) && Standing(Tops(generations, score), withoutImprovement)
    && Individual(best, candidateIds, count) && bestScore == score(best)
    && Bounded(generations, score, bestScore)
    && (generations != [] ==>
         WasRanked(best, generations) && TopScore(generations[|generations| - 1], score) == bestScore)
  }

  /** Ranking one more generation: its best replaces the best so far only when it is better. */
  lemma Recorded(generations: seq<seq<Genome>>, tape: Tape, best: Genome, bestScore: real, withoutImprovement: nat,
                 population: seq<Genome>, candidateIds: seq<int>, count: nat, score: Genome -> real)
    requires Searched(generations, tape, best, bestScore, withoutImprovement, candidateIds, count, score)
    requires |population| == PopulationSize(|candidateIds|) > 0 && Population(population, candidateIds, count)
    requires generations != [] ==>
               Follows(generations[|generations| - 1], population, tape, |generations| - 1, candidateIds, count, score)
    requires generations != [] ==> !Stale(Tops(generations, score), |generations| - 1)
    ensures var leader := RankedPopulation(population, score)[0];
            var improved := generations == [] || score(leader) > bestScore;
            Searched(generations + [population], tape, if improved then leader else best,
                     if improved then score(leader) else bestScore, if improved then 0 else withoutImprovement + 1,
                     candidateIds, count, score)
  {
    hide Individual, RankedPopulation, PopulationSize, Follows, Evolved, Standing, Stale, Tops, Bounded, WasRanked;
    var leader := RankedPopulation(population, score)[0];
    RankedFirstIsBest(population, score, candidateIds, count);
    LeaderIsIndividual(population, score, candidateIds, count);
    TopDoesNotFall(generations, tape, population, candidateIds, count, score);
    hide Population;
    EvolvedMore(generations, tape, population, candidateIds, count, score);
    TopsMore(generations, population, score);
    TopsRecorded(Tops(generations, score), withoutImprovement, score(leader));
    BoundedMore(generations, population, score, bestScore, score(leader));
    BestIsRanked(generations, population, leader, best, generations == [] || score(leader) > bestScore);
  }

  lemma TopDoesNotFall(generations: seq<seq<Genome>>, tape: Tape, population: seq<Genome>, candidateIds: seq<int>,
                       count: nat, score: Genome -> real)
    requires Evolved(generations, tape, candidateIds, count, score)
    requires |population| == PopulationSize(|candidateIds|) > 0 && Population(population, candidateIds, count)
    requires generations != [] ==>
               Follows(generations[|generations| - 1], population, tape, |generations| - 1, candidateIds, count, score)
    ensures generations != [] ==>
              && Tops(generations, score)[|generations| - 1] == TopScore(generations[|generations| - 1], score)
              && TopScore(generations[|generations| - 1], score) <= TopScore(population, score)
  {
    hide Population, PopulationSize, EliteKept, RankedPopulation, TopScore, Bred;
    if generations != [] {
      EliteLeads(generations[|generations| - 1], population, score, candidateIds, count);
    }
  }

  lemma BestIsRanked(generations: seq<seq<Genome>>, population: seq<Genome>, leader: Genome, best: Genome,
                     improved: bool)
    requires leader in population
    requires !improved ==> WasRanked(best, generations)
    ensures WasRanked(if improved then leader else best, generations + [population])
  {
    var more := generations + [population];
    if improved {
      assert more[|generations|] == population;
    } else {
      var g :| 0 <= g < |generations| && best in generations[g];
      assert more[g] == generations[g];
    }
  }

  /** One more top score: the scores still climb, and how long the last one has stood. */
  lemma TopsRecorded(tops: seq<real>, withoutImprovement: nat, top: real)
    requires Standing(tops, withoutImprovement)
    requires tops != [] ==> !Stale(tops, |tops| - 1) && tops[|tops| - 1] <= top
    ensures var improved := tops == [] || top > tops[|tops| - 1];
            Standing(tops + [top], if improved then 0 else withoutImprovement + 1)
  {
    TopsClimb(tops, top);
    StaleEarlier(tops, top);
    hide Stale, Climbing;
  }

  lemma LeaderIsIndividual(population: seq<Genome>, score: Genome -> real, candidateIds: seq<int>, count: nat)
    requires population != [] && Population(population, candidateIds, count)
    ensures Individual(RankedPopulation(population, score)[0], candidateIds, count)
  {
    RankedFirstIsBest(population, score, candidateIds, count);
    hide RankedPopulation;
  }

  lemma StaleNow(generations: seq<seq<Genome>>, tape: Tape, best: Genome, bestScore: real, withoutImprovement: nat,
                 candidateIds: seq<int>, count: nat, score: Genome -> real)
    requires generations != []
    requires Searched(generations, tape, best, bestScore, withoutImprovement, candidateIds, count, score)
    ensures Stale(Tops(generations, score), |generations| - 1)
            <==> withoutImprovement >= PATIENCE && |generations| - 1 >= MINIMUM_GENERATION
  {
    var tops := Tops(generations, score);
    hide Individual, RankedPopulation, Tops, Evolved, Bounded;
    StaleExactly(tops, |tops| - 1 - withoutImprovement);
  }

  lemma NothingSearched(tape: Tape, best: Genome, candidateIds: seq<int>, count: nat, score: Genome -> real)
    requires Individual(best, candidateIds, count)
    ensures Searched([], tape, best, score(best), 0, candidateIds, count, score)
  {}

  /** Search until the generations are used up, or nothing improved for long enough. `generations` holds the
      populations that were ranked, in order. */
  method Search(candidateIds: seq<int>, count: nat, score: Genome -> real, tape: Tape)
    returns (best: Genome, bestScore: real, generationsRun: nat, ghost generations: seq<seq<Genome>>)
    requires Distinct(candidateIds) && count <= |candidateIds|
    requires forall g: nat, k: nat :: ValidDraws(tape(g, k), PopulationSize(|candidateIds|), count)
    ensures |generations| == generationsRun && 1 <= generationsRun <= GENERATIONS
    ensures Evolved(generations, tape, candidateIds, count, score)
    ensures Climbing(Tops(generations, score))
    ensures Individual(best, candidateIds, count) && bestScore == score(best)
    ensures WasRanked(best, generations) && Bounded(generations, score, bestScore)
    ensures Tops(generations, score)[generationsRun - 1] == bestScore
    ensures forall g :: 0 <= g < generationsRun - 1 ==> !Stale(Tops(generations, score), g)
    ensures generationsRun < GENERATIONS ==> Stale(Tops(generations, score), generationsRun - 1)
  {
    hide Individual, RankedPopulation, PopulationSize, Searched, Evolved, Climbing, Bounded, Stale, Tops, Follows,
        WasRanked, ValidDraws;
    var size := PopulationSize(|candidateIds|);
    SizeIsPositive(|candidateIds|);
    var population := [];
    while |population| < size
      invariant |population| <= size && Population(population, candidateIds, count)
      decreases size - |population|
    {
      var xs := SampleIndividual(candidateIds, count);
      population := population + [xs];
    }
    best, bestScore, generationsRun := population[0], score(population[0]), 0;
    generations := [];
    NothingSearched(tape, best, candidateIds, count, score);
    var withoutImprovement := 0;
    var generation := 0;
    while generation < GENERATIONS
      invariant 0 <= generation == generationsRun == |generations| <= GENERATIONS
      invariant |population| == size && Population(population, candidateIds, count)
      invariant Searched(generations, tape, best, bestScore, withoutImprovement, candidateIds, count, score)
      invariant generation > 0 ==>
                  Follows(generations[generation - 1], population, tape, generation - 1, candidateIds, count, score)
      invariant generation > 0 ==> !Stale(Tops(generations, score), generation - 1)
    {
      generationsRun := generation + 1;
      Recorded(generations, tape, best, bestScore, withoutImprovement, population, candidateIds, count, score);
      RankedFirstIsBest(population, score, candidateIds, count);
      var ranked := RankedPopulation(population, score);
      if generation == 0 || score(ranked[0]) > bestScore {
        bestScore, best, withoutImprovement := score(ranked[0]), ranked[0], 0;
      } else {
        withoutImprovement := withoutImprovement + 1;
      }
      generations := generations + [population];
      StaleNow(generations, tape, best, bestScore, withoutImprovement, candidateIds, count, score);
      if withoutImprovement >= PATIENCE && generation >= MINIMUM_GENERATION { break; }
      var g: nat := generation;
      population := NextGeneration(ranked, (k: nat) => tape(g, k), candidateIds, count, size, score);
      NextFollows(generations[generation], population, tape, generation, candidateIds, count, score);
      generation := generation + 1;
    }
    SearchedPromises(generations, tape, best, bestScore, withoutImprovement, candidateIds, count, score);
  }

  lemma SearchedPromises(generations: seq<seq<Genome>>, tape: Tape, best: Genome, bestScore: real,
                         withoutImprovement: nat, candidateIds: seq<int>, count: nat, score: Genome -> real)
    requires generations != []
    requires Searched(generations, tape, best, bestScore, withoutImprovement, candidateIds, count, score)
    ensures Evolved(generations, tape, candidateIds, count, score) && Climbing(Tops(generations, score))
    ensures Individual(best, candidateIds, count) && bestScore == score(best)
    ensures WasRanked(best, generations)
    ensures Bounded(generations, score, bestScore) && Tops(generations, score)[|generations| - 1] == bestScore
    ensures forall g :: 0 <= g < |generations| - 1 ==> !Stale(Tops(generations, score), g)
  {
    hide Individual, Evolved, Climbing, Bounded, Stale, Tops;
  }

  lemma SizeIsPositive(candidates: nat)
    ensures PopulationSize(candidates) > 0
  {}

  lemma NextFollows(before: seq<Genome>, after: seq<Genome>, tape: Tape, g: nat, candidateIds: seq<int>, count: nat,
                    score: Genome -> real)
    requires |after| == |before|
    requires forall i :: 0 <= i < |after| && i < ELITISM_COUNT ==> after[i] == RankedPopulation(before, score)[i]
    requires forall k :: ELITISM_COUNT <= k < |after| ==>
               Bred(after[k], RankedPopulation(before, score), tape(g, k), |candidateIds|, count, score)
    ensures Follows(before, after, tape, g, candidateIds, count, score)
  {
    hide Bred, RankedPopulation;
  }

  lemma TopsMore(generations: seq<seq<Genome>>, population: seq<Genome>, score: Genome -> real)
    requires population != []
    ensures Tops(generations + [population], score)
            == Tops(generations, score) + [score(RankedPopulation(population, score)[0])]
  {
    hide RankedPopulation;
  }

  lemma BoundedMore(generations: seq<seq<Genome>>, population: seq<Genome>, score: Genome -> real, bound: real,
                    top: real)
    requires generations != [] ==> Bounded(generations, score, bound)
    requires forall x :: x in population ==> score(x) <= top
    ensures Bounded(generations + [population], score, if generations == [] || top > bound then top else bound)
  {}

  /** The best of a generation leads the next, whose top is therefore no lower. */
  lemma EliteLeads(before: seq<Genome>, after: seq<Genome>, score: Genome -> real, candidateIds: seq<int>, count: nat)
    requires before != [] && |after| == |before| && EliteKept(before, after, score)
    requires Population(after, candidateIds, count)
    ensures TopScore(before, score) <= TopScore(after, score)
  {
    RankedFirstIsBest(after, score, candidateIds, count);
    hide RankedPopulation;
    assert after[0] == RankedPopulation(before, score)[0];
    assert after[0] in after;
  }
}
