/** Generating a paper: how many questions of each type to take, the search for them, and the finished
    list of questions with order numbers and marks. */
module PaperGeneration {
  import opened Fitness
  import opened GeneticSearch
  import opened MarkDistribution
  import opened Ranking
  import opened Wrappers
  import TargetCounts

  type Kind = int

  datatype TypeCount = TypeCount(kind: Kind, count: nat)

  datatype Question = Question(id: int, kind: Kind, scoreWeight: real, difficulty: Difficulty, tags: set<string>,
                               subjects: set<string>)

  datatype QuestionRef = QuestionRef(questionId: int, orderNo: nat, marks: int)

  datatype Paper = Paper(refs: seq<QuestionRef>, questions: seq<Question>, generationsRun: nat)

  // ---------------------------------------------------------------- type targets

  function Total(counts: seq<TypeCount>, kind: Kind): nat {
    if counts == [] then 0
    else
      var last := counts[|counts|-1];
      Total(counts[..|counts|-1], kind) + if last.kind == kind then last.count else 0
  }

  ghost predicate DistinctKinds(counts: seq<TypeCount>) {
    forall i, j :: 0 <= i < j < |counts| ==> counts[i].kind != counts[j].kind
  }

  method AddCount(counts: seq<TypeCount>, more: TypeCount) returns (merged: seq<TypeCount>)
    requires DistinctKinds(counts)
    ensures DistinctKinds(merged)
    ensures forall kind :: Total(merged, kind) == Total(counts, kind) + if more.kind == kind then more.count else 0
    ensures forall c :: c in merged ==> c.kind == more.kind || c in counts
    ensures exists c :: c in merged && c.kind == more.kind && c.count >= more.count
    ensures forall c :: c in counts ==> exists d :: d in merged && d.kind == c.kind && d.count >= c.count
  {
    hide Total;
    var i := 0;
    while i < |counts| && counts[i].kind != more.kind
      invariant 0 <= i <= |counts|
      invariant forall j :: 0 <= j < i ==> counts[j].kind != more.kind
    {
      i := i + 1;
    }
    if i < |counts| {
      var sum := TypeCount(more.kind, counts[i].count + more.count);
      merged := counts[i := sum];
      forall kind ensures Total(merged, kind) == Total(counts, kind) + if more.kind == kind then more.count else 0 {
        TotalUpdate(counts, i, sum, kind);
      }
      assert merged[i] in merged;
      forall c | c in counts ensures exists d :: d in merged && d.kind == c.kind && d.count >= c.count {
        var j :| 0 <= j < |counts| && counts[j] == c;
        assert merged[j] in merged;
      }
    } else {
      merged := counts + [more];
      forall kind ensures Total(merged, kind) == Total(counts, kind) + if more.kind == kind then more.count else 0 {
        TotalAppend(counts, more, kind);
      }
      assert merged[|counts|] in merged;
    }
  }

  lemma TotalAppend(counts: seq<TypeCount>, c: TypeCount, kind: Kind)
    ensures Total(counts + [c], kind) == Total(counts, kind) + if c.kind == kind then c.count else 0
  {
    assert (counts + [c])[..|counts|] == counts;
  }

  lemma {:induction false} TotalUpdate(counts: seq<TypeCount>, i: nat, c: TypeCount, kind: Kind)
    requires i < |counts| && counts[i].kind == c.kind && counts[i].count <= c.count
    ensures Total(counts[i := c], kind) == Total(counts, kind) + if c.kind == kind then c.count - counts[i].count else 0
  {
    var n := |counts| - 1;
    if i < n {
      TotalUpdate(counts[..n], i, c, kind);
      assert counts[i := c][..n] == counts[..n][i := c];
    } else {
      assert counts[i := c][..n] == counts[..n];
    }
  }

  /** Counts asked for more than once for the same type add up. */
  method GenerationTypeCounts(requested: seq<TypeCount>) returns (counts: seq<TypeCount>)
    ensures DistinctKinds(counts)
    ensures forall kind :: Total(counts, kind) == Total(requested, kind)
    ensures forall r :: r in requested ==> exists c :: c in counts && c.kind == r.kind && c.count >= r.count
  {
    counts := [];
    var i := 0;
    while i < |requested|
      invariant 0 <= i <= |requested|
      invariant DistinctKinds(counts)
      invariant forall kind :: Total(counts, kind) == Total(requested[..i], kind)
      invariant forall r :: r in requested[..i] ==> exists c :: c in counts && c.kind == r.kind && c.count >= r.count
    {
      hide Total, DistinctKinds;
      assert requested[..i+1] == requested[..i] + [requested[i]];
      forall kind
        ensures Total(requested[..i+1], kind) == Total(requested[..i], kind)
                + if requested[i].kind == kind then requested[i].count else 0 {
        TotalAppend(requested[..i], requested[i], kind);
      }
      counts := AddCount(counts, requested[i]);
      i := i + 1;
    }
    assert requested[..|requested|] == requested;
  }

  function Available(candidates: seq<Question>, kind: Kind): nat {
    if candidates == [] then 0
    else
      var n := |candidates| - 1;
      Available(candidates[..n], kind) + if candidates[n].kind == kind then 1 else 0
  }

  /** As many of each type as asked for, or as there are. */
  function TypeTargets(counts: seq<TypeCount>, candidates: seq<Question>): (targets: seq<int>)
    ensures |targets| == |counts|
  {
    seq(|counts|, i requires 0 <= i < |counts| =>
      var available := Available(candidates, counts[i].kind);
      if available < counts[i].count then available else counts[i].count)
  }

  function Availabilities(counts: seq<TypeCount>, candidates: seq<Question>): (s: seq<int>)
    ensures |s| == |counts|
  {
    seq(|counts|, i requires 0 <= i < |counts| => Available(candidates, counts[i].kind))
  }

  lemma {:induction false} SumOrder(a: seq<int>, b: seq<int>)
    requires |a| == |b| && forall i :: 0 <= i < |a| ==> a[i] <= b[i]
    ensures Sum(a) <= Sum(b)
  {
    if a != [] { SumOrder(a[..|a|-1], b[..|b|-1]); }
  }

  /** At most one of several different entries differs, and by at most one: the sums differ by at most one. */
  lemma {:induction false} OneMore(a: seq<int>, b: seq<int>)
    requires |a| == |b| && forall i :: 0 <= i < |a| ==> a[i] <= b[i] <= a[i] + 1
    requires forall i, j :: 0 <= i < j < |a| ==> a[i] == b[i] || a[j] == b[j]
    ensures Sum(b) <= Sum(a) + 1
  {
    if a != [] {
      var n := |a| - 1;
      if a[n] == b[n] {
        OneMore(a[..n], b[..n]);
      } else {
        SumOrder(b[..n], a[..n]);
      }
    }
  }

  /** Different types share the candidates out: together they have at most all of them. */
  lemma {:induction false} AvailableTogether(counts: seq<TypeCount>, candidates: seq<Question>)
    requires DistinctKinds(counts)
    ensures Sum(Availabilities(counts, candidates)) <= |candidates|
    decreases |candidates|
  {
    var after := Availabilities(counts, candidates);
    if candidates == [] {
      SumOrder(after, seq(|counts|, i => 0));
      SumOfZeros(|counts|);
    } else {
      var before := Availabilities(counts, candidates[..|candidates|-1]);
      AvailableTogether(counts, candidates[..|candidates|-1]);
      hide Sum;
      OneMore(before, after);
    }
  }

  lemma {:induction false} SumOfZeros(n: nat)
    ensures Sum(seq(n, i => 0)) == 0
  {
    if n > 0 {
      SumOfZeros(n - 1);
      assert seq(n, i => 0)[..n-1] == seq(n - 1, i => 0);
    }
  }

  /** The targets never ask for more than there are: the check for too few candidates never fires. */
  lemma TargetsFit(counts: seq<TypeCount>, candidates: seq<Question>)
    requires DistinctKinds(counts)
    ensures Sum(TypeTargets(counts, candidates)) <= |candidates|
  {
    AvailableTogether(counts, candidates);
    SumOrder(TypeTargets(counts, candidates), Availabilities(counts, candidates));
  }

  // ---------------------------------------------------------------- the finished paper

  function ScoreWeights(questions: seq<Question>): (ws: seq<real>)
    ensures |ws| == |questions|
  {
    seq(|questions|, i requires 0 <= i < |questions| => questions[i].scoreWeight)
  }

  function MarksOf(refs: seq<QuestionRef>): (marks: seq<int>)
    ensures |marks| == |refs|
  {
    seq(|refs|, i requires 0 <= i < |refs| => refs[i].marks)
  }

  /** The list of a paper: the questions in order, numbered from one, with marks that add up to the total and
      follow the score weights. */
  ghost predicate Listed(refs: seq<QuestionRef>, questions: seq<Question>, totalMarks: int) {
    && |refs| == |questions|
    && (forall i :: 0 <= i < |refs| ==> refs[i].questionId == questions[i].id && refs[i].orderNo == i + 1)
    && (questions != [] ==>
          && SumReal(Weights(ScoreWeights(questions))) > 0.0
          && Fair(MarksOf(refs), RawMarks(Weights(ScoreWeights(questions)), totalMarks), totalMarks))
  }

  method BuildPaper(questions: seq<Question>, totalMarks: int, generationsRun: nat) returns (reply: Reply<Paper>)
    ensures reply.Ok? <==> questions == [] || totalMarks >= |questions|
    ensures reply.Ok? ==> reply.value.questions == questions && reply.value.generationsRun == generationsRun
    ensures reply.Ok? ==> Listed(reply.value.refs, questions, totalMarks)
  {
    hide Fair, Weights, RawMarks, SumReal;
    var distributed := DistributeMarks(ScoreWeights(questions), totalMarks);
    if distributed.Fail? {
      return Fail(distributed.error);
    }
    var marks := distributed.value;
    MarksPerQuestion(questions, marks, totalMarks);
    var refs := seq(|questions|, i requires 0 <= i < |questions| => QuestionRef(questions[i].id, i + 1, marks[i]));
    assert MarksOf(refs) == marks;
    return Ok(Paper(refs, questions, generationsRun));
  }

  lemma MarksPerQuestion(questions: seq<Question>, marks: seq<int>, totalMarks: int)
    requires questions == [] ==> marks == []
    requires questions != [] ==>
               && SumReal(Weights(ScoreWeights(questions))) > 0.0
               && Fair(marks, RawMarks(Weights(ScoreWeights(questions)), totalMarks), totalMarks)
    ensures |marks| == |questions|
  {}

  // ---------------------------------------------------------------- generation

  ghost predicate DistinctIds(candidates: seq<Question>) {
    forall i, j :: 0 <= i < j < |candidates| ==> candidates[i].id != candidates[j].id
  }

  function Ids(candidates: seq<Question>): (ids: seq<int>)
    ensures |ids| == |candidates| && forall i :: 0 <= i < |ids| ==> ids[i] == candidates[i].id
  {
    seq(|candidates|, i requires 0 <= i < |candidates| => candidates[i].id)
  }

  function QuestionById(candidates: seq<Question>, id: int): (q: Question)
    requires exists i :: 0 <= i < |candidates| && candidates[i].id == id
    ensures q in candidates && q.id == id
  {
    if candidates[0].id == id then candidates[0] else QuestionById(candidates[1..], id)
  }

  /** A finished paper for the candidates: `count` different ones of them, listed with their marks. */
  ghost predicate GoodPaper(paper: Paper, candidates: seq<Question>, count: nat, totalMarks: int) {
    && |paper.questions| == count
    && (forall q :: q in paper.questions ==> q in candidates)
    && DistinctIds(paper.questions)
    && Listed(paper.refs, paper.questions, totalMarks)
  }

  lemma CountIsPositive(counts: seq<TypeCount>, candidates: seq<Question>, kind: Kind)
    requires candidates != [] && candidates[|candidates|-1].kind == kind
    requires exists c :: c in counts && c.kind == kind && c.count > 0
    ensures Sum(TypeTargets(counts, candidates)) > 0
  {
    var c :| c in counts && c.kind == kind && c.count > 0;
    var k :| 0 <= k < |counts| && counts[k] == c;
    var targets := TypeTargets(counts, candidates);
    assert Available(candidates, kind) > 0;
    assert targets[k] > 0;
    MemberAtMostSum(targets, k);
  }

  method SelectQuestions(candidates: seq<Question>, best: Genome, count: nat) returns (questions: seq<Question>)
    requires DistinctIds(candidates) && Individual(best, Ids(candidates), count)
    ensures |questions| == count && DistinctIds(questions)
    ensures forall i :: 0 <= i < count ==> questions[i] in candidates && questions[i].id == best[i]
  {
    forall i | 0 <= i < count ensures exists k :: 0 <= k < |candidates| && candidates[k].id == best[i] {
      assert best[i] in best;
      var k :| 0 <= k < |candidates| && Ids(candidates)[k] == best[i];
      assert candidates[k].id == best[i];
    }
    questions := seq(count, i requires 0 <= i < count => QuestionById(candidates, best[i]));
  }

  // ---------------------------------------------------------------- what is searched for

  /** What the fitness looks at in a question. */
  function FeaturesOf(q: Question): Features {
    Features(q.difficulty, q.kind, q.tags, q.subjects, if q.scoreWeight > 0.01 then q.scoreWeight else 0.01)
  }

  function FeatureMap(candidates: seq<Question>): map<int, Features> {
    if candidates == [] then map[]
    else
      var last := candidates[|candidates|-1];
      FeatureMap(candidates[..|candidates|-1])[last.id := FeaturesOf(last)]
  }

  lemma {:induction false} FeatureOf(candidates: seq<Question>, i: nat)
    requires DistinctIds(candidates) && i < |candidates|
    ensures candidates[i].id in FeatureMap(candidates)
    ensures FeatureMap(candidates)[candidates[i].id] == FeaturesOf(candidates[i])
  {
    var n := |candidates| - 1;
    if i < n { FeatureOf(candidates[..n], i); }
  }

  function Kinds(counts: seq<TypeCount>): (kinds: seq<Kind>)
    ensures |kinds| == |counts| && forall i :: 0 <= i < |counts| ==> kinds[i] == counts[i].kind
  {
    seq(|counts|, i requires 0 <= i < |counts| => counts[i].kind)
  }

  predicate Known(xs: Genome, features: map<int, Features>) {
    forall i :: 0 <= i < |xs| ==> xs[i] in features
  }

  /** The score of an individual; the search scores no other lists. */
  function Scorer(candidates: seq<Question>, aims: Aims): Genome -> real
    requires ValidAims(aims)
  {
    var features := FeatureMap(candidates);
    xs => if Known(xs, features) then Fit(Selected(xs, features), aims) else 0.0
  }

  function FeaturesAll(questions: seq<Question>): (selection: seq<Features>)
    ensures |selection| == |questions|
  {
    seq(|questions|, i requires 0 <= i < |questions| => FeaturesOf(questions[i]))
  }

  /** The score of a list of candidates by their identifiers is the fit of their own features. */
  lemma ScoreIsFit(candidates: seq<Question>, aims: Aims, questions: seq<Question>)
    requires ValidAims(aims) && DistinctIds(candidates) && forall q :: q in questions ==> q in candidates
    ensures Scorer(candidates, aims)(Ids(questions)) == Fit(FeaturesAll(questions), aims)
  {
    var features, ids := FeatureMap(candidates), Ids(questions);
    forall i | 0 <= i < |ids| ensures ids[i] in features && features[ids[i]] == FeaturesOf(questions[i]) {
      assert questions[i] in candidates;
      var k :| 0 <= k < |candidates| && candidates[k] == questions[i];
      FeatureOf(candidates, k);
    }
    assert Selected(ids, features) == FeaturesAll(questions);
    hide Fit, FeatureMap;
  }

  /** The draws of a run, for a population of some size and individuals of some length. */
  type Random = (nat, nat, nat, nat) -> Breeding

  function TapeOf(random: Random, size: nat, count: nat): Tape {
    (g: nat, k: nat) => random(size, count, g, k)
  }

  /** What the request schema and the candidate query guarantee: a positive count for every type asked for, and
      candidates of those types alone. */
  ghost predicate Matching(candidates: seq<Question>, requested: seq<TypeCount>) {
    && (forall r :: r in requested ==> r.count > 0)
    && forall q :: q in candidates ==> exists r :: r in requested && r.kind == q.kind
  }

  /** What a paper with `count` questions is to aim at: the difficulties the coefficient calls for, of each type as many
      as were asked for or as there are, the tags, and a question weight that matches the marks. */
  ghost predicate AimsFor(aims: Aims, counts: seq<TypeCount>, candidates: seq<Question>, totalMarks: int,
                          coefficient: real, required: set<string>, preferred: set<string>) {
    && ValidAims(aims) && aims.kinds == Kinds(counts) && aims.kindTargets == TypeTargets(counts, candidates)
    && Sum(aims.kindTargets) >= 0
    && TargetCounts.SharedOut(aims.difficulties, coefficient, Sum(aims.kindTargets))
    && aims.required == required && aims.optional == preferred - required && aims.weight == totalMarks as real
  }

  /** The questions are the best individual that the search ranked, and the search went as it must. */
  ghost predicate Best(questions: seq<Question>, candidates: seq<Question>, aims: Aims, tape: Tape,
                       generations: seq<seq<Genome>>)
    requires ValidAims(aims)
  {
    var score := Scorer(candidates, aims);
    && generations != [] && Evolved(generations, tape, Ids(candidates), |questions|, score)
    && WasRanked(Ids(questions), generations) && Bounded(generations, score, score(Ids(questions)))
    && (|generations| < GENERATIONS ==> Stale(Tops(generations, score), |generations| - 1))
  }

  /** Generate a paper from the candidates of the requested types. */
  method GeneratePaper(candidates: seq<Question>, requested: seq<TypeCount>, totalMarks: int, coefficient: real,
                       required: set<string>, preferred: set<string>, random: Random)
    returns (reply: Reply<Paper>, counts: seq<TypeCount>, ghost aims: Aims, ghost generations: seq<seq<Genome>>)
    requires DistinctIds(candidates) && Matching(candidates, requested) && 0.0 <= coefficient <= 1.0
    requires forall size: nat, count: nat, g: nat, k: nat :: ValidDraws(random(size, count, g, k), size, count)
    ensures DistinctKinds(counts) && forall kind :: Total(counts, kind) == Total(requested, kind)
    ensures reply.Ok? <==> candidates != [] && Sum(TypeTargets(counts, candidates)) <= totalMarks
    ensures reply.Ok? ==>
              && Sum(TypeTargets(counts, candidates)) > 0
              && GoodPaper(reply.value, candidates, Sum(TypeTargets(counts, candidates)), totalMarks)
              && Sum(MarksOf(reply.value.refs)) == totalMarks
              && AimsFor(aims, counts, candidates, totalMarks, coefficient, required, preferred)
              && reply.value.generationsRun == |generations|
              && if |candidates| == Sum(TypeTargets(counts, candidates))
                 then generations == [] && reply.value.questions == candidates
                 else Best(reply.value.questions, candidates, aims,
                           TapeOf(random, PopulationSize(|candidates|), |reply.value.questions|), generations)
  {
    hide Individual, Listed, Total, Sum, TypeTargets, Evolved, Bounded, Tops, WasRanked, Fit, Stale, Climbing,
        ValidDraws, TargetCounts.SharedOut, PopulationSize, Scorer;
    counts := GenerationTypeCounts(requested);
    aims, generations := Aims([0, 0, 0], [], [], {}, {}, 0.0), [];
    if candidates == [] {
      return Fail("INSUFFICIENT_QUESTIONS"), counts, aims, generations;
    }
    var typeTargets := TypeTargets(counts, candidates);
    var questionCount := Sum(typeTargets);
    TargetsFit(counts, candidates);
    SomeAreWanted(candidates, requested, counts);
    assert questionCount <= |candidates|;  // the check for too few candidates never fires
    if totalMarks < questionCount {
      return Fail("totalMarks must be at least the number of selected questions"), counts, aims, generations;
    }
    var difficultyTargets := TargetCounts.DifficultyTargets(coefficient, questionCount);
    var goals := Aims(difficultyTargets, Kinds(counts), typeTargets, required, preferred - required,
        totalMarks as real);
    aims := goals;
    var selected, generationsRun := candidates, 0;
    if |candidates| != questionCount {
      selected, generationsRun, generations := BestQuestions(candidates, questionCount, goals, random);
    }
    reply := BuildPaper(selected, totalMarks, generationsRun);
    ListedMarks(reply.value.refs, selected, totalMarks);
  }

  /** Search for the best individual and look its questions up. */
  method BestQuestions(candidates: seq<Question>, count: nat, aims: Aims, random: Random)
    returns (selected: seq<Question>, generationsRun: nat, ghost generations: seq<seq<Genome>>)
    requires DistinctIds(candidates) && count <= |candidates| && ValidAims(aims)
    requires forall size: nat, count: nat, g: nat, k: nat :: ValidDraws(random(size, count, g, k), size, count)
    ensures |selected| == count && DistinctIds(selected) && forall q :: q in selected ==> q in candidates
    ensures generationsRun == |generations|
    ensures Best(selected, candidates, aims, TapeOf(random, PopulationSize(|candidates|), count), generations)
  {
    hide Individual, Evolved, Bounded, Tops, WasRanked, Stale, Climbing, ValidDraws, PopulationSize, Scorer;
    var best, bestScore;
    var size := PopulationSize(|candidates|);
    best, bestScore, generationsRun, generations :=
      Search(Ids(candidates), count, Scorer(candidates, aims), TapeOf(random, size, count));
    IndividualShape(best, Ids(candidates), count);
    selected := SelectQuestions(candidates, best, count);
    assert Ids(selected) == best;
  }

  lemma SomeAreWanted(candidates: seq<Question>, requested: seq<TypeCount>, counts: seq<TypeCount>)
    requires candidates != [] && Matching(candidates, requested)
    requires forall r :: r in requested ==> exists c :: c in counts && c.kind == r.kind && c.count >= r.count
    ensures Sum(TypeTargets(counts, candidates)) > 0
  {
    var last := candidates[|candidates|-1];
    assert last in candidates;
    var r :| r in requested && r.kind == last.kind;
    var c :| c in counts && c.kind == r.kind && c.count >= r.count;
    CountIsPositive(counts, candidates, last.kind);
  }

  lemma ListedMarks(refs: seq<QuestionRef>, questions: seq<Question>, totalMarks: int)
    requires Listed(refs, questions, totalMarks) && questions != []
    ensures Sum(MarksOf(refs)) == totalMarks
  {
    hide RawMarks, Weights, Sum, SumReal;
  }
}
