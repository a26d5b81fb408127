/** How well a selection of questions fits what was asked for. Tags and subjects are compared as they are stored,
    in lower case. */
module Fitness {

  datatype Difficulty = Easy | Medium | Hard

  const DIFFICULTIES := [Easy, Medium, Hard]

  datatype Features = Features(difficulty: Difficulty, kind: int, tags: set<string>, subjects: set<string>,
                               weight: real)

  /** What the search aims at: how many questions of each difficulty and of each kind, the tags that must and may
      occur, and the total weight. */
  datatype Aims = Aims(difficulties: seq<int>, kinds: seq<int>, kindTargets: seq<int>, required: set<string>,
                       optional: set<string>, weight: real)

  predicate ValidAims(aims: Aims) {
    |aims.difficulties| == |DIFFICULTIES| && |aims.kinds| == |aims.kindTargets|
  }

  function OfDifficulty(selection: seq<Features>, d: Difficulty): nat {
    if selection == [] then 0
    else
      var n := |selection| - 1;
      OfDifficulty(selection[..n], d) + if selection[n].difficulty == d then 1 else 0
  }

  function OfKind(selection: seq<Features>, kind: int): nat {
    if selection == [] then 0
    else
      var n := |selection| - 1;
      OfKind(selection[..n], kind) + if selection[n].kind == kind then 1 else 0
  }

  function Tags(selection: seq<Features>): set<string> {
    if selection == [] then {} else Tags(selection[..|selection|-1]) + selection[|selection|-1].tags
  }

  function Subjects(selection: seq<Features>): set<string> {
    if selection == [] then {} else Subjects(selection[..|selection|-1]) + selection[|selection|-1].subjects
  }

  function Weight(selection: seq<Features>): real {
    if selection == [] then 0.0 else Weight(selection[..|selection|-1]) + selection[|selection|-1].weight
  }

  function Gap(a: int, b: int): (gap: nat)
    ensures gap == 0 <==> a == b
  {
    if a < b then b - a else a - b
  }

  function WeightGap(a: real, b: real): (gap: real)
    ensures gap >= 0.0 && (gap == 0.0 <==> a == b)
  {
    if a < b then b - a else a - b
  }

  function DifficultyPenalty(selection: seq<Features>, targets: seq<int>, n: nat): nat
    requires n <= |targets| == |DIFFICULTIES|
  {
    if n == 0 then 0
    else
      DifficultyPenalty(selection, targets, n - 1)
      + 40 * Gap(OfDifficulty(selection, DIFFICULTIES[n-1]), targets[n-1])
  }

  function KindPenalty(selection: seq<Features>, aims: Aims, n: nat): nat
    requires ValidAims(aims) && n <= |aims.kinds|
  {
    if n == 0 then 0
    else KindPenalty(selection, aims, n - 1) + 30 * Gap(OfKind(selection, aims.kinds[n-1]), aims.kindTargets[n-1])
  }

  /** What is missing or too much. */
  function Penalty(selection: seq<Features>, aims: Aims): real
    requires ValidAims(aims)
  {
    DifficultyPenalty(selection, aims.difficulties, 3) as real + KindPenalty(selection, aims, |aims.kinds|) as real
    + (80 * |aims.required - Tags(selection)|) as real + WeightGap(Weight(selection), aims.weight) * 8.0
  }

  function AtMost(n: nat, limit: nat): nat {
    if n < limit then n else limit
  }

  /** What is better than asked for: preferred tags, and variety up to a limit. */
  function Bonus(selection: seq<Features>, aims: Aims): nat {
    24 * |aims.optional * Tags(selection)| + 2 * AtMost(|Tags(selection)|, 10) + 3 * AtMost(|Subjects(selection)|, 3)
  }

  function Fit(selection: seq<Features>, aims: Aims): real
    requires ValidAims(aims)
  {
    1000.0 - Penalty(selection, aims) + Bonus(selection, aims) as real
  }

  // ---------------------------------------------------------------- what it means

  lemma {:induction false} NoDifficultyGap(selection: seq<Features>, targets: seq<int>, n: nat)
    requires n <= |targets| == |DIFFICULTIES|
    ensures DifficultyPenalty(selection, targets, n) == 0
            <==> forall i :: 0 <= i < n ==> OfDifficulty(selection, DIFFICULTIES[i]) == targets[i]
  {
    if n > 0 { NoDifficultyGap(selection, targets, n - 1); }
  }

  lemma {:induction false} NoKindGap(selection: seq<Features>, aims: Aims, n: nat)
    requires ValidAims(aims) && n <= |aims.kinds|
    ensures KindPenalty(selection, aims, n) == 0
            <==> forall i :: 0 <= i < n ==> OfKind(selection, aims.kinds[i]) == aims.kindTargets[i]
  {
    if n > 0 { NoKindGap(selection, aims, n - 1); }
  }

  /** Every aim is met: the counts, the required tags and the weight. */
  ghost predicate MeetsAims(selection: seq<Features>, aims: Aims)
    requires ValidAims(aims)
  {
    && (forall i :: 0 <= i < 3 ==> OfDifficulty(selection, DIFFICULTIES[i]) == aims.difficulties[i])
    && (forall i :: 0 <= i < |aims.kinds| ==> OfKind(selection, aims.kinds[i]) == aims.kindTargets[i])
    && aims.required <= Tags(selection) && Weight(selection) == aims.weight
  }

  /** A selection is without penalty exactly when it meets every aim. */
  lemma PenaltyFreeExactly(selection: seq<Features>, aims: Aims)
    requires ValidAims(aims)
    ensures Penalty(selection, aims) >= 0.0
    ensures Penalty(selection, aims) == 0.0 <==> MeetsAims(selection, aims)
  {
    NoDifficultyGap(selection, aims.difficulties, 3);
    NoKindGap(selection, aims, |aims.kinds|);
    NothingRequired(aims.required, Tags(selection));
    hide DifficultyPenalty, KindPenalty, Tags, Weight, OfDifficulty, OfKind, WeightGap;
  }

  lemma NothingRequired(required: set<string>, tags: set<string>)
    ensures |required - tags| == 0 <==> required <= tags
  {
    if required <= tags {
      assert required - tags == {};
    } else {
      var t :| t in required && t !in tags;
      assert t in required - tags;
    }
  }

  /** No selection scores more than this, and one scores it exactly when it meets every aim, has every preferred tag,
      and at least ten tags and three subjects. */
  lemma FitIsBounded(selection: seq<Features>, aims: Aims)
    requires ValidAims(aims)
    ensures var most := (1029 + 24 * |aims.optional|) as real;
            && Fit(selection, aims) <= most
            && (Fit(selection, aims) == most
                <==> MeetsAims(selection, aims) && aims.optional <= Tags(selection)
                     && |Tags(selection)| >= 10 && |Subjects(selection)| >= 3)
  {
    PenaltyFreeExactly(selection, aims);
    FewerOptional(aims.optional, Tags(selection));
    hide Penalty, Tags, Subjects, MeetsAims;
  }

  /** Every preferred tag counts, and so does variety up to its limit: of two selections with the same penalty, one with
      more preferred tags and no less variety scores more. */
  lemma PreferredTagsPay(a: seq<Features>, b: seq<Features>, aims: Aims)
    requires ValidAims(aims) && Penalty(a, aims) == Penalty(b, aims)
    requires |Tags(a)| >= |Tags(b)| && |Subjects(a)| >= |Subjects(b)|
    requires |aims.optional * Tags(a)| > |aims.optional * Tags(b)|
    ensures Fit(a, aims) >= Fit(b, aims) + 24.0
  {
    hide Penalty, Tags, Subjects;
  }

  lemma FewerOptional(optional: set<string>, tags: set<string>)
    ensures |optional * tags| <= |optional|
    ensures |optional * tags| == |optional| <==> optional <= tags
  {
    assert optional == (optional * tags) + (optional - tags);
    assert |optional| == |optional * tags| + |optional - tags|;
    if optional <= tags {
      assert optional - tags == {};
    } else {
      var t :| t in optional && t !in tags;
      assert t in optional - tags;
    }
  }

  // ---------------------------------------------------------------- the computation

  function At<K>(counts: map<K, int>, k: K): int {
    if k in counts then counts[k] else 0
  }

  function Selected(individual: seq<int>, features: map<int, Features>): (selection: seq<Features>)
    requires forall i :: 0 <= i < |individual| ==> individual[i] in features
    ensures |selection| == |individual|
  {
    seq(|individual|, i requires 0 <= i < |individual| => features[individual[i]])
  }

  /** What one pass over the individual counts. */
  datatype Tally = Tally(difficulties: map<Difficulty, int>, kinds: map<int, int>, tags: set<string>,
                         subjects: set<string>, weight: real)

  ghost predicate Tallies(t: Tally, selection: seq<Features>) {
    && (forall d :: At(t.difficulties, d) == OfDifficulty(selection, d))
    && (forall k :: At(t.kinds, k) == OfKind(selection, k))
    && t.tags == Tags(selection) && t.subjects == Subjects(selection) && t.weight == Weight(selection)
  }

  function Counted(t: Tally, f: Features): Tally {
    Tally(t.difficulties[f.difficulty := At(t.difficulties, f.difficulty) + 1],
          t.kinds[f.kind := At(t.kinds, f.kind) + 1],
          t.tags + f.tags, t.subjects + f.subjects, t.weight + f.weight)
  }

  lemma OneMoreTallied(t: Tally, selection: seq<Features>, i: nat)
    requires i < |selection| && Tallies(t, selection[..i])
    ensures Tallies(Counted(t, selection[i]), selection[..i+1])
  {
    var more := selection[..i+1];
    assert more[..i] == selection[..i] && more[i] == selection[i];
    forall d ensures OfDifficulty(more, d) == At(Counted(t, selection[i]).difficulties, d) {
      assert OfDifficulty(more[..i], d) == At(t.difficulties, d);
    }
    forall k ensures OfKind(more, k) == At(Counted(t, selection[i]).kinds, k) {
      assert OfKind(more[..i], k) == At(t.kinds, k);
    }
  }

  method TallyOf(individual: seq<int>, features: map<int, Features>) returns (t: Tally)
    requires forall i :: 0 <= i < |individual| ==> individual[i] in features
    ensures Tallies(t, Selected(individual, features))
  {
    ghost var selection := Selected(individual, features);
    t := Tally(map[], map[], {}, {}, 0.0);
    for i := 0 to |individual|
      invariant Tallies(t, selection[..i])
    {
      hide Tallies;
      OneMoreTallied(t, selection, i);
      t := Counted(t, features[individual[i]]);
    }
    assert selection[..|individual|] == selection;
  }

  /** The fitness of an individual: one pass to count, then the gaps of every aim. */
  method IndividualFitness(individual: seq<int>, features: map<int, Features>, aims: Aims) returns (fitness: real)
    requires ValidAims(aims) && forall i :: 0 <= i < |individual| ==> individual[i] in features
    ensures fitness == Fit(Selected(individual, features), aims)
  {
    hide OfDifficulty, OfKind, Tags, Subjects, Weight, Gap, WeightGap;
    ghost var selection := Selected(individual, features);
    var t := TallyOf(individual, features);
    var penalty := 0;
    for i := 0 to |aims.difficulties|
      invariant penalty == DifficultyPenalty(selection, aims.difficulties, i)
    {
      penalty := penalty + 40 * Gap(At(t.difficulties, DIFFICULTIES[i]), aims.difficulties[i]);
    }
    for i := 0 to |aims.kinds|
      invariant penalty == DifficultyPenalty(selection, aims.difficulties, 3) + KindPenalty(selection, aims, i)
    {
      penalty := penalty + 30 * Gap(At(t.kinds, aims.kinds[i]), aims.kindTargets[i]);
    }
    penalty := penalty + 80 * |aims.required - t.tags|;
    var bonus := 24 * |aims.optional * t.tags| + 2 * AtMost(|t.tags|, 10) + 3 * AtMost(|t.subjects|, 3);
    fitness := 1000.0 - (penalty as real + WeightGap(t.weight, aims.weight) * 8.0) + bonus as real;
  }
}
