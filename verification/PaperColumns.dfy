/** Packing the questions of a paper into the columns of the DOCX template: questions grouped by type,
    numbered through, and placed next-fit into columns of one capacity. Units are reals. */
module PaperColumns {
  import opened Wrappers

  datatype QuestionType = SingleChoice | MultipleChoice | TrueFalse | Blank | ShortAnswer | Essay | Other(name: string)

  datatype Question = Question(id: nat, kind: QuestionType, options: nat, hasAnswer: bool, images: nat)

  datatype Density = Normal | Compact | Dense

  type Item = (nat, Question)  // a question and its number on the paper

  datatype Section = Section(number: nat, kind: QuestionType, items: seq<Item>, density: Density)

  const TYPE_ORDER: seq<QuestionType> := [SingleChoice, MultipleChoice, TrueFalse, Blank, ShortAnswer, Essay]
  const TYPES: set<QuestionType> := {SingleChoice, MultipleChoice, TrueFalse, Blank, ShortAnswer, Essay}
  const OBJECTIVE_TYPES: seq<QuestionType> := [SingleChoice, MultipleChoice, TrueFalse]
  const COMPACT_TOTAL_THRESHOLD := 14
  const DENSE_TOTAL_THRESHOLD := 24
  const COMPACT_OBJECTIVE_THRESHOLD := 8
  const DENSE_OBJECTIVE_THRESHOLD := 14
  const COMPACT_COLUMN_CAPACITY := 45.0
  const DENSE_COLUMN_CAPACITY := 42.0
  const INTRO_UNITS := 3.0

  // ---------------------------------------------------------------- grouping

  /** Unknown types are set as short answers. */
  function TargetType(q: Question): QuestionType {
    if q.kind.Other? then ShortAnswer else q.kind
  }

  function OfType(questions: seq<Question>, t: QuestionType): seq<Question> {
    if questions == [] then []
    else
      var n := |questions| - 1;
      OfType(questions[..n], t) + if TargetType(questions[n]) == t then [questions[n]] else []
  }

  /** The questions of the types in `order`, type by type. */
  function InOrder(grouped: map<QuestionType, seq<Question>>, order: seq<QuestionType>): seq<Question> {
    if order == [] then []
    else
      var n := |order| - 1;
      InOrder(grouped, order[..n]) + if order[n] in grouped then grouped[order[n]] else []
  }

  function Grouped(questions: seq<Question>): map<QuestionType, seq<Question>> {
    map t | t in TYPES :: OfType(questions, t)
  }

  lemma TypeOrderCovers()
    ensures forall t: QuestionType :: t in TYPE_ORDER <==> t in TYPES
    ensures forall i, j :: 0 <= i < j < |TYPE_ORDER| ==> TYPE_ORDER[i] != TYPE_ORDER[j]
  {
    assert TYPE_ORDER[0] == SingleChoice && TYPE_ORDER[1] == MultipleChoice && TYPE_ORDER[2] == TrueFalse
        && TYPE_ORDER[3] == Blank && TYPE_ORDER[4] == ShortAnswer && TYPE_ORDER[5] == Essay;
  }

  method GroupQuestions(questions: seq<Question>) returns (grouped: map<QuestionType, seq<Question>>)
    ensures grouped == Grouped(questions)
  {
    grouped := map t | t in TYPES :: [];
    for i := 0 to |questions|
      invariant grouped == Grouped(questions[..i])
    {
      var target := if questions[i].kind in grouped then questions[i].kind else ShortAnswer;
      GroupedStep(questions, i);
      grouped := grouped[target := grouped[target] + [questions[i]]];
    }
    assert questions[..|questions|] == questions;
  }

  lemma GroupedStep(questions: seq<Question>, i: nat)
    requires i < |questions|
    ensures var before, target := Grouped(questions[..i]), TargetType(questions[i]);
            && target in before && (target == if questions[i].kind in before then questions[i].kind else ShortAnswer)
            && Grouped(questions[..i+1]) == before[target := before[target] + [questions[i]]]
  {
    var before, target := Grouped(questions[..i]), TargetType(questions[i]);
    assert questions[..i+1][..i] == questions[..i];
    assert target in TYPES;
    forall t | t in TYPES
      ensures OfType(questions[..i+1], t) == before[target := before[target] + [questions[i]]][t]
    {
      assert OfType(questions[..i], t) + [] == OfType(questions[..i], t);
    }
  }

  lemma {:induction false} OfTypeCounts(questions: seq<Question>, q: Question, t: QuestionType)
    ensures multiset(OfType(questions, t))[q] == if TargetType(q) == t then multiset(questions)[q] else 0
  {
    if questions != [] {
      var n := |questions| - 1;
      assert questions == questions[..n] + [questions[n]];
      OfTypeCounts(questions[..n], q, t);
    }
  }

  lemma {:induction false} InOrderCounts(questions: seq<Question>, order: seq<QuestionType>, q: Question)
    requires forall t :: t in order ==> t in TYPES
    requires forall i, j :: 0 <= i < j < |order| ==> order[i] != order[j]
    ensures multiset(InOrder(Grouped(questions), order))[q]
            == if TargetType(q) in order then multiset(questions)[q] else 0
  {
    if order != [] {
      var n := |order| - 1;
      assert order == order[..n] + [order[n]];
      InOrderCounts(questions, order[..n], q);
      OfTypeCounts(questions, q, order[n]);
    }
  }

  /** Grouping by type loses and repeats no question. */
  lemma GroupingPermutes(questions: seq<Question>)
    ensures multiset(InOrder(Grouped(questions), TYPE_ORDER)) == multiset(questions)
  {
    TypeOrderCovers();
    hide InOrder, Grouped;
    forall q: Question
      ensures multiset(InOrder(Grouped(questions), TYPE_ORDER))[q] == multiset(questions)[q]
    {
      InOrderCounts(questions, TYPE_ORDER, q);
    }
  }

  // ---------------------------------------------------------------- sections

  /** The questions with consecutive numbers from `first` on. */
  function Numbered(questions: seq<Question>, first: nat): (items: seq<Item>)
    ensures |items| == |questions|
  {
    seq(|questions|, i requires 0 <= i < |questions| => (first + i, questions[i]))
  }

  function ItemsOf(sections: seq<Section>): seq<Item> {
    if sections == [] then [] else ItemsOf(sections[..|sections|-1]) + sections[|sections|-1].items
  }

  function SectionDensity(kind: QuestionType, sectionCount: nat, total: nat, overall: Density): Density {
    if overall == Normal then Normal
    else if kind in OBJECTIVE_TYPES then
      if sectionCount >= DENSE_OBJECTIVE_THRESHOLD || total >= DENSE_TOTAL_THRESHOLD then Dense else Compact
    else if kind == Blank && (sectionCount >= 5 || overall == Dense) then Compact
    else if kind in {ShortAnswer, Essay} && sectionCount >= 6 then Compact
    else Normal
  }

  function OverallDensity(total: nat, objective: nat): Density {
    if total >= DENSE_TOTAL_THRESHOLD || objective >= DENSE_OBJECTIVE_THRESHOLD then Dense
    else if total >= COMPACT_TOTAL_THRESHOLD || objective >= COMPACT_OBJECTIVE_THRESHOLD then Compact
    else Normal
  }

  /** The density asked for, or else the one the sizes of the groups call for. */
  function ChosenDensity(grouped: map<QuestionType, seq<Question>>, requested: Option<Density>): Density {
    match requested
    case Some(density) => density
    case None => OverallDensity(|InOrder(grouped, TYPE_ORDER)|, |InOrder(grouped, OBJECTIVE_TYPES)|)
  }

  function ObjectiveCount(questions: seq<Question>): nat {
    if questions == [] then 0
    else
      var n := |questions| - 1;
      ObjectiveCount(questions[..n]) + if questions[n].kind in OBJECTIVE_TYPES then 1 else 0
  }

  lemma {:induction false} ObjectiveGroups(questions: seq<Question>)
    ensures |OfType(questions, SingleChoice)| + |OfType(questions, MultipleChoice)| + |OfType(questions, TrueFalse)|
         == ObjectiveCount(questions)
  {
    if questions != [] { ObjectiveGroups(questions[..|questions|-1]); }
  }

  lemma InOrderStep(grouped: map<QuestionType, seq<Question>>, order: seq<QuestionType>, i: nat)
    requires i < |order|
    ensures InOrder(grouped, order[..i+1]) == InOrder(grouped, order[..i])
            + if order[i] in grouped then grouped[order[i]] else []
  {
    assert order[..i+1][..i] == order[..i];
  }

  lemma ObjectiveGroupsInOrder(grouped: map<QuestionType, seq<Question>>)
    requires SingleChoice in grouped && MultipleChoice in grouped && TrueFalse in grouped
    ensures InOrder(grouped, OBJECTIVE_TYPES) == grouped[SingleChoice] + grouped[MultipleChoice] + grouped[TrueFalse]
  {
    InOrderStep(grouped, OBJECTIVE_TYPES, 0);
    InOrderStep(grouped, OBJECTIVE_TYPES, 1);
    InOrderStep(grouped, OBJECTIVE_TYPES, 2);
    assert OBJECTIVE_TYPES[..3] == OBJECTIVE_TYPES && OBJECTIVE_TYPES[..0] == [];
  }

  /** Left to itself, the density depends on the questions alone: how many there are and how many are objective. */
  lemma AutoDensity(questions: seq<Question>)
    ensures ChosenDensity(Grouped(questions), None) == OverallDensity(|questions|, ObjectiveCount(questions))
  {
    var grouped := Grouped(questions);
    GroupingPermutes(questions);
    ObjectiveGroups(questions);
    ObjectiveGroupsInOrder(grouped);
    hide InOrder, OfType, ObjectiveCount, OverallDensity;
    assert |InOrder(grouped, TYPE_ORDER)| == |multiset(InOrder(grouped, TYPE_ORDER))| == |multiset(questions)|;
  }

  /** Sections are numbered 1, 2, ..., none is empty, and each holds the questions of its type. */
  ghost predicate SectionsOk(sections: seq<Section>, grouped: map<QuestionType, seq<Question>>) {
    forall i :: 0 <= i < |sections| ==>
      && sections[i].number == i + 1 && sections[i].items != []
      && sections[i].kind in grouped && |sections[i].items| == |grouped[sections[i].kind]|
      && forall j :: 0 <= j < |sections[i].items| ==> sections[i].items[j].1 == grouped[sections[i].kind][j]
  }

  lemma NumberedAppend(a: seq<Question>, b: seq<Question>, first: nat)
    ensures Numbered(a + b, first) == Numbered(a, first) + Numbered(b, first + |a|)
  {}

  lemma NoSections(grouped: map<QuestionType, seq<Question>>)
    ensures InOrder(grouped, TYPE_ORDER[..0]) == [] && ItemsOf([]) == Numbered([], 1) && SectionsOk([], grouped)
  {}

  lemma ItemsAppend(sections: seq<Section>, section: Section)
    ensures ItemsOf(sections + [section]) == ItemsOf(sections) + section.items
  {
    assert (sections + [section])[..|sections|] == sections;
  }

  lemma AppendSection(sections: seq<Section>, section: Section, grouped: map<QuestionType, seq<Question>>,
                      questions: seq<Question>, first: nat)
    requires SectionsOk(sections, grouped) && section.number == |sections| + 1
    requires section.kind in grouped && grouped[section.kind] == questions != []
    requires section.items == Numbered(questions, first)
    ensures SectionsOk(sections + [section], grouped)
  {}

  method TemplateSections(grouped: map<QuestionType, seq<Question>>, total: nat, overall: Density)
    returns (sections: seq<Section>)
    ensures ItemsOf(sections) == Numbered(InOrder(grouped, TYPE_ORDER), 1)
    ensures SectionsOk(sections, grouped)
  {
    hide InOrder, SectionsOk, Numbered, SectionDensity, ItemsOf;
    sections := [];
    var sectionNumber, questionNumber := 0, 1;
    NoSections(grouped);
    for i := 0 to |TYPE_ORDER|
      invariant sectionNumber == |sections| && questionNumber == 1 + |InOrder(grouped, TYPE_ORDER[..i])|
      invariant ItemsOf(sections) == Numbered(InOrder(grouped, TYPE_ORDER[..i]), 1)
      invariant SectionsOk(sections, grouped)
    {
      var kind := TYPE_ORDER[i];
      InOrderStep(grouped, TYPE_ORDER, i);
      var questions := if kind in grouped then grouped[kind] else [];
      if questions == [] {
        assert InOrder(grouped, TYPE_ORDER[..i+1]) == InOrder(grouped, TYPE_ORDER[..i]);
        continue;
      }
      var items := Numbered(questions, questionNumber);
      questionNumber := questionNumber + |items|;
      sectionNumber := sectionNumber + 1;
      var section := Section(sectionNumber, kind, items, SectionDensity(kind, |questions|, total, overall));
      NumberedAppend(InOrder(grouped, TYPE_ORDER[..i]), questions, 1);
      ItemsAppend(sections, section);
      AppendSection(sections, section, grouped, questions, questionNumber - |items|);
      sections := sections + [section];
    }
    assert TYPE_ORDER[..|TYPE_ORDER|] == TYPE_ORDER;
  }

  /** Every question of the paper is in exactly one place, and the numbers run 1, 2, ..., n in section order. */
  lemma SectionsHoldEveryQuestionOnce(questions: seq<Question>, items: seq<Item>)
    requires items == Numbered(InOrder(Grouped(questions), TYPE_ORDER), 1)
    ensures |items| == |questions|
    ensures forall i :: 0 <= i < |items| ==> items[i].0 == i + 1
    ensures multiset(seq(|items|, i requires 0 <= i < |items| => items[i].1)) == multiset(questions)
  {
    var ordered := InOrder(Grouped(questions), TYPE_ORDER);
    GroupingPermutes(questions);
    hide InOrder, Grouped;
    assert |items| == |ordered| == |multiset(ordered)| == |multiset(questions)| == |questions|;
    assert seq(|items|, i requires 0 <= i < |items| => items[i].1) == ordered;
  }

  // ---------------------------------------------------------------- units

  function HeadingUnits(density: Density): real {
    if density == Dense then 1.2 else 1.5
  }

  function QuestionUnits(q: Question, includeAnswer: bool, density: Density): real {
    var body := match density
                case Dense => 1.7 + (if q.options > 0 then 0.9 else 0.0)
                case Compact => 2.0 + ((q.options + 1) / 2) as real
                case Normal => 2.8 + q.options as real;
    var answer := if includeAnswer && q.hasAnswer then (if density != Normal then 0.8 else 1.1) else 0.0;
    var blank := if q.kind == Essay then (if density == Dense then 4.0 else 5.0) else 0.0;
    body + answer + blank + 6.0 * q.images as real
  }

  function Capacity(overall: Density): real {
    if overall == Dense then DENSE_COLUMN_CAPACITY else COMPACT_COLUMN_CAPACITY
  }

  /** One unbreakable block: a question, with its section's heading when it opens the section. */
  datatype Block = Block(number: nat, question: Question, heading: bool, units: real)

  function BlockOf(section: Section, index: nat, includeAnswer: bool): Block
    requires index < |section.items|
  {
    var (number, question) := section.items[index];
    var units := QuestionUnits(question, includeAnswer, section.density);
    Block(number, question, index == 0, if index == 0 then units + HeadingUnits(section.density) else units)
  }

  lemma BlockIsPositive(section: Section, index: nat, includeAnswer: bool)
    requires index < |section.items|
    ensures BlockOf(section, index, includeAnswer).units > 0.0
  {}

  /** A denser layout needs less room for every question, and its columns hold less; an answer takes room exactly when
      it is there and asked for, and every image takes six units. */
  lemma DenserIsSmaller(q: Question, includeAnswer: bool, density: Density)
    ensures QuestionUnits(q, includeAnswer, Dense) < QuestionUnits(q, includeAnswer, Compact)
            < QuestionUnits(q, includeAnswer, Normal)
    ensures HeadingUnits(Dense) < HeadingUnits(Compact) == HeadingUnits(Normal)
    ensures Capacity(Dense) < Capacity(Compact)
    ensures QuestionUnits(q, true, density) > QuestionUnits(q, false, density) <==> q.hasAnswer
    ensures QuestionUnits(q.(images := q.images + 1), includeAnswer, density)
            == QuestionUnits(q, includeAnswer, density) + 6.0
  {}

  /** Sections are only as dense as the paper calls for: none is denser than normal on a normal paper; an objective one
      always is on any other, and dense exactly when it or the paper is long; no other section is ever dense. */
  lemma DenseSections(kind: QuestionType, sectionCount: nat, total: nat, overall: Density)
    ensures var density := SectionDensity(kind, sectionCount, total, overall);
            && (overall == Normal ==> density == Normal)
            && (density == Dense
                <==> overall != Normal && kind in OBJECTIVE_TYPES && (sectionCount >= 14 || total >= 24))
            && (overall != Normal && kind in OBJECTIVE_TYPES ==> density != Normal)
  {}

  // ---------------------------------------------------------------- packing

  datatype Layout = Layout(columns: seq<seq<Block>>, units: seq<real>)

  const START := Layout([[]], [INTRO_UNITS])  // the first column opens with the introduction

  function Place(l: Layout, capacity: real, b: Block): Layout
    requires |l.columns| == |l.units| > 0
  {
    var n := |l.columns| - 1;
    if l.units[n] > 0.0 && l.units[n] + b.units > capacity then
      Layout(l.columns + [[b]], l.units + [b.units])
    else
      Layout(l.columns[n := l.columns[n] + [b]], l.units[n := l.units[n] + b.units])
  }

  function Flat(columns: seq<seq<Block>>): seq<Block> {
    if columns == [] then [] else Flat(columns[..|columns|-1]) + columns[|columns|-1]
  }

  function Sum(blocks: seq<Block>): real {
    if blocks == [] then 0.0 else Sum(blocks[..|blocks|-1]) + blocks[|blocks|-1].units
  }

  function Total(units: seq<real>): real {
    if units == [] then 0.0 else Total(units[..|units|-1]) + units[|units|-1]
  }

  ghost predicate Positive(blocks: seq<Block>) {
    forall b :: b in blocks ==> b.units > 0.0
  }

  /** A column is within capacity or holds a single block; the first, which the introduction opens, is
      within capacity. A column opens only when its first block no longer fitted the one before, which
      held `before` units. */
  ghost predicate Fits(column: seq<Block>, units: real, first: bool, before: real, capacity: real) {
    && units == Sum(column) + (if first then INTRO_UNITS else 0.0)
    && Positive(column)
    && (if first then units <= capacity
        else column != [] && (units <= capacity || |column| == 1) && before + column[0].units > capacity)
  }

  ghost predicate ColumnOk(l: Layout, capacity: real, i: nat)
    requires |l.columns| == |l.units| && i < |l.columns|
  {
    Fits(l.columns[i], l.units[i], i == 0, if i > 0 then l.units[i-1] else 0.0, capacity)
  }

  ghost predicate LayoutOk(l: Layout, capacity: real, placed: seq<Block>) {
    && |l.columns| == |l.units| > 0
    && Flat(l.columns) == placed
    && Total(l.units) == INTRO_UNITS + Sum(placed)
    && forall i :: 0 <= i < |l.columns| ==> ColumnOk(l, capacity, i)
  }

  lemma FlatAppend(columns: seq<seq<Block>>, column: seq<Block>)
    ensures Flat(columns + [column]) == Flat(columns) + column
  {
    assert (columns + [column])[..|columns|] == columns;
  }

  lemma SumAppend(blocks: seq<Block>, b: Block)
    ensures Sum(blocks + [b]) == Sum(blocks) + b.units
  {
    assert (blocks + [b])[..|blocks|] == blocks;
  }

  lemma TotalAppend(units: seq<real>, u: real)
    ensures Total(units + [u]) == Total(units) + u
  {
    assert (units + [u])[..|units|] == units;
  }

  lemma PlaceFlat(l: Layout, capacity: real, b: Block)
    requires |l.columns| == |l.units| > 0
    ensures Flat(Place(l, capacity, b).columns) == Flat(l.columns) + [b]
    ensures Total(Place(l, capacity, b).units) == Total(l.units) + b.units
  {
    var n := |l.columns| - 1;
    FlatAppend(l.columns, [b]);
    TotalAppend(l.units, b.units);
    assert l.columns == l.columns[..n] + [l.columns[n]] && l.units == l.units[..n] + [l.units[n]];
    assert l.columns[n := l.columns[n] + [b]] == l.columns[..n] + [l.columns[n] + [b]];
    assert l.units[n := l.units[n] + b.units] == l.units[..n] + [l.units[n] + b.units];
    FlatAppend(l.columns[..n], l.columns[n]);
    FlatAppend(l.columns[..n], l.columns[n] + [b]);
    TotalAppend(l.units[..n], l.units[n]);
    TotalAppend(l.units[..n], l.units[n] + b.units);
    assert Flat(l.columns[..n]) + (l.columns[n] + [b]) == (Flat(l.columns[..n]) + l.columns[n]) + [b];
  }

  lemma {:induction false} SumIsPositive(blocks: seq<Block>)
    requires Positive(blocks)
    ensures Sum(blocks) >= 0.0
    ensures blocks != [] ==> Sum(blocks) >= blocks[0].units
  {
    if blocks != [] {
      var n := |blocks| - 1;
      assert blocks[n] in blocks;
      assert Positive(blocks[..n]);
      SumIsPositive(blocks[..n]);
    }
  }

  /** Placing a block keeps the layout in order. */
  lemma PlaceKeeps(l: Layout, capacity: real, placed: seq<Block>, b: Block)
    requires LayoutOk(l, capacity, placed) && b.units > 0.0
    ensures LayoutOk(Place(l, capacity, b), capacity, placed + [b])
  {
    var l' := Place(l, capacity, b);
    PlaceFlat(l, capacity, b);
    SumAppend(placed, b);
    hide Place, ColumnOk, Flat, Total, Sum;
    forall i | 0 <= i < |l'.columns| ensures |l'.units| == |l'.columns| && ColumnOk(l', capacity, i) {
      PlacedColumnOk(l, capacity, b, i);
    }
    PlaceLengths(l, capacity, b);
  }

  lemma PlaceLengths(l: Layout, capacity: real, b: Block)
    requires |l.columns| == |l.units| > 0
    ensures |Place(l, capacity, b).columns| == |Place(l, capacity, b).units| >= |l.columns|
  {}

  lemma FitsIsPositive(column: seq<Block>, units: real, first: bool, before: real, capacity: real)
    requires Fits(column, units, first, before, capacity)
    ensures units > 0.0
  {
    SumIsPositive(column);
    assert column != [] ==> column[0] in column;
  }

  lemma FitsMore(column: seq<Block>, units: real, first: bool, before: real, capacity: real, b: Block)
    requires Fits(column, units, first, before, capacity) && b.units > 0.0 && units + b.units <= capacity
    ensures Fits(column + [b], units + b.units, first, before, capacity)
  {
    SumAppend(column, b);
  }

  lemma FitsAlone(before: real, capacity: real, b: Block)
    requires b.units > 0.0 && before + b.units > capacity
    ensures Fits([b], b.units, false, before, capacity)
  {
    SumAppend([], b);
    assert [] + [b] == [b];
  }

  lemma PlacedColumnOk(l: Layout, capacity: real, b: Block, i: nat)
    requires |l.columns| == |l.units| > 0 && forall i :: 0 <= i < |l.columns| ==> ColumnOk(l, capacity, i)
    requires b.units > 0.0 && i < |Place(l, capacity, b).columns|
    ensures |Place(l, capacity, b).units| == |Place(l, capacity, b).columns|
    ensures ColumnOk(Place(l, capacity, b), capacity, i)
  {
    var n := |l.columns| - 1;
    var before := if n > 0 then l.units[n-1] else 0.0;
    assert ColumnOk(l, capacity, n);
    FitsIsPositive(l.columns[n], l.units[n], n == 0, before, capacity);
    if i < n { assert ColumnOk(l, capacity, i); }
    if l.units[n] + b.units > capacity {
      FitsAlone(l.units[n], capacity, b);
    } else {
      FitsMore(l.columns[n], l.units[n], n == 0, before, capacity, b);
    }
    hide Fits;
  }

  /** The column lists that `push_block` grows in place. */
  class Packer {
    var columns: seq<seq<Block>>
    var columnUnits: seq<real>
    const capacity: real

    function View(): Layout
      reads this
    {
      Layout(columns, columnUnits)
    }

    constructor (capacity: real)
      ensures View() == START && this.capacity == capacity
    {
      columns, columnUnits := [[]], [INTRO_UNITS];
      this.capacity := capacity;
    }

    method PushBlock(b: Block)
      requires |columns| == |columnUnits| > 0
      modifies this
      ensures View() == Place(old(View()), capacity, b)
    {
      if columnUnits[|columnUnits|-1] > 0.0 && columnUnits[|columnUnits|-1] + b.units > capacity {
        columns := columns + [[]];
        columnUnits := columnUnits + [0.0];
      }
      var last := |columns| - 1;
      assert columns[last] + [b] == if columns[last] == [] then [b] else columns[last] + [b];
      columns := columns[last := columns[last] + [b]];
      columnUnits := columnUnits[last := columnUnits[last] + b.units];
      assert |columns| > |old(columns)| ==>
               columns == old(columns) + [[b]] && columnUnits == old(columnUnits) + [b.units];
    }
  }

  function BlocksOf(sections: seq<Section>, includeAnswer: bool): seq<Block> {
    if sections == [] then []
    else
      var last := sections[|sections|-1];
      BlocksOf(sections[..|sections|-1], includeAnswer) + SectionBlocks(last, includeAnswer, |last.items|)
  }

  lemma StartOk(capacity: real)
    requires INTRO_UNITS <= capacity
    ensures LayoutOk(START, capacity, [])
  {
    assert Flat([[]]) == Flat([]) + [];
    assert Total([INTRO_UNITS]) == Total([]) + INTRO_UNITS;
  }

  function SectionBlocks(section: Section, includeAnswer: bool, n: nat): seq<Block>
    requires n <= |section.items|
  {
    if n == 0 then [] else SectionBlocks(section, includeAnswer, n - 1) + [BlockOf(section, n - 1, includeAnswer)]
  }

  method PackSection(packer: Packer, section: Section, includeAnswer: bool, ghost placed: seq<Block>)
    requires LayoutOk(packer.View(), packer.capacity, placed)
    modifies packer
    ensures LayoutOk(packer.View(), packer.capacity, placed + SectionBlocks(section, includeAnswer, |section.items|))
  {
    assert placed + [] == placed;
    for i := 0 to |section.items|
      invariant LayoutOk(packer.View(), packer.capacity, placed + SectionBlocks(section, includeAnswer, i))
    {
      hide ColumnOk, Flat, Total, Sum;
      var b := BlockOf(section, i, includeAnswer);
      ghost var before := placed + SectionBlocks(section, includeAnswer, i);
      BlockIsPositive(section, i, includeAnswer);
      PlaceKeeps(packer.View(), packer.capacity, before, b);
      packer.PushBlock(b);
      assert before + [b] == placed + SectionBlocks(section, includeAnswer, i + 1);
    }
  }

  /** The sections of a paper packed into columns. */
  method PackSections(sections: seq<Section>, overall: Density, includeAnswer: bool) returns (layout: Layout)
    ensures LayoutOk(layout, Capacity(overall), BlocksOf(sections, includeAnswer))
  {
    var packer := new Packer(Capacity(overall));
    StartOk(packer.capacity);
    for s := 0 to |sections|
      invariant packer.capacity == Capacity(overall)
      invariant LayoutOk(packer.View(), Capacity(overall), BlocksOf(sections[..s], includeAnswer))
    {
      hide LayoutOk, SectionBlocks;
      PackSection(packer, sections[s], includeAnswer, BlocksOf(sections[..s], includeAnswer));
      assert sections[..s+1][..s] == sections[..s];
    }
    assert sections[..|sections|] == sections;
    layout := packer.View();
  }

  /** Every column holds what fits or a single block, and no column but perhaps the first is empty. */
  lemma ColumnsWithinCapacity(l: Layout, capacity: real, placed: seq<Block>, i: nat)
    requires LayoutOk(l, capacity, placed) && i < |l.columns|
    ensures l.units[i] <= capacity || (i > 0 && |l.columns[i]| == 1)
    ensures i > 0 ==> l.columns[i] != []
  {
    assert ColumnOk(l, capacity, i);
  }

  lemma {:induction false} NeighboursOverflow(l: Layout, capacity: real, placed: seq<Block>, j: nat)
    requires LayoutOk(l, capacity, placed) && j < |l.columns|
    ensures Times(j, capacity) <= 2.0 * Total(l.units[..j+1]) - l.units[0] - l.units[j]
  {
    hide Flat, Sum, Times;
    assert ColumnOk(l, capacity, j);
    assert l.units[..j+1] == l.units[..j] + [l.units[j]];
    TotalAppend(l.units[..j], l.units[j]);
    TimesNext(j, capacity);
    if j > 0 {
      NeighboursOverflow(l, capacity, placed, j - 1);
      SumIsPositive(l.columns[j]);
    }
  }

  function Times(n: nat, capacity: real): real {
    n as real * capacity
  }

  lemma TimesNext(n: nat, capacity: real)
    ensures Times(n, capacity) == if n == 0 then 0.0 else Times(n - 1, capacity) + capacity
  {}

  /** Next-fit uses fewer than twice the columns that the total alone would fill. */
  lemma ColumnBound(l: Layout, capacity: real, placed: seq<Block>)
    requires LayoutOk(l, capacity, placed)
    ensures (|l.columns| - 1) as real * capacity < 2.0 * (INTRO_UNITS + Sum(placed))
  {
    assert Times(|l.columns| - 1, capacity) == (|l.columns| - 1) as real * capacity;
    hide Times;
    var n := |l.columns| - 1;
    NeighboursOverflow(l, capacity, placed, n);
    assert l.units[..n+1] == l.units;
    EndUnits(l, capacity, placed);
    hide ColumnOk, Total, Sum, Flat;
  }

  lemma EndUnits(l: Layout, capacity: real, placed: seq<Block>)
    requires LayoutOk(l, capacity, placed)
    ensures l.units[0] > 0.0 && l.units[|l.units|-1] >= 0.0
  {
    var n := |l.columns| - 1;
    assert ColumnOk(l, capacity, 0) && ColumnOk(l, capacity, n);
    SumIsPositive(l.columns[0]);
    SumIsPositive(l.columns[n]);
  }

  /** The blocks are the numbered questions in section order, one block each. */
  lemma {:induction false} BlocksAreItems(sections: seq<Section>, includeAnswer: bool)
    ensures |BlocksOf(sections, includeAnswer)| == |ItemsOf(sections)|
    ensures forall i :: 0 <= i < |ItemsOf(sections)| ==>
              var b := BlocksOf(sections, includeAnswer)[i]; (b.number, b.question) == ItemsOf(sections)[i]
  {
    if sections != [] {
      var last := sections[|sections|-1];
      BlocksAreItems(sections[..|sections|-1], includeAnswer);
      SectionBlocksAreItems(last, includeAnswer, |last.items|);
    }
  }

  lemma {:induction false} SectionBlocksAreItems(section: Section, includeAnswer: bool, n: nat)
    requires n <= |section.items|
    ensures |SectionBlocks(section, includeAnswer, n)| == n
    ensures forall i :: 0 <= i < n ==>
              var b := SectionBlocks(section, includeAnswer, n)[i]; (b.number, b.question) == section.items[i]
  {
    if n > 0 { SectionBlocksAreItems(section, includeAnswer, n - 1); }
  }

  /** The template pages of a paper: at normal density it has no column layout; otherwise every question is in
      exactly one column, columns read in order give the numbers 1..n, and the column bounds hold. */
  method TemplateColumns(questions: seq<Question>, requested: Option<Density>, includeAnswer: bool)
    returns (overall: Density, layout: Option<Layout>)
    ensures overall == match requested
                       case Some(density) => density
                       case None => OverallDensity(|questions|, ObjectiveCount(questions))
    ensures layout.None? <==> overall == Normal
    ensures layout.Some? ==>
              var blocks := Flat(layout.value.columns);
              && LayoutOk(layout.value, Capacity(overall), blocks)
              && |blocks| == |questions|
              && (forall i :: 0 <= i < |blocks| ==> blocks[i].number == i + 1)
              && multiset(seq(|blocks|, i requires 0 <= i < |blocks| => blocks[i].question)) == multiset(questions)
              && (|layout.value.columns| - 1) as real * Capacity(overall) < 2.0 * (INTRO_UNITS + Sum(blocks))
  {
    hide ColumnOk, InOrder, Grouped, ItemsOf, BlocksOf, SectionsOk, Sum, Numbered, OverallDensity, ObjectiveCount;
    var grouped := GroupQuestions(questions);
    overall := ChosenDensity(grouped, requested);
    AutoDensity(questions);
    if overall == Normal { return overall, None; }
    var sections := TemplateSections(grouped, |questions|, overall);
    var packed := PackSections(sections, overall, includeAnswer);
    BlocksHoldEveryQuestionOnce(questions, sections, includeAnswer);
    ColumnBound(packed, Capacity(overall), BlocksOf(sections, includeAnswer));
    layout := Some(packed);
  }

  lemma BlocksHoldEveryQuestionOnce(questions: seq<Question>, sections: seq<Section>, includeAnswer: bool)
    requires ItemsOf(sections) == Numbered(InOrder(Grouped(questions), TYPE_ORDER), 1)
    ensures var blocks := BlocksOf(sections, includeAnswer);
            && |blocks| == |questions|
            && (forall i :: 0 <= i < |blocks| ==> blocks[i].number == i + 1)
            && multiset(seq(|blocks|, i requires 0 <= i < |blocks| => blocks[i].question)) == multiset(questions)
  {
    var items, blocks := ItemsOf(sections), BlocksOf(sections, includeAnswer);
    SectionsHoldEveryQuestionOnce(questions, items);
    BlocksAreItems(sections, includeAnswer);
    hide InOrder, Grouped, ItemsOf, BlocksOf;
    assert seq(|blocks|, i requires 0 <= i < |blocks| => blocks[i].question)
        == seq(|items|, i requires 0 <= i < |items| => items[i].1);
  }
}
