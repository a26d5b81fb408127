/** Formulas printed as LaTeX read back as themselves: the translation puts each part in its own place. */
module LatexRoundTrip {
  import opened Wrappers
  import opened LatexMath

  datatype Math =
    | Word(word: string)
    | Symbol(name: string)
    | Phrase(command: string, prose: string)  // text within a formula
    | Escape(escaped: char)
    | Gap(command: string)                    // a wide space
    | Silent(command: string)                 // a style or the size of a delimiter
    | Unknown(command: string)
    | Frac(numerator: Math, denominator: Math)
    | Root(radicand: Math)
    | Script(base: Math, sub: Option<Math>, sup: Option<Math>)
    | Short(word: string, below: Option<string>, above: Option<string>)  // scripts without braces, as in x_i^2
    | Row(items: seq<Math>)

  function Braced(m: Math): string
    decreases m, 1
  {
    "{" + Print(m) + "}"
  }

  function Marked(marker: string, m: Option<Math>): string
    decreases m, 2
  {
    match m
    case None => ""
    case Some(script) => marker + Braced(script)
  }

  function Bare(marker: string, word: Option<string>): string {
    if word.None? then "" else marker + word.value
  }

  function WordIfAny(word: Option<string>): Option<Math> {
    if word.None? then None else Some(Word(word.value))
  }

  function PrintRow(items: seq<Math>): string
    decreases items, 2
  {
    if items == [] then "" else Braced(items[0]) + PrintRow(items[1..])
  }

  function Print(m: Math): string
    decreases m, 0
  {
    match m
    case Word(word) => word
    case Symbol(name) => "\\" + name
    case Phrase(command, prose) => "\\" + command + "{" + prose + "}"
    case Escape(c) => "\\" + [c]
    case Gap(command) => "\\" + command
    case Silent(command) => "\\" + command
    case Unknown(command) => "\\" + command
    case Frac(numerator, denominator) => "\\frac" + Braced(numerator) + Braced(denominator)
    case Root(radicand) => "\\sqrt" + Braced(radicand)
    case Script(base, sub, sup) => Braced(base) + Marked("_", sub) + Marked("^", sup)
    case Short(word, below, above) => word + Bare("_", below) + Bare("^", above)
    case Row(items) => PrintRow(items)
  }

  /** The XML a formula stands for, written out token by token. */
  function Shape(m: Math, symbols: map<string, string>): Xml
    decreases m, 0
  {
    match m
    case Word(word) => [LatexMath.Run(word)]
    case Symbol(name) => if name in symbols then [LatexMath.Run(symbols[name])] else []
    case Phrase(_, prose) => [Prose(prose)]
    case Escape(c) => [LatexMath.Run(if c in ",;: " then " " else if c == '!' then "" else [c])]
    case Gap(_) => [LatexMath.Run(" ")]
    case Silent(_) => []
    case Unknown(command) => [LatexMath.Run("\\" + command)]
    case Frac(numerator, denominator) =>
      [Open(Fraction), Open(Numerator)] + Shape(numerator, symbols) + [Close(Numerator), Open(Denominator)]
      + Shape(denominator, symbols) + [Close(Denominator), Close(Fraction)]
    case Root(radicand) =>
      [Open(Radical), Degree, Open(Argument)] + Shape(radicand, symbols) + [Close(Argument), Close(Radical)]
    case Script(base, None, None) => Shape(base, symbols)
    case Script(base, Some(b), None) =>
      [Open(WithSub), Open(Argument)] + Shape(base, symbols) + [Close(Argument), Open(Subscript)] + Shape(b, symbols)
      + [Close(Subscript), Close(WithSub)]
    case Script(base, None, Some(t)) =>
      [Open(WithSup), Open(Argument)] + Shape(base, symbols) + [Close(Argument), Open(Superscript)] + Shape(t, symbols)
      + [Close(Superscript), Close(WithSup)]
    case Script(base, Some(b), Some(t)) =>
      [Open(WithBoth), Open(Argument)] + Shape(base, symbols) + [Close(Argument), Open(Subscript)] + Shape(b, symbols)
      + [Close(Subscript), Open(Superscript)] + Shape(t, symbols) + [Close(Superscript), Close(WithBoth)]
    case Short(word, below, above) => ShapeOfShort(word, below, above)
    case Row(items) => ShapeRow(items, symbols)
  }

  function ShapeOfShort(word: string, below: Option<string>, above: Option<string>): Xml {
    match (below, above)
    case (None, None) => [LatexMath.Run(word)]
    case (Some(b), None) =>
      [Open(WithSub), Open(Argument), LatexMath.Run(word), Close(Argument), Open(Subscript), LatexMath.Run(b),
       Close(Subscript), Close(WithSub)]
    case (None, Some(t)) =>
      [Open(WithSup), Open(Argument), LatexMath.Run(word), Close(Argument), Open(Superscript), LatexMath.Run(t),
       Close(Superscript), Close(WithSup)]
    case (Some(b), Some(t)) =>
      [Open(WithBoth), Open(Argument), LatexMath.Run(word), Close(Argument), Open(Subscript), LatexMath.Run(b),
       Close(Subscript), Open(Superscript), LatexMath.Run(t), Close(Superscript), Close(WithBoth)]
  }

  function ShapeIfAny(m: Option<Math>, symbols: map<string, string>): Option<Xml>
    decreases m, 2
  {
    match m
    case None => None
    case Some(script) => Some(Shape(script, symbols))
  }

  function ShapeRow(items: seq<Math>, symbols: map<string, string>): Xml
    decreases items, 2
  {
    if items == [] then [] else Shape(items[0], symbols) + ShapeRow(items[1..], symbols)
  }

  const COMMANDS: set<string> :=
    {"frac", "dfrac", "tfrac", "sqrt", "left", "right", "quad", "qquad"} + STYLES + TEXTS

  ghost predicate IsWord(src: Source, word: string) {
    word != "" && forall i :: 0 <= i < |word| ==> InWord(src, word[i])
  }

  ghost predicate IsName(src: Source, name: string) {
    name != "" && forall i :: 0 <= i < |name| ==> name[i] in src.letters
  }

  /** A formula without parts: a word with words as scripts, or a command with what it needs. */
  ghost predicate PrintableLeaf(src: Source, m: Math) {
    match m
    case Word(word) => IsWord(src, word)
    case Short(word, below, above) =>
      && IsWord(src, word) && (below.Some? ==> IsWord(src, below.value)) && (above.Some? ==> IsWord(src, above.value))
    case Symbol(name) => IsName(src, name) && name in src.symbols && name !in COMMANDS
    case Phrase(command, prose) =>
      IsName(src, command) && command in TEXTS && forall i :: 0 <= i < |prose| ==> prose[i] !in {'\\', '{', '}'}
    case Escape(c) => c !in src.letters
    case Gap(command) => IsName(src, command) && command in {"quad", "qquad"}
    case Silent(command) => IsName(src, command) && command in STYLES + {"left", "right"}
    case Unknown(command) => IsName(src, command) && command !in COMMANDS && command !in src.symbols
    case _ => false
  }

  /** Words are runs of ordinary characters, symbols are names from the table, prose has neither braces nor escapes. */
  ghost predicate Printable(src: Source, m: Math)
    decreases m, 0
  {
    match m
    case Frac(numerator, denominator) => Printable(src, numerator) && Printable(src, denominator)
    case Root(radicand) => Printable(src, radicand)
    case Script(base, sub, sup) =>
      && Printable(src, base)
      && (sub.Some? ==> Printable(src, sub.value)) && (sup.Some? ==> Printable(src, sup.value))
    case Row(items) => forall i :: 0 <= i < |items| ==> Printable(src, items[i])
    case _ => PrintableLeaf(src, m)
  }

  ghost predicate KnowsCommands(src: Source) {
    && Classified(src)
    && (forall c :: c in "fracsqt" ==> c in src.letters)
  }

  // ---------------------------------------------------------------- parts of the text

  ghost predicate Occurs(text: string, p: nat, part: string) {
    p + |part| <= |text| && text[p..p + |part|] == part
  }

  lemma OccursApart(text: string, p: nat, a: string, b: string)
    requires Occurs(text, p, a + b)
    ensures Occurs(text, p, a) && Occurs(text, p + |a|, b)
  {
    var part := text[p..p + |a + b|];
    assert part[..|a|] == a && part[|a|..] == b;
    assert text[p..p + |a|] == part[..|a|];
    assert text[p + |a|..p + |a| + |b|] == part[|a|..];
  }

  lemma OccursAt(text: string, p: nat, part: string, i: nat)
    requires Occurs(text, p, part) && i < |part|
    ensures text[p + i] == part[i]
  {
    assert text[p..p + |part|][i] == text[p + i];
  }

  lemma BracedApart(text: string, p: nat, m: Math)
    requires Occurs(text, p, Braced(m))
    ensures var q := p + 1 + |Print(m)|;
            && q < |text| && text[p] == '{' && Occurs(text, p + 1, Print(m)) && text[q] == '}'
  {
    hide Print;
    var inside := Print(m);
    assert Braced(m) == "{" + (inside + "}");
    OccursApart(text, p, "{", inside + "}");
    OccursApart(text, p + 1, inside, "}");
    OccursAt(text, p, "{", 0);
    OccursAt(text, p + 1 + |inside|, "}", 0);
  }

  /** Where a sequence stops: at the end of the text or before a closing brace. */
  predicate StopsAt(text: string, q: nat) {
    q <= |text| && (q < |text| ==> text[q] == '}')
  }

  lemma {:induction false} WordRun(src: Source, p: nat, word: string, i: nat)
    requires Classified(src) && Occurs(src.text, p, word) && i <= |word|
    requires p + |word| < |src.text| ==> !InWord(src, src.text[p + |word|])
    requires forall j :: 0 <= j < |word| ==> InWord(src, word[j])
    ensures WordEnd(src, p + i) == p + |word|
    decreases |word| - i
  {
    if i < |word| {
      OccursAt(src.text, p, word, i);
      WordRun(src, p, word, i + 1);
    }
  }

  lemma {:induction false} NameRun(src: Source, p: nat, name: string, i: nat)
    requires Occurs(src.text, p, name) && i <= |name|
    requires p + |name| < |src.text| ==> src.text[p + |name|] !in src.letters
    requires forall j :: 0 <= j < |name| ==> name[j] in src.letters
    ensures NameEnd(src, p + i) == p + |name|
    decreases |name| - i
  {
    if i < |name| {
      OccursAt(src.text, p, name, i);
      NameRun(src, p, name, i + 1);
    }
  }

  // ---------------------------------------------------------------- reading back

  /** An atom without scripts comes first in its sequence. */
  lemma AtomFirst(src: Source, p: nat, q: nat)
    requires Classified(src) && p < q <= |src.text| && src.text[p] != '}' && !MarkerAt(src, q)
    requires AtomAt(src, p).end == q
    ensures SequenceAt(src, p) == Parsed(AtomAt(src, p).xml + SequenceAt(src, q).xml, SequenceAt(src, q).end)
  {
    hide AtomAt;
    assert ScriptsAt(src, AtomAt(src, p).xml, None, None, q) == Parsed(AtomAt(src, p).xml, q);
  }

  /** An atom that fills the rest of a sequence is all of it. */
  lemma OnlyAtom(src: Source, p: nat, q: nat)
    requires Classified(src) && p < q && StopsAt(src.text, q) && src.text[p] != '}'
    requires AtomAt(src, p).end == q
    ensures SequenceAt(src, p) == Parsed(AtomAt(src, p).xml, After(src.text, q))
  {
    hide AtomAt;
    AtomFirst(src, p, q);
    assert SequenceAt(src, q) == Parsed([], After(src.text, q));
  }

  /** A formula in a place where a sequence is read yields its shape and uses up exactly its text. */
  lemma {:induction false} ReadsBack(src: Source, p: nat, m: Math)
    requires KnowsCommands(src) && Printable(src, m)
    requires Occurs(src.text, p, Print(m)) && StopsAt(src.text, p + |Print(m)|)
    ensures SequenceAt(src, p) == Parsed(Shape(m, src.symbols), After(src.text, p + |Print(m)|))
    decreases |Print(m)|, 3
  {
    hide SequenceAt, Occurs, FractionOf, RadicalOf, Scripted, Braced, Marked;
    match m
    case Word(word) => WordReadsBack(src, p, word);
    case Symbol(name) => NamedReadsBack(src, p, m, name);
    case Phrase(command, prose) => PhraseReadsBack(src, p, command, prose);
    case Escape(c) => EscapeReadsBack(src, p, c);
    case Gap(command) => NamedReadsBack(src, p, m, command);
    case Silent(command) => NamedReadsBack(src, p, m, command);
    case Unknown(command) => NamedReadsBack(src, p, m, command);
    case Frac(numerator, denominator) => FractionReadsBack(src, p, numerator, denominator);
    case Root(radicand) => RootReadsBack(src, p, radicand);
    case Script(base, sub, sup) => ScriptReadsBack(src, p, base, sub, sup);
    case Short(word, below, above) => ShortReadsBack(src, p, word, below, above);
    case Row(items) => RowReadsBack(src, p, items);
  }

  /** A braced formula is read back as a group and as an atom. */
  lemma {:induction false} BracedReadsBack(src: Source, p: nat, m: Math)
    requires KnowsCommands(src) && Printable(src, m) && Occurs(src.text, p, Braced(m))
    ensures AtomAt(src, p) == Parsed(Shape(m, src.symbols), p + |Braced(m)|)
    ensures GroupAt(src, p) == Parsed(Shape(m, src.symbols), p + |Braced(m)|)
    decreases |Print(m)|, 4
  {
    hide SequenceAt, Print, Shape, Printable;
    BracedApart(src.text, p, m);
    ReadsBack(src, p + 1, m);
    assert SkipSpaces(src, p) == p;
  }

  lemma WordReadsBack(src: Source, p: nat, word: string)
    requires KnowsCommands(src) && Printable(src, Word(word))
    requires Occurs(src.text, p, word) && StopsAt(src.text, p + |word|)
    ensures SequenceAt(src, p) == Parsed([LatexMath.Run(word)], After(src.text, p + |word|))
  {
    hide SequenceAt;
    WordRun(src, p, word, 0);
    OccursAt(src.text, p, word, 0);
    assert AtomAt(src, p) == Parsed([LatexMath.Run(word)], p + |word|);
    OnlyAtom(src, p, p + |word|);
  }

  lemma NamedCommand(src: Source, p: nat, name: string)
    requires Classified(src) && name != "" && Occurs(src.text, p, "\\" + name)
    requires p + 1 + |name| < |src.text| ==> src.text[p + 1 + |name|] !in src.letters
    requires forall i :: 0 <= i < |name| ==> name[i] in src.letters
    ensures src.text[p] == '\\' && NameEnd(src, p + 1) == p + 1 + |name|
    ensures src.text[p + 1..p + 1 + |name|] == name
  {
    OccursApart(src.text, p, "\\", name);
    OccursAt(src.text, p, "\\", 0);
    NameRun(src, p + 1, name, 0);
  }

  /** A command that takes no argument. */
  lemma NamedReadsBack(src: Source, p: nat, m: Math, name: string)
    requires KnowsCommands(src) && Printable(src, m)
    requires m in {Symbol(name), Gap(name), Silent(name), Unknown(name)}
    requires Occurs(src.text, p, "\\" + name) && StopsAt(src.text, p + 1 + |name|)
    ensures SequenceAt(src, p) == Parsed(Shape(m, src.symbols), After(src.text, p + 1 + |name|))
  {
    hide SequenceAt, FractionAt, RadicalAt, TextAt, CommandAt, Occurs;
    IsNamed(src, m, name);
    NamedCommand(src, p, name);
    PlainCommand(src, p, m, name);
    OnlyAtom(src, p, p + 1 + |name|);
  }

  lemma IsNamed(src: Source, m: Math, name: string)
    requires Printable(src, m) && m in {Symbol(name), Gap(name), Silent(name), Unknown(name)}
    ensures IsName(src, name)
  {}

  lemma PlainCommand(src: Source, p: nat, m: Math, name: string)
    requires KnowsCommands(src) && Printable(src, m)
    requires m in {Symbol(name), Gap(name), Silent(name), Unknown(name)}
    requires var q := p + 1 + |name|;
             && StopsAt(src.text, q) && src.text[p] == '\\' && NameEnd(src, p + 1) == q && src.text[p + 1..q] == name
    ensures CommandAt(src, p) == Parsed(Shape(m, src.symbols), p + 1 + |name|)
  {
    hide CommandAt;
    match m
    case Symbol(_) => SymbolCommand(src, p, name);
    case Gap(_) => GapCommand(src, p, name);
    case Silent(_) => SilentCommand(src, p, name);
    case Unknown(_) => UnknownCommand(src, p, name);
  }

  lemma SymbolCommand(src: Source, p: nat, name: string)
    requires KnowsCommands(src)
    requires var q := p + 1 + |name|;
             && StopsAt(src.text, q) && src.text[p] == '\\' && NameEnd(src, p + 1) == q && src.text[p + 1..q] == name
    requires name != "" && name in src.symbols && name !in COMMANDS
    ensures CommandAt(src, p) == Parsed([LatexMath.Run(src.symbols[name])], p + 1 + |name|)
  {
    hide FractionAt, RadicalAt, TextAt;
    assert SkipSpaces(src, p + 1 + |name|) == p + 1 + |name|;
  }

  lemma GapCommand(src: Source, p: nat, name: string)
    requires KnowsCommands(src)
    requires var q := p + 1 + |name|;
             && StopsAt(src.text, q) && src.text[p] == '\\' && NameEnd(src, p + 1) == q && src.text[p + 1..q] == name
    requires name != "" && name in {"quad", "qquad"}
    ensures CommandAt(src, p) == Parsed([LatexMath.Run(" ")], p + 1 + |name|)
  {
    hide FractionAt, RadicalAt, TextAt;
    assert SkipSpaces(src, p + 1 + |name|) == p + 1 + |name|;
  }

  lemma SilentCommand(src: Source, p: nat, name: string)
    requires KnowsCommands(src)
    requires var q := p + 1 + |name|;
             && StopsAt(src.text, q) && src.text[p] == '\\' && NameEnd(src, p + 1) == q && src.text[p + 1..q] == name
    requires name != "" && name in STYLES + {"left", "right"}
    ensures CommandAt(src, p) == Parsed([], p + 1 + |name|)
  {
    hide FractionAt, RadicalAt, TextAt;
    assert SkipSpaces(src, p + 1 + |name|) == p + 1 + |name|;
  }

  lemma UnknownCommand(src: Source, p: nat, name: string)
    requires KnowsCommands(src)
    requires var q := p + 1 + |name|;
             && StopsAt(src.text, q) && src.text[p] == '\\' && NameEnd(src, p + 1) == q && src.text[p + 1..q] == name
    requires name != "" && name !in COMMANDS && name !in src.symbols
    ensures CommandAt(src, p) == Parsed([LatexMath.Run("\\" + name)], p + 1 + |name|)
  {
    hide FractionAt, RadicalAt, TextAt;
    assert SkipSpaces(src, p + 1 + |name|) == p + 1 + |name|;
  }

  lemma EscapeReadsBack(src: Source, p: nat, c: char)
    requires KnowsCommands(src) && Printable(src, Escape(c))
    requires Occurs(src.text, p, "\\" + [c]) && StopsAt(src.text, p + 2)
    ensures SequenceAt(src, p) == Parsed(Shape(Escape(c), src.symbols), After(src.text, p + 2))
  {
    hide SequenceAt, FractionAt, RadicalAt, TextAt;
    OccursAt(src.text, p, "\\" + [c], 0);
    OccursAt(src.text, p, "\\" + [c], 1);
    assert NameEnd(src, p + 1) == p + 1;
    assert CommandAt(src, p) == Parsed(EscapedRun(c), p + 2);
    OnlyAtom(src, p, p + 2);
  }

  lemma {:induction false} ProseCloses(text: string, p: nat, prose: string, i: nat)
    requires Occurs(text, p, prose) && i <= |prose| && p + |prose| < |text| && text[p + |prose|] == '}'
    requires forall j :: 0 <= j < |prose| ==> prose[j] !in {'\\', '{', '}'}
    ensures Closing(text, p + i, 0) == p + |prose|
    decreases |prose| - i
  {
    if i < |prose| {
      OccursAt(text, p, prose, i);
      ProseCloses(text, p, prose, i + 1);
    }
  }

  /** Text within a formula comes through as it is, to the last character. */
  lemma PhraseReadsBack(src: Source, p: nat, command: string, prose: string)
    requires KnowsCommands(src) && Printable(src, Phrase(command, prose))
    requires var printed := Print(Phrase(command, prose));
             Occurs(src.text, p, printed) && StopsAt(src.text, p + |printed|)
    ensures SequenceAt(src, p) == Parsed([Prose(prose)], After(src.text, p + |Print(Phrase(command, prose))|))
  {
    hide SequenceAt, AtomAt, TextAt, Print, Occurs;
    var q := p + 1 + |command|;
    PhraseApart(src.text, p, command, prose);
    TextCommand(src, p, command);
    GroupedTextAt(src, q, prose);
    OnlyAtom(src, p, q + 2 + |prose|);
  }

  lemma GroupedTextAt(src: Source, q: nat, prose: string)
    requires Classified(src) && q < |src.text| && src.text[q] == '{' && Occurs(src.text, q + 1, prose)
    requires q + 1 + |prose| < |src.text| && src.text[q + 1 + |prose|] == '}'
    requires forall j :: 0 <= j < |prose| ==> prose[j] !in {'\\', '{', '}'}
    ensures TextAt(src, q) == Parsed([Prose(prose)], q + 2 + |prose|)
  {
    ProseCloses(src.text, q + 1, prose, 0);
    OccursIsSlice(src.text, q + 1, prose);
    hide Closing, Occurs, AtomAt;
    assert SkipSpaces(src, q) == q;
  }

  lemma PhraseApart(text: string, p: nat, command: string, prose: string)
    requires Occurs(text, p, Print(Phrase(command, prose)))
    ensures var q := p + 1 + |command|;
            && Occurs(text, p, "\\" + command) && q < |text| && text[q] == '{'
            && Occurs(text, q + 1, prose) && q + 1 + |prose| < |text| && text[q + 1 + |prose|] == '}'
            && |Print(Phrase(command, prose))| == |command| + |prose| + 3
            && text[q + 1..q + 1 + |prose|] == prose
  {
    hide Print, Occurs;
    var q := p + 1 + |command|;
    PhraseText(command, prose);
    OccursApart(text, p, "\\" + command, "{" + (prose + "}"));
    OccursApart(text, q, "{", prose + "}");
    OccursApart(text, q + 1, prose, "}");
    OccursAt(text, q, "{", 0);
    OccursAt(text, q + 1 + |prose|, "}", 0);
    OccursIsSlice(text, q + 1, prose);
  }

  lemma PhraseText(command: string, prose: string)
    ensures Print(Phrase(command, prose)) == ("\\" + command) + ("{" + (prose + "}"))
  {}

  lemma OccursIsSlice(text: string, p: nat, part: string)
    requires Occurs(text, p, part)
    ensures p + |part| <= |text| && text[p..p + |part|] == part
  {}

  lemma TextCommand(src: Source, p: nat, command: string)
    requires KnowsCommands(src) && IsName(src, command) && command in TEXTS && Occurs(src.text, p, "\\" + command)
    requires var q := p + 1 + |command|; q < |src.text| && src.text[q] == '{'
    ensures src.text[p] == '\\' && AtomAt(src, p) == TextAt(src, p + 1 + |command|)
  {
    hide FractionAt, RadicalAt, TextAt, NameEnd;
    NamedCommand(src, p, command);
  }

  lemma {:induction false} FractionReadsBack(src: Source, p: nat, numerator: Math, denominator: Math)
    requires KnowsCommands(src) && Printable(src, numerator) && Printable(src, denominator)
    requires Occurs(src.text, p, Print(Frac(numerator, denominator)))
    requires StopsAt(src.text, p + |Print(Frac(numerator, denominator))|)
    ensures SequenceAt(src, p) == Parsed(Shape(Frac(numerator, denominator), src.symbols),
                                         After(src.text, p + |Print(Frac(numerator, denominator))|))
    decreases |Print(Frac(numerator, denominator))|, 0
  {
    hide SequenceAt, GroupAt, AtomAt, FractionOf, Printable, RadicalAt, TextAt, Print, Shape, Braced;
    FractionApart(src.text, p, numerator, denominator);
    var middle := p + 5 + |Braced(numerator)|;
    BracedReadsBack(src, p + 5, numerator);
    BracedReadsBack(src, middle, denominator);
    ShapeOfFraction(numerator, denominator, src.symbols);
    FractionCommand(src, p);
    OnlyAtom(src, p, middle + |Braced(denominator)|);
  }

  lemma FractionApart(text: string, p: nat, numerator: Math, denominator: Math)
    requires Occurs(text, p, Print(Frac(numerator, denominator)))
    ensures Occurs(text, p, "\\frac") && p + 5 < |text| && text[p + 5] == '{'
    ensures Occurs(text, p + 5, Braced(numerator)) && Occurs(text, p + 5 + |Braced(numerator)|, Braced(denominator))
    ensures |Braced(numerator)| == |Print(numerator)| + 2 && |Braced(denominator)| == |Print(denominator)| + 2
    ensures |Print(Frac(numerator, denominator))| == 5 + |Braced(numerator)| + |Braced(denominator)|
  {
    hide Print, Occurs, Braced;
    FractionText(numerator, denominator);
    var above, below := Braced(numerator), Braced(denominator);
    OccursApart(text, p, "\\frac" + above, below);
    OccursApart(text, p, "\\frac", above);
    BracedApart(text, p + 5, numerator);
  }

  lemma FractionText(numerator: Math, denominator: Math)
    ensures Print(Frac(numerator, denominator)) == "\\frac" + Braced(numerator) + Braced(denominator)
    ensures |Braced(numerator)| == |Print(numerator)| + 2 && |Braced(denominator)| == |Print(denominator)| + 2
  {}

  lemma FractionCommand(src: Source, p: nat)
    requires KnowsCommands(src) && Occurs(src.text, p, "\\frac") && p + 5 < |src.text| && src.text[p + 5] == '{'
    ensures src.text[p] == '\\' && AtomAt(src, p) == FractionAt(src, p + 5)
  {
    hide FractionAt, RadicalAt, TextAt, NameEnd;
    assert "\\frac" == "\\" + "frac";
    NamedCommand(src, p, "frac");
  }

  lemma ShapeOfFraction(numerator: Math, denominator: Math, symbols: map<string, string>)
    ensures Shape(Frac(numerator, denominator), symbols)
            == FractionOf(Shape(numerator, symbols), Shape(denominator, symbols))
  {
    FractionTokens(Shape(numerator, symbols), Shape(denominator, symbols));
  }

  lemma FractionTokens(n: Xml, d: Xml)
    ensures FractionOf(n, d)
         == [Open(Fraction), Open(Numerator)] + n + [Close(Numerator), Open(Denominator)] + d
             + [Close(Denominator), Close(Fraction)]
  {}

  lemma {:induction false} RootReadsBack(src: Source, p: nat, radicand: Math)
    requires KnowsCommands(src) && Printable(src, radicand)
    requires Occurs(src.text, p, Print(Root(radicand))) && StopsAt(src.text, p + |Print(Root(radicand))|)
    ensures SequenceAt(src, p)
            == Parsed(Shape(Root(radicand), src.symbols), After(src.text, p + |Print(Root(radicand))|))
    decreases |Print(Root(radicand))|, 0
  {
    hide SequenceAt, GroupAt, AtomAt, RadicalOf, Printable, FractionAt, TextAt, Print, Shape, Braced;
    RootApart(src.text, p, radicand);
    BracedReadsBack(src, p + 5, radicand);
    ShapeOfRoot(radicand, src.symbols);
    RootCommand(src, p);
    OnlyAtom(src, p, p + 5 + |Braced(radicand)|);
  }

  lemma RootApart(text: string, p: nat, radicand: Math)
    requires Occurs(text, p, Print(Root(radicand)))
    ensures Occurs(text, p, "\\sqrt") && p + 5 < |text| && text[p + 5] == '{'
    ensures Occurs(text, p + 5, Braced(radicand))
    ensures |Braced(radicand)| == |Print(radicand)| + 2 && |Print(Root(radicand))| == 5 + |Braced(radicand)|
  {
    hide Print, Occurs, Braced;
    RootText(radicand);
    OccursApart(text, p, "\\sqrt", Braced(radicand));
    BracedApart(text, p + 5, radicand);
  }

  lemma RootText(radicand: Math)
    ensures Print(Root(radicand)) == "\\sqrt" + Braced(radicand) && |Braced(radicand)| == |Print(radicand)| + 2
  {}

  lemma RootCommand(src: Source, p: nat)
    requires KnowsCommands(src) && Occurs(src.text, p, "\\sqrt") && p + 5 < |src.text| && src.text[p + 5] == '{'
    ensures src.text[p] == '\\' && AtomAt(src, p) == RadicalAt(src, p + 5)
  {
    hide FractionAt, RadicalAt, TextAt, NameEnd;
    assert "\\sqrt" == "\\" + "sqrt";
    NamedCommand(src, p, "sqrt");
  }

  lemma ShapeOfRoot(radicand: Math, symbols: map<string, string>)
    ensures Shape(Root(radicand), symbols) == RadicalOf(Shape(radicand, symbols))
  {
    RadicalTokens(Shape(radicand, symbols));
  }

  lemma RadicalTokens(r: Xml)
    ensures RadicalOf(r) == [Open(Radical), Degree, Open(Argument)] + r + [Close(Argument), Close(Radical)]
  {}

  /** An optional script between p and q, behind its marker. */
  ghost predicate MarkRead(src: Source, p: nat, q: nat, marker: char, m: Option<Math>)
    requires Classified(src)
  {
    if m.None? then q == p
    else p < |src.text| && src.text[p] == marker && GroupAt(src, p + 1) == Parsed(Shape(m.value, src.symbols), q)
  }

  /** One optional script behind a base, at a marker or at nothing. */
  lemma {:induction false} MarkedReadsBack(src: Source, p: nat, marker: char, m: Option<Math>)
    requires KnowsCommands(src) && marker in {'_', '^'} && (m.Some? ==> Printable(src, m.value))
    requires Occurs(src.text, p, Marked([marker], m))
    ensures MarkRead(src, p, p + |Marked([marker], m)|, marker, m)
    decreases |Marked([marker], m)|, 0
  {
    if m.Some? {
      OccursApart(src.text, p, [marker], Braced(m.value));
      OccursAt(src.text, p, [marker], 0);
      BracedReadsBack(src, p + 1, m.value);
    }
  }

  /** A base ends at p1, an optional subscript at p2, an optional superscript at q. */
  ghost predicate PartsRead(src: Source, p: nat, p1: nat, p2: nat, q: nat, base: Math, sub: Option<Math>,
                            sup: Option<Math>)
    requires Classified(src)
  {
    && p < p1 <= p2 <= q && StopsAt(src.text, q) && src.text[p] != '}'
    && AtomAt(src, p) == Parsed(Shape(base, src.symbols), p1)
    && MarkRead(src, p1, p2, '_', sub) && MarkRead(src, p2, q, '^', sup)
  }

  lemma {:induction false} ScriptReadsBack(src: Source, p: nat, base: Math, sub: Option<Math>, sup: Option<Math>)
    requires KnowsCommands(src) && Printable(src, Script(base, sub, sup))
    requires Occurs(src.text, p, Print(Script(base, sub, sup)))
    requires StopsAt(src.text, p + |Print(Script(base, sub, sup))|)
    ensures SequenceAt(src, p) == Parsed(Shape(Script(base, sub, sup), src.symbols),
                                         After(src.text, p + |Print(Script(base, sub, sup))|))
    decreases |Print(Script(base, sub, sup))|, 2
  {
    hide SequenceAt, PartsRead, Print, Shape, Printable, Occurs;
    var p1, p2 := ScriptParts(src, p, base, sub, sup);
    PartsReadBack(src, p, p1, p2, p + |Print(Script(base, sub, sup))|, base, sub, sup);
  }

  lemma {:induction false} ScriptParts(src: Source, p: nat, base: Math, sub: Option<Math>, sup: Option<Math>)
    returns (p1: nat, p2: nat)
    requires KnowsCommands(src) && Printable(src, Script(base, sub, sup))
    requires Occurs(src.text, p, Print(Script(base, sub, sup)))
    requires StopsAt(src.text, p + |Print(Script(base, sub, sup))|)
    ensures PartsRead(src, p, p1, p2, p + |Print(Script(base, sub, sup))|, base, sub, sup)
    decreases |Print(Script(base, sub, sup))|, 1
  {
    hide AtomAt, Braced, Marked, Print, Shape, Printable, Occurs, MarkRead;
    ScriptApart(src.text, p, base, sub, sup);
    p1 := p + |Braced(base)|;
    p2 := p1 + |Marked("_", sub)|;
    BaseReadsBack(src, p, base, sub, sup);
    SubReadsBack(src, p, base, sub, sup);
    SupReadsBack(src, p, base, sub, sup);
  }

  lemma {:induction false} BaseReadsBack(src: Source, p: nat, base: Math, sub: Option<Math>, sup: Option<Math>)
    requires KnowsCommands(src) && Printable(src, Script(base, sub, sup))
    requires Occurs(src.text, p, Print(Script(base, sub, sup)))
    ensures AtomAt(src, p) == Parsed(Shape(base, src.symbols), p + |Braced(base)|)
    decreases |Print(Script(base, sub, sup))|, 0
  {
    hide AtomAt, GroupAt, Braced, Marked, Print, Shape, Printable, Occurs;
    PrintableScript(src, base, sub, sup);
    ScriptApart(src.text, p, base, sub, sup);
    BracedReadsBack(src, p, base);
  }

  lemma {:induction false} SubReadsBack(src: Source, p: nat, base: Math, sub: Option<Math>, sup: Option<Math>)
    requires KnowsCommands(src) && Printable(src, Script(base, sub, sup))
    requires Occurs(src.text, p, Print(Script(base, sub, sup)))
    ensures var p1 := p + |Braced(base)|; MarkRead(src, p1, p1 + |Marked("_", sub)|, '_', sub)
    decreases |Print(Script(base, sub, sup))|, 0
  {
    hide Braced, Marked, Print, Shape, Printable, PrintableLeaf, Occurs, MarkRead, InWord, IsWord, IsName, GroupAt,
        AtomAt;
    PrintableScript(src, base, sub, sup);
    ScriptApart(src.text, p, base, sub, sup);
    assert ['_'] == "_";
    MarkedReadsBack(src, p + |Braced(base)|, '_', sub);
  }

  lemma {:induction false} SupReadsBack(src: Source, p: nat, base: Math, sub: Option<Math>, sup: Option<Math>)
    requires KnowsCommands(src) && Printable(src, Script(base, sub, sup))
    requires Occurs(src.text, p, Print(Script(base, sub, sup)))
    ensures var p2 := p + |Braced(base)| + |Marked("_", sub)|; MarkRead(src, p2, p2 + |Marked("^", sup)|, '^', sup)
    decreases |Print(Script(base, sub, sup))|, 0
  {
    hide Braced, Marked, Print, Shape, Printable, PrintableLeaf, Occurs, MarkRead, InWord, IsWord, IsName, GroupAt,
        AtomAt;
    PrintableScript(src, base, sub, sup);
    ScriptApart(src.text, p, base, sub, sup);
    assert ['^'] == "^";
    MarkedReadsBack(src, p + |Braced(base)| + |Marked("_", sub)|, '^', sup);
  }

  lemma PartsReadBack(src: Source, p: nat, p1: nat, p2: nat, q: nat, base: Math, sub: Option<Math>, sup: Option<Math>)
    requires Classified(src) && PartsRead(src, p, p1, p2, q, base, sub, sup)
    ensures SequenceAt(src, p) == Parsed(Shape(Script(base, sub, sup), src.symbols), After(src.text, q))
  {
    hide SequenceAt, GroupAt, AtomAt, ScriptsAt, Scripted, Shape, MarkRead;
    ScriptsReadBack(src, Shape(base, src.symbols), p1, p2, q, sub, sup);
    ScriptedFirst(src, p, p1, q);
    ShapeOfScript(base, sub, sup, src.symbols);
  }

  lemma PrintableScript(src: Source, base: Math, sub: Option<Math>, sup: Option<Math>)
    requires Printable(src, Script(base, sub, sup))
    ensures Printable(src, base) && (sub.Some? ==> Printable(src, sub.value))
    ensures (sup.Some? ==> Printable(src, sup.value))
  {}

  lemma ScriptApart(text: string, p: nat, base: Math, sub: Option<Math>, sup: Option<Math>)
    requires Occurs(text, p, Print(Script(base, sub, sup)))
    ensures var p1 := p + |Braced(base)|;
            && p < |text| && text[p] == '{' && Occurs(text, p, Braced(base))
            && Occurs(text, p1, Marked("_", sub)) && Occurs(text, p1 + |Marked("_", sub)|, Marked("^", sup))
    ensures |Braced(base)| == |Print(base)| + 2
    ensures |Print(Script(base, sub, sup))| == |Braced(base)| + |Marked("_", sub)| + |Marked("^", sup)|
    ensures (sub.None? ==> Marked("_", sub) == "") && (sup.None? ==> Marked("^", sup) == "")
  {
    hide Print, Occurs, Marked, Braced;
    ScriptText(base, sub, sup);
    var head, below, above := Braced(base), Marked("_", sub), Marked("^", sup);
    OccursApart(text, p, head + below, above);
    OccursApart(text, p, head, below);
    BracedApart(text, p, base);
  }

  lemma ScriptText(base: Math, sub: Option<Math>, sup: Option<Math>)
    ensures Print(Script(base, sub, sup)) == Braced(base) + Marked("_", sub) + Marked("^", sup)
    ensures |Braced(base)| == |Print(base)| + 2
    ensures (sub.None? ==> Marked("_", sub) == "") && (sup.None? ==> Marked("^", sup) == "")
  {}

  lemma ShapeOfScript(base: Math, sub: Option<Math>, sup: Option<Math>, symbols: map<string, string>)
    ensures Shape(Script(base, sub, sup), symbols)
         == Scripted(Shape(base, symbols), ShapeIfAny(sub, symbols), ShapeIfAny(sup, symbols))
  {
    match (sub, sup) {
      case (None, None) =>
      case (Some(b), None) => SubTokens(Shape(base, symbols), Shape(b, symbols));
      case (None, Some(t)) => SupTokens(Shape(base, symbols), Shape(t, symbols));
      case (Some(b), Some(t)) => BothTokens(Shape(base, symbols), Shape(b, symbols), Shape(t, symbols));
    }
  }

  lemma SubTokens(x: Xml, b: Xml)
    ensures Scripted(x, Some(b), None)
         == [Open(WithSub), Open(Argument)] + x + [Close(Argument), Open(Subscript)] + b
             + [Close(Subscript), Close(WithSub)]
  {}

  lemma SupTokens(x: Xml, t: Xml)
    ensures Scripted(x, None, Some(t))
         == [Open(WithSup), Open(Argument)] + x + [Close(Argument), Open(Superscript)] + t
             + [Close(Superscript), Close(WithSup)]
  {}

  lemma BothTokens(x: Xml, b: Xml, t: Xml)
    ensures Scripted(x, Some(b), Some(t))
         == [Open(WithBoth), Open(Argument)] + x + [Close(Argument), Open(Subscript)] + b
            + [Close(Subscript), Open(Superscript)] + t + [Close(Superscript), Close(WithBoth)]
  {}

  /** A scripted atom that fills the rest of a sequence is all of it. */
  lemma ScriptedFirst(src: Source, p: nat, p1: nat, q: nat)
    requires Classified(src) && p < p1 <= q && StopsAt(src.text, q) && src.text[p] != '}'
    requires AtomAt(src, p).end == p1
    requires ScriptsAt(src, AtomAt(src, p).xml, None, None, p1).end == q
    ensures SequenceAt(src, p) == Parsed(ScriptsAt(src, AtomAt(src, p).xml, None, None, p1).xml, After(src.text, q))
  {
    hide AtomAt, ScriptsAt;
    assert SequenceAt(src, q) == Parsed([], After(src.text, q));
  }

  lemma ScriptsReadBack(src: Source, base: Xml, p1: nat, p2: nat, q: nat, sub: Option<Math>, sup: Option<Math>)
    requires Classified(src) && p1 <= p2 <= q && StopsAt(src.text, q)
    requires MarkRead(src, p1, p2, '_', sub) && MarkRead(src, p2, q, '^', sup)
    ensures ScriptsAt(src, base, None, None, p1)
         == Parsed(Scripted(base, ShapeIfAny(sub, src.symbols), ShapeIfAny(sup, src.symbols)), q)
  {
    hide GroupAt, Scripted, Shape;
    var b, t := ShapeIfAny(sub, src.symbols), ShapeIfAny(sup, src.symbols);
    assert ScriptsAt(src, base, b, t, q) == Parsed(Scripted(base, b, t), q);
    assert ScriptsAt(src, base, b, None, p2) == ScriptsAt(src, base, b, t, q);
    assert ScriptsAt(src, base, None, None, p1) == ScriptsAt(src, base, b, None, p2);
  }

  /** A word that is a group or an atom of its own. */
  lemma WordAtom(src: Source, p: nat, word: string)
    requires Classified(src) && IsWord(src, word) && Occurs(src.text, p, word)
    requires p + |word| < |src.text| ==> !InWord(src, src.text[p + |word|])
    ensures src.text[p] != '}' && AtomAt(src, p) == GroupAt(src, p) == Parsed([LatexMath.Run(word)], p + |word|)
  {
    WordRun(src, p, word, 0);
    OccursAt(src.text, p, word, 0);
    hide SequenceAt, CommandAt;
    assert SkipSpaces(src, p) == p;
  }

  lemma BareReadsBack(src: Source, p: nat, marker: char, word: Option<string>)
    requires Classified(src) && marker in {'_', '^'} && (word.Some? ==> IsWord(src, word.value))
    requires Occurs(src.text, p, Bare([marker], word))
    requires var q := p + |Bare([marker], word)|; q < |src.text| ==> !InWord(src, src.text[q])
    ensures MarkRead(src, p, p + |Bare([marker], word)|, marker, WordIfAny(word))
  {
    hide GroupAt, AtomAt, Occurs, IsWord;
    if word.Some? {
      OccursApart(src.text, p, [marker], word.value);
      OccursAt(src.text, p, [marker], 0);
      WordAtom(src, p + 1, word.value);
    }
  }

  /** Where a bare script begins, or where it would, no word goes on. */
  lemma BareStops(src: Source, p: nat, marker: char, word: Option<string>)
    requires Classified(src) && marker in {'_', '^'} && Occurs(src.text, p, Bare([marker], word))
    requires var q := p + |Bare([marker], word)|; q < |src.text| ==> !InWord(src, src.text[q])
    ensures p < |src.text| ==> !InWord(src, src.text[p])
  {
    if word.Some? { OccursAt(src.text, p, Bare([marker], word), 0); }
  }

  lemma ShortReadsBack(src: Source, p: nat, word: string, below: Option<string>, above: Option<string>)
    requires KnowsCommands(src) && Printable(src, Short(word, below, above))
    requires var printed := Print(Short(word, below, above));
             Occurs(src.text, p, printed) && StopsAt(src.text, p + |printed|)
    ensures SequenceAt(src, p)
            == Parsed(ShapeOfShort(word, below, above), After(src.text, p + |Print(Short(word, below, above))|))
  {
    hide SequenceAt, Print, Occurs, Bare, IsWord, ShapeOfShort, Shape, PartsRead, Printable;
    PrintableShort(src, word, below, above);
    ShortApart(src.text, p, word, below, above);
    var p1 := p + |word|;
    var p2 := p1 + |Bare("_", below)|;
    ShortParts(src, p, word, below, above);
    PartsReadBack(src, p, p1, p2, p2 + |Bare("^", above)|, Word(word), WordIfAny(below), WordIfAny(above));
    ShortShape(word, below, above, src.symbols);
  }

  lemma PrintableShort(src: Source, word: string, below: Option<string>, above: Option<string>)
    requires Printable(src, Short(word, below, above))
    ensures IsWord(src, word) && (below.Some? ==> IsWord(src, below.value))
    ensures (above.Some? ==> IsWord(src, above.value))
  {}

  lemma ShortParts(src: Source, p: nat, word: string, below: Option<string>, above: Option<string>)
    requires Classified(src) && IsWord(src, word)
    requires (below.Some? ==> IsWord(src, below.value)) && (above.Some? ==> IsWord(src, above.value))
    requires var p1 := p + |word|;
             && Occurs(src.text, p, word) && Occurs(src.text, p1, Bare("_", below))
             && Occurs(src.text, p1 + |Bare("_", below)|, Bare("^", above))
             && StopsAt(src.text, p1 + |Bare("_", below)| + |Bare("^", above)|)
    ensures var p1 := p + |word|;
            var p2 := p1 + |Bare("_", below)|;
            PartsRead(src, p, p1, p2, p2 + |Bare("^", above)|, Word(word), WordIfAny(below), WordIfAny(above))
  {
    var p1 := p + |word|;
    var p2 := p1 + |Bare("_", below)|;
    assert ['_'] == "_" && ['^'] == "^";
    hide AtomAt, GroupAt, Occurs, Bare, MarkRead, IsWord;
    BareStops(src, p2, '^', above);
    BareStops(src, p1, '_', below);
    WordAtom(src, p, word);
    BareReadsBack(src, p1, '_', below);
    BareReadsBack(src, p2, '^', above);
    WordIsNotEmpty(src, word);
  }

  lemma WordIsNotEmpty(src: Source, word: string)
    requires IsWord(src, word)
    ensures |word| > 0
  {}

  lemma ShortApart(text: string, p: nat, word: string, below: Option<string>, above: Option<string>)
    requires Occurs(text, p, Print(Short(word, below, above)))
    ensures var p1 := p + |word|;
            && Occurs(text, p, word) && Occurs(text, p1, Bare("_", below))
            && Occurs(text, p1 + |Bare("_", below)|, Bare("^", above))
            && |Print(Short(word, below, above))| == |word| + |Bare("_", below)| + |Bare("^", above)|
  {
    hide Occurs, Bare;
    OccursApart(text, p, word + Bare("_", below), Bare("^", above));
    OccursApart(text, p, word, Bare("_", below));
  }

  lemma ShortShape(word: string, below: Option<string>, above: Option<string>, symbols: map<string, string>)
    ensures Shape(Script(Word(word), WordIfAny(below), WordIfAny(above)), symbols) == ShapeOfShort(word, below, above)
  {}

  lemma {:induction false} RowReadsBack(src: Source, p: nat, items: seq<Math>)
    requires KnowsCommands(src) && forall i :: 0 <= i < |items| ==> Printable(src, items[i])
    requires Occurs(src.text, p, PrintRow(items)) && StopsAt(src.text, p + |PrintRow(items)|)
    ensures SequenceAt(src, p) == Parsed(ShapeRow(items, src.symbols), After(src.text, p + |PrintRow(items)|))
    decreases |PrintRow(items)|, 0
  {
    hide SequenceAt, AtomAt, GroupAt, Braced, Print, Shape, PrintRow, ShapeRow, Occurs, Printable;
    RowUnfold(items, src.symbols);
    if items == [] {
      EmptySequence(src, p);
    } else {
      RowApart(src.text, p, items);
      BracedReadsBack(src, p, items[0]);
      NoMarkerNext(src, p + |Braced(items[0])|, items[1..]);
      RowReadsBack(src, p + |Braced(items[0])|, items[1..]);
      AtomFirst(src, p, p + |Braced(items[0])|);
    }
  }

  lemma RowUnfold(items: seq<Math>, symbols: map<string, string>)
    ensures items == [] ==> PrintRow(items) == "" && ShapeRow(items, symbols) == []
    ensures items != [] ==> ShapeRow(items, symbols) == Shape(items[0], symbols) + ShapeRow(items[1..], symbols)
  {}

  lemma EmptySequence(src: Source, p: nat)
    requires Classified(src) && StopsAt(src.text, p)
    ensures SequenceAt(src, p) == Parsed([], After(src.text, p))
  {}

  lemma RowApart(text: string, p: nat, items: seq<Math>)
    requires items != [] && Occurs(text, p, PrintRow(items))
    ensures p < |text| && text[p] == '{' && Occurs(text, p, Braced(items[0]))
    ensures Occurs(text, p + |Braced(items[0])|, PrintRow(items[1..]))
    ensures |Braced(items[0])| == |Print(items[0])| + 2
    ensures |PrintRow(items)| == |Braced(items[0])| + |PrintRow(items[1..])|
  {
    assert |Braced(items[0])| == |Print(items[0])| + 2;
    assert PrintRow(items) == Braced(items[0]) + PrintRow(items[1..]);
    hide Print, Occurs, Braced, PrintRow;
    OccursApart(text, p, Braced(items[0]), PrintRow(items[1..]));
    BracedApart(text, p, items[0]);
  }

  lemma NoMarkerNext(src: Source, p: nat, items: seq<Math>)
    requires Occurs(src.text, p, PrintRow(items)) && StopsAt(src.text, p + |PrintRow(items)|)
    ensures !MarkerAt(src, p)
  {
    if items != [] {
      OccursApart(src.text, p, Braced(items[0]), PrintRow(items[1..]));
      BracedApart(src.text, p, items[0]);
    }
  }

  /** A printed formula translates to its own shape. */
  lemma PrintedFormulasTranslate(src: Source, m: Math)
    requires KnowsCommands(src) && Printable(src, m) && src.text == Print(m)
    ensures Shape(m, src.symbols) != [] ==> Translate(src) == Shape(m, src.symbols)
    ensures SequenceAt(src, 0).end == |src.text|
  {
    assert src.text[0..|src.text|] == src.text;
    ReadsBack(src, 0, m);
  }

}
