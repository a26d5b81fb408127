/** What holds of the translation for every source: where parsing ends, and that its XML is well nested. */
module LatexProofs {
  import opened Wrappers
  import opened LatexMath

  // ---------------------------------------------------------------- nesting

  /** Read XML with a stack of open elements: the stack it leaves, or nothing when a closing tag does not match. */
  function Unwind(xml: Xml, stack: seq<Tag>): Option<seq<Tag>> {
    if xml == [] then Some(stack)
    else match xml[0]
      case Open(tag) => Unwind(xml[1..], stack + [tag])
      case Close(tag) =>
        if stack != [] && stack[|stack|-1] == tag then Unwind(xml[1..], stack[..|stack|-1]) else None
      case _ => Unwind(xml[1..], stack)
  }

  ghost predicate WellNested(xml: Xml) {
    forall stack :: Unwind(xml, stack) == Some(stack)
  }

  lemma {:induction false} UnwindAppend(a: Xml, b: Xml, stack: seq<Tag>)
    ensures Unwind(a + b, stack) == match Unwind(a, stack) { case None => None case Some(s) => Unwind(b, s) }
    decreases a
  {
    if a == [] {
      assert a + b == b;
    } else {
      assert (a + b)[1..] == a[1..] + b;
      match a[0] {
        case Open(tag) => UnwindAppend(a[1..], b, stack + [tag]);
        case Close(tag) =>
          if stack != [] && stack[|stack|-1] == tag { UnwindAppend(a[1..], b, stack[..|stack|-1]); }
        case _ => UnwindAppend(a[1..], b, stack);
      }
    }
  }

  lemma NestedAppend(a: Xml, b: Xml)
    requires WellNested(a) && WellNested(b)
    ensures WellNested(a + b)
  {
    forall stack ensures Unwind(a + b, stack) == Some(stack) { UnwindAppend(a, b, stack); }
  }

  lemma NestedElement(tag: Tag, content: Xml)
    requires WellNested(content)
    ensures WellNested(Element(tag, content))
  {
    var xml := Element(tag, content);
    forall stack ensures Unwind(xml, stack) == Some(stack) {
      assert xml == [Open(tag)] + (content + [Close(tag)]);
      assert xml[1..] == content + [Close(tag)];
      UnwindAppend(content, [Close(tag)], stack + [tag]);
      assert (stack + [tag])[..|stack|] == stack;
      assert [Close(tag)][1..] == [];
    }
  }

  lemma NestedLeaf(token: Token)
    requires !token.Open? && !token.Close?
    ensures WellNested([token])
  {
    assert [token][1..] == [];
  }

  lemma NestedNothing()
    ensures WellNested([])
  {}

  lemma NestedFraction(numerator: Xml, denominator: Xml)
    requires WellNested(numerator) && WellNested(denominator)
    ensures WellNested(FractionOf(numerator, denominator))
  {
    hide WellNested, Element;
    NestedElement(Numerator, numerator);
    NestedElement(Denominator, denominator);
    NestedAppend(Element(Numerator, numerator), Element(Denominator, denominator));
    NestedElement(Fraction, Element(Numerator, numerator) + Element(Denominator, denominator));
  }

  lemma NestedRadical(radicand: Xml)
    requires WellNested(radicand)
    ensures WellNested(RadicalOf(radicand))
  {
    hide WellNested, Element;
    NestedElement(Argument, radicand);
    NestedLeaf(Degree);
    NestedAppend([Degree], Element(Argument, radicand));
    NestedElement(Radical, [Degree] + Element(Argument, radicand));
  }

  ghost predicate NestedIfAny(xml: Option<Xml>) {
    xml.Some? ==> WellNested(xml.value)
  }

  lemma NestedScripted(base: Xml, sub: Option<Xml>, sup: Option<Xml>)
    requires WellNested(base) && NestedIfAny(sub) && NestedIfAny(sup)
    ensures WellNested(Scripted(base, sub, sup))
  {
    hide WellNested, Element;
    NestedElement(Argument, base);
    if sub.Some? {
      NestedElement(Subscript, sub.value);
      NestedAppend(Element(Argument, base), Element(Subscript, sub.value));
    }
    if sup.Some? {
      NestedElement(Superscript, sup.value);
      NestedAppend(Element(Argument, base), Element(Superscript, sup.value));
    }
    match (sub, sup) {
      case (Some(b), Some(p)) =>
        NestedAppend(Element(Argument, base) + Element(Subscript, b), Element(Superscript, p));
        NestedElement(WithBoth, Element(Argument, base) + Element(Subscript, b) + Element(Superscript, p));
      case (Some(b), None) => NestedElement(WithSub, Element(Argument, base) + Element(Subscript, b));
      case (None, Some(p)) => NestedElement(WithSup, Element(Argument, base) + Element(Superscript, p));
      case (None, None) =>
    }
  }

  // ---------------------------------------------------------------- positions

  /** Between p and q every group that opens also closes: what closes from outside is the same at both. */
  ghost predicate Level(text: string, p: nat, q: nat) {
    p <= q <= |text| && Closing(text, p, 0) == Closing(text, q, 0)
  }

  lemma {:induction false} SpacesAreLevel(src: Source, p: nat)
    requires p <= |src.text| && Classified(src)
    ensures Level(src.text, p, SkipSpaces(src, p))
    decreases |src.text| - p
  {
    if p < |src.text| && src.text[p] in src.spaces { SpacesAreLevel(src, p + 1); }
  }

  lemma {:induction false} NamesAreLevel(src: Source, p: nat)
    requires p <= |src.text| && Classified(src)
    ensures Level(src.text, p, NameEnd(src, p))
    decreases |src.text| - p
  {
    if p < |src.text| && src.text[p] in src.letters { NamesAreLevel(src, p + 1); }
  }

  lemma {:induction false} WordsAreLevel(src: Source, p: nat)
    requires p <= |src.text| && Classified(src)
    ensures Level(src.text, p, WordEnd(src, p))
    decreases |src.text| - p
  {
    if p < |src.text| && InWord(src, src.text[p]) { WordsAreLevel(src, p + 1); }
  }

  /** Closing one group more is closing the inner ones first. */
  lemma {:induction false} ClosingInner(text: string, i: nat, depth: nat)
    requires i <= |text|
    ensures Closing(text, i, depth + 1) == Closing(text, After(text, Closing(text, i, depth)), 0)
    decreases |text| - i
  {
    if i < |text| {
      if text[i] == '\\' { ClosingInner(text, if i + 2 < |text| then i + 2 else |text|, depth); }
      else if text[i] == '{' { ClosingInner(text, i + 1, depth + 1); }
      else if text[i] == '}' { if depth > 0 { ClosingInner(text, i + 1, depth - 1); } }
      else { ClosingInner(text, i + 1, depth); }
    }
  }

  /** A braced group ends behind the brace that closes it. */
  lemma GroupIsLevel(text: string, p: nat)
    requires p < |text| && text[p] == '{'
    ensures Level(text, p, After(text, Closing(text, p + 1, 0)))
  {
    ClosingInner(text, p + 1, 0);
  }

  lemma NameIsLevel(src: Source, p: nat)
    requires p < |src.text| && src.text[p] == '\\' && Classified(src)
    ensures var end := NameEnd(src, p + 1);
            && (end > p + 1 || end == |src.text| ==> Level(src.text, p, end))
            && (end == p + 1 && end < |src.text| ==> Level(src.text, p, end + 1))
  {
    if p + 1 < |src.text| && src.text[p + 1] in src.letters { NamesAreLevel(src, p + 2); }
  }

  // ---------------------------------------------------------------- every parsing step

  /** A step that reads from p: it leaves the groups around it alone and yields well-nested XML. */
  ghost predicate Sound(src: Source, p: nat, r: Parsed) {
    Level(src.text, p, r.end) && WellNested(r.xml)
  }

  /** A sequence ends exactly behind the brace that closes it, or at the end of the source. */
  lemma {:induction false} SequenceSound(src: Source, p: nat)
    requires p <= |src.text| && Classified(src)
    ensures SequenceAt(src, p).end == After(src.text, Closing(src.text, p, 0))
    ensures WellNested(SequenceAt(src, p).xml)
    decreases |src.text| - p, 6
  {
    hide WellNested, AtomAt, ScriptsAt;
    NestedNothing();
    if p < |src.text| && src.text[p] != '}' {
      var atom := AtomAt(src, p);
      AtomSound(src, p);
      ScriptsSound(src, atom.xml, None, None, atom.end);
      var scripted := ScriptsAt(src, atom.xml, None, None, atom.end);
      SequenceSound(src, scripted.end);
      NestedAppend(scripted.xml, SequenceAt(src, scripted.end).xml);
    }
  }

  lemma {:induction false} AtomSound(src: Source, p: nat)
    requires p < |src.text| && Classified(src)
    ensures Sound(src, p, AtomAt(src, p))
    decreases |src.text| - p, 2
  {
    hide WellNested, SequenceAt, CommandAt, SkipSpaces, WordEnd;
    var c := src.text[p];
    if c == '{' {
      SequenceSound(src, p + 1);
      GroupIsLevel(src.text, p);
    } else if c == '\\' {
      CommandSound(src, p);
    } else if c in src.spaces {
      SpacesAreLevel(src, p + 1);
      NestedLeaf(Run(" "));
    } else {
      WordsAreLevel(src, p);
      NestedLeaf(Run(src.text[p..WordEnd(src, p)]));
    }
  }

  lemma {:induction false} CommandSound(src: Source, p: nat)
    requires p < |src.text| && src.text[p] == '\\' && Classified(src)
    ensures Sound(src, p, CommandAt(src, p))
    decreases |src.text| - p, 1
  {
    hide WellNested, FractionAt, RadicalAt, TextAt, SkipSpaces, NameEnd, Closing;
    NameIsLevel(src, p);
    var end := NameEnd(src, p + 1);
    var name := src.text[p + 1..end];
    if name == "" && end < |src.text| {
      NestedEscape(src.text[end]);
    } else {
      FractionSound(src, end);
      RadicalSound(src, end);
      TextSound(src, end);
      SpacesAreLevel(src, end);
      NestedNothing();
      NestedLeaf(Run(" "));
      NestedLeaf(Run("\\" + name));
      if name in src.symbols { NestedLeaf(Run(src.symbols[name])); }
    }
  }

  lemma NestedEscape(c: char)
    ensures WellNested(EscapedRun(c))
  {
    NestedLeaf(Run(" "));
    NestedLeaf(Run(""));
    NestedLeaf(Run([c]));
  }

  lemma {:induction false} FractionSound(src: Source, p: nat)
    requires p <= |src.text| && Classified(src)
    ensures Sound(src, p, FractionAt(src, p))
    decreases |src.text| - p, 4
  {
    hide WellNested, GroupAt, FractionOf, Closing;
    GroupSound(src, p);
    var numerator := GroupAt(src, p);
    GroupSound(src, numerator.end);
    NestedFraction(numerator.xml, GroupAt(src, numerator.end).xml);
  }

  lemma {:induction false} RadicalSound(src: Source, p: nat)
    requires p <= |src.text| && Classified(src)
    ensures Sound(src, p, RadicalAt(src, p))
    decreases |src.text| - p, 4
  {
    hide WellNested, GroupAt, RadicalOf, Closing;
    GroupSound(src, p);
    NestedRadical(GroupAt(src, p).xml);
  }

  lemma {:induction false} TextSound(src: Source, p: nat)
    requires p <= |src.text| && Classified(src)
    ensures Sound(src, p, TextAt(src, p))
    decreases |src.text| - p, 4
  {
    hide WellNested, AtomAt, SkipSpaces, WordEnd, Closing;
    SpacesAreLevel(src, p);
    var q := SkipSpaces(src, p);
    if q == |src.text| {
      NestedLeaf(Run(""));
    } else if src.text[q] == '{' {
      GroupIsLevel(src.text, q);
      NestedLeaf(Prose(src.text[q + 1..Closing(src.text, q + 1, 0)]));
    } else {
      WordsAreLevel(src, q);
      NestedLeaf(Prose(src.text[q..WordEnd(src, q)]));
      AtomSound(src, q);
    }
  }

  lemma {:induction false} GroupSound(src: Source, p: nat)
    requires p <= |src.text| && Classified(src)
    ensures Sound(src, p, GroupAt(src, p))
    decreases |src.text| - p, 3
  {
    hide WellNested, AtomAt, SequenceAt, SkipSpaces, Closing;
    SpacesAreLevel(src, p);
    var q := SkipSpaces(src, p);
    if q == |src.text| {
      NestedLeaf(Run(""));
    } else if src.text[q] == '{' {
      SequenceSound(src, q + 1);
      GroupIsLevel(src.text, q);
    } else {
      AtomSound(src, q);
    }
  }

  lemma {:induction false} ScriptsSound(src: Source, base: Xml, sub: Option<Xml>, sup: Option<Xml>, p: nat)
    requires p <= |src.text| && Classified(src)
    requires WellNested(base) && NestedIfAny(sub) && NestedIfAny(sup)
    ensures Sound(src, p, ScriptsAt(src, base, sub, sup, p))
    decreases |src.text| - p, 5
  {
    hide WellNested, GroupAt, Scripted;
    if MarkerAt(src, p) {
      var script := GroupAt(src, p + 1);
      GroupSound(src, p + 1);
      assert Level(src.text, p, script.end);
      if src.text[p] == '_' {
        ScriptsSound(src, base, Some(script.xml), sup, script.end);
      } else {
        ScriptsSound(src, base, sub, Some(script.xml), script.end);
      }
    } else {
      NestedScripted(base, sub, sup);
    }
  }

  /** Every source yields well-nested XML. */
  lemma TranslationIsWellNested(src: Source)
    requires Classified(src)
    ensures WellNested(Translate(src)) && Translate(src) != []
  {
    hide WellNested;
    SequenceSound(src, 0);
    NestedLeaf(Run(src.text));
  }

  // ---------------------------------------------------------------- reaching the end of the source

  /** Reading the first k characters: how many more braces were opened than closed, and whether the next
      character is hidden by a backslash. */
  datatype Scan = Scan(depth: int, hidden: bool)

  function ScanTo(text: string, k: nat): Scan
    requires k <= |text|
  {
    if k == 0 then Scan(0, false)
    else
      var before := ScanTo(text, k - 1);
      var c := text[k - 1];
      if before.hidden then Scan(before.depth, false)
      else if c == '\\' then Scan(before.depth, true)
      else if c == '{' then Scan(before.depth + 1, false)
      else if c == '}' then Scan(before.depth - 1, false)
      else before
  }

  /** No prefix closes more braces than it opened. */
  ghost predicate NeverOverclosed(text: string) {
    forall k :: 0 <= k <= |text| ==> ScanTo(text, k).depth >= 0
  }

  lemma {:induction false} ClosingByScan(text: string, i: nat)
    requires i <= |text| && ScanTo(text, i).depth >= 0 && !ScanTo(text, i).hidden
    ensures var k := Closing(text, i, ScanTo(text, i).depth);
            && (forall j :: i <= j <= k ==> ScanTo(text, j).depth >= 0)
            && (k < |text| ==> ScanTo(text, k + 1).depth < 0)
    decreases |text| - i
  {
    var depth := ScanTo(text, i).depth;
    if i < |text| {
      if text[i] == '\\' {
        assert ScanTo(text, i + 1) == Scan(depth, true);
        if i + 2 <= |text| {
          assert ScanTo(text, i + 2) == Scan(depth, false);
          ClosingByScan(text, i + 2);
        }
      } else if text[i] != '}' || depth > 0 {
        assert !ScanTo(text, i + 1).hidden && ScanTo(text, i + 1).depth >= 0;
        ClosingByScan(text, i + 1);
      }
    }
  }

  /** The translation reads the whole source exactly when no proper prefix closes more braces than it opened;
      otherwise it stops right behind the first prefix that does. */
  lemma ReadsToTheEnd(src: Source)
    requires Classified(src)
    ensures SequenceAt(src, 0).end == |src.text|
            <==> forall k :: 0 <= k < |src.text| ==> ScanTo(src.text, k).depth >= 0
    ensures !NeverOverclosed(src.text) ==>
              var end := SequenceAt(src, 0).end;
              && ScanTo(src.text, end).depth < 0
              && forall k :: 0 <= k < end ==> ScanTo(src.text, k).depth >= 0
  {
    hide SequenceAt;
    SequenceSound(src, 0);
    ClosingByScan(src.text, 0);
    hide ScanTo;
    var k := Closing(src.text, 0, 0);
    if k < |src.text| {
      assert !NeverOverclosed(src.text);
    } else {
      assert NeverOverclosed(src.text);
    }
  }

  /** What follows a brace that nobody opened is dropped; a source that starts with one yields nothing and is
      shown as it is. */
  lemma UnopenedBraces()
    ensures var cut := Source("a}b", {}, {}, map[]);
            SequenceAt(cut, 0).end == 2 && Translate(cut) == [LatexMath.Run("a")]
    ensures var shown := Source("}x", {}, {}, map[]);
            SequenceAt(shown, 0) == Parsed([], 1) && Translate(shown) == [LatexMath.Run("}x")]
  {
    var cut := Source("a}b", {}, {}, map[]);
    assert WordEnd(cut, 1) == 1 && WordEnd(cut, 0) == 1 && cut.text[0..1] == "a";
    assert AtomAt(cut, 0) == Parsed([LatexMath.Run("a")], 1);
    assert ScriptsAt(cut, [LatexMath.Run("a")], None, None, 1) == Parsed([LatexMath.Run("a")], 1);
    assert SequenceAt(cut, 1) == Parsed([], 2);
  }
}
