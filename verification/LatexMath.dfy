/** The recursive-descent translation of LaTeX math to the XML of a formula. Functions say what each parsing
    step yields at a position; the parser that loops over its position is proved to yield the same. */
module LatexMath {
  import opened Wrappers

  // ---------------------------------------------------------------- the formula's XML

  datatype Tag = Fraction | Numerator | Denominator | Radical | Argument | Subscript | Superscript
               | WithSub | WithSup | WithBoth

  /** A piece of XML. `Degree` is the empty degree of a radical, `Run` a run of plain text, and `Prose` a run
      holding LaTeX prose whose own escapes still have to be replaced. */
  datatype Token = Open(tag: Tag) | Close(tag: Tag) | Degree | Run(text: string) | Prose(latex: string)

  type Xml = seq<Token>

  function Element(tag: Tag, content: Xml): Xml {
    [Open(tag)] + content + [Close(tag)]
  }

  function FractionOf(numerator: Xml, denominator: Xml): Xml {
    Element(Fraction, Element(Numerator, numerator) + Element(Denominator, denominator))
  }

  function RadicalOf(radicand: Xml): Xml {
    Element(Radical, [Degree] + Element(Argument, radicand))
  }

  function Scripted(base: Xml, sub: Option<Xml>, sup: Option<Xml>): Xml {
    match (sub, sup)
    case (Some(b), Some(p)) =>
      Element(WithBoth, Element(Argument, base) + Element(Subscript, b) + Element(Superscript, p))
    case (Some(b), None) => Element(WithSub, Element(Argument, base) + Element(Subscript, b))
    case (None, Some(p)) => Element(WithSup, Element(Argument, base) + Element(Superscript, p))
    case (None, None) => base
  }

  // ---------------------------------------------------------------- the source text

  /** A source text, with what counts as a letter and as white space, and the table of symbols. */
  datatype Source = Source(text: string, letters: set<char>, spaces: set<char>, symbols: map<string, string>)

  const SPECIAL: set<char> := {'\\', '{', '}', '^', '_'}

  ghost predicate Classified(src: Source) {
    src.letters !! SPECIAL && src.spaces !! SPECIAL
  }

  const STYLES: set<string> := {"displaystyle", "textstyle", "scriptstyle", "scriptscriptstyle"}

  const TEXTS: set<string> :=
    {"text", "textm", "textrm", "mathrm", "mathbf", "mathit", "mathsf", "mathtt", "operatorname"}

  /** The run an escaped character stands for. */
  function EscapedRun(c: char): Xml {
    if c in {',', ';', ':', ' '} then [Run(" ")]
    else if c == '!' then [Run("")]
    else [Run([c])]
  }

  function SkipSpaces(src: Source, p: nat): (q: nat)
    requires p <= |src.text|
    ensures p <= q <= |src.text|
    decreases |src.text| - p
  {
    if p < |src.text| && src.text[p] in src.spaces then SkipSpaces(src, p + 1) else p
  }

  function NameEnd(src: Source, p: nat): (q: nat)
    requires p <= |src.text|
    ensures p <= q <= |src.text|
    decreases |src.text| - p
  {
    if p < |src.text| && src.text[p] in src.letters then NameEnd(src, p + 1) else p
  }

  predicate InWord(src: Source, c: char) {
    c !in SPECIAL && c !in src.spaces
  }

  function WordEnd(src: Source, p: nat): (q: nat)
    requires p <= |src.text|
    ensures p <= q <= |src.text|
    ensures p < |src.text| && InWord(src, src.text[p]) ==> p < q
    decreases |src.text| - p
  {
    if p < |src.text| && InWord(src, src.text[p]) then WordEnd(src, p + 1) else p
  }

  /** The position of the brace that closes one more group than was opened since `i`, where `depth` groups are
      open at `i`; the length of the text if there is none. A backslash hides the character behind it. */
  function Closing(text: string, i: nat, depth: nat): (k: nat)
    requires i <= |text|
    ensures i <= k <= |text|
    decreases |text| - i
  {
    if i == |text| then i
    else if text[i] == '\\' then Closing(text, if i + 2 < |text| then i + 2 else |text|, depth)
    else if text[i] == '{' then Closing(text, i + 1, depth + 1)
    else if text[i] == '}' then if depth == 0 then i else Closing(text, i + 1, depth - 1)
    else Closing(text, i + 1, depth)
  }

  function After(text: string, k: nat): (q: nat)
    requires k <= |text|
    ensures k <= q <= |text|
  {
    if k < |text| then k + 1 else k
  }

  // ---------------------------------------------------------------- what each step yields

  datatype Parsed = Parsed(xml: Xml, end: nat)

  function SequenceAt(src: Source, p: nat): (r: Parsed)
    requires p <= |src.text| && Classified(src)
    ensures p <= r.end <= |src.text|
    decreases |src.text| - p, 6
  {
    if p == |src.text| then Parsed([], p)
    else if src.text[p] == '}' then Parsed([], p + 1)
    else
      var atom := AtomAt(src, p);
      var scripted := ScriptsAt(src, atom.xml, None, None, atom.end);
      var rest := SequenceAt(src, scripted.end);
      Parsed(scripted.xml + rest.xml, rest.end)
  }

  function AtomAt(src: Source, p: nat): (r: Parsed)
    requires p < |src.text| && Classified(src)
    ensures p <= r.end <= |src.text|
    ensures r.end == p <==> src.text[p] in {'}', '^', '_'}
    decreases |src.text| - p, 2
  {
    var c := src.text[p];
    if c == '{' then SequenceAt(src, p + 1)
    else if c == '\\' then CommandAt(src, p)
    else if c in src.spaces then Parsed([Run(" ")], SkipSpaces(src, p + 1))
    else
      var end := WordEnd(src, p);
      Parsed([Run(src.text[p..end])], end)
  }

  function CommandAt(src: Source, p: nat): (r: Parsed)
    requires p < |src.text| && src.text[p] == '\\' && Classified(src)
    ensures p < r.end <= |src.text|
    decreases |src.text| - p, 1
  {
    var end := NameEnd(src, p + 1);
    var name := src.text[p + 1..end];
    if name == "" && end < |src.text| then Parsed(EscapedRun(src.text[end]), end + 1)
    else if name in {"frac", "dfrac", "tfrac"} then FractionAt(src, end)
    else if name == "sqrt" then RadicalAt(src, end)
    else if name in STYLES then Parsed([], SkipSpaces(src, end))
    else if name in TEXTS then TextAt(src, end)
    else if name in {"left", "right"} then Parsed([], end)
    else if name in {"quad", "qquad"} then Parsed([Run(" ")], end)
    else if name in src.symbols then Parsed([Run(src.symbols[name])], end)
    else Parsed([Run("\\" + name)], end)
  }

  function FractionAt(src: Source, p: nat): (r: Parsed)
    requires p <= |src.text| && Classified(src)
    ensures p <= r.end <= |src.text|
    decreases |src.text| - p, 4
  {
    var numerator := GroupAt(src, p);
    var denominator := GroupAt(src, numerator.end);
    Parsed(FractionOf(numerator.xml, denominator.xml), denominator.end)
  }

  function RadicalAt(src: Source, p: nat): (r: Parsed)
    requires p <= |src.text| && Classified(src)
    ensures p <= r.end <= |src.text|
    decreases |src.text| - p, 4
  {
    var radicand := GroupAt(src, p);
    Parsed(RadicalOf(radicand.xml), radicand.end)
  }

  function TextAt(src: Source, p: nat): (r: Parsed)
    requires p <= |src.text| && Classified(src)
    ensures p <= r.end <= |src.text|
    decreases |src.text| - p, 4
  {
    var q := SkipSpaces(src, p);
    if q == |src.text| then Parsed([Run("")], q)
    else if src.text[q] == '{' then
      var close := Closing(src.text, q + 1, 0);
      Parsed([Prose(src.text[q + 1..close])], After(src.text, close))
    else
      var end := WordEnd(src, q);
      if end == q then AtomAt(src, q) else Parsed([Prose(src.text[q..end])], end)
  }

  /** A group a command or a marker asks for: a braced one, a single atom, or nothing at the end. */
  function GroupAt(src: Source, p: nat): (r: Parsed)
    requires p <= |src.text| && Classified(src)
    ensures p <= r.end <= |src.text|
    decreases |src.text| - p, 3
  {
    var q := SkipSpaces(src, p);
    if q == |src.text| then Parsed([Run("")], q)
    else if src.text[q] == '{' then SequenceAt(src, q + 1)
    else AtomAt(src, q)
  }

  predicate MarkerAt(src: Source, p: nat) {
    p < |src.text| && (src.text[p] == '_' || src.text[p] == '^')
  }

  /** Scripts behind a base, given the ones read so far: a later one of a kind replaces an earlier one. */
  function ScriptsAt(src: Source, base: Xml, sub: Option<Xml>, sup: Option<Xml>, p: nat): (r: Parsed)
    requires p <= |src.text| && Classified(src)
    ensures p <= r.end <= |src.text|
    ensures MarkerAt(src, p) ==> p < r.end
    decreases |src.text| - p, 5
  {
    if MarkerAt(src, p) then
      var script := GroupAt(src, p + 1);
      if src.text[p] == '_' then ScriptsAt(src, base, Some(script.xml), sup, script.end)
      else ScriptsAt(src, base, sub, Some(script.xml), script.end)
    else Parsed(Scripted(base, sub, sup), p)
  }

  /** The formula of a whole source; a source that yields nothing is shown as it is. */
  function Translate(src: Source): Xml
    requires Classified(src)
  {
    var xml := SequenceAt(src, 0).xml;
    if xml == [] then [Run(src.text)] else xml
  }

  // ---------------------------------------------------------------- the parser

  class Parser {
    const src: Source
    const length: nat

    ghost predicate Valid() {
      Classified(src) && length == |src.text|
    }

    constructor (source: Source)
      requires Classified(source)
      ensures Valid() && src == source
    {
      src := source;
      length := |source.text|;
    }

    method Parse() returns (xml: Xml)
      requires Valid()
      ensures xml == Translate(src)
    {
      var position;
      xml, position := ParseSequence(0);
      if xml == [] { xml := [Run(src.text)]; }
    }

    method ParseSequence(start: nat) returns (xml: Xml, position: nat)
      requires Valid() && start <= length
      ensures Parsed(xml, position) == SequenceAt(src, start)
      decreases length - start, 6
    {
      xml, position := [], start;
      while position < length
        invariant start <= position <= length
        invariant var rest := SequenceAt(src, position);
                  SequenceAt(src, start) == Parsed(xml + rest.xml, rest.end)
        decreases length - position
      {
        if src.text[position] == '}' { return xml, position + 1; }
        ghost var from := position;
        var atom;
        atom, position := ParseAtom(position);
        atom, position := ParseScripts(atom, position);
        ghost var rest := SequenceAt(src, position);
        assert xml + (atom + rest.xml) == (xml + atom) + rest.xml;
        xml := xml + atom;
      }
    }

    method ParseAtom(position: nat) returns (xml: Xml, end: nat)
      requires Valid() && position < length
      ensures Parsed(xml, end) == AtomAt(src, position)
      decreases length - position, 2
    {
      var c := src.text[position];
      if c == '{' {
        xml, end := ParseSequence(position + 1);
      } else if c == '\\' {
        xml, end := ParseCommand(position);
      } else if c in src.spaces {
        end := position + 1;
        while end < length && src.text[end] in src.spaces
          invariant position < end <= length
          invariant SkipSpaces(src, position + 1) == SkipSpaces(src, end)
        {
          end := end + 1;
        }
        xml := [Run(" ")];
      } else {
        end := FindWordEnd(position);
        xml := [Run(src.text[position..end])];
      }
    }

    method FindWordEnd(position: nat) returns (end: nat)
      requires Valid() && position <= length
      ensures end == WordEnd(src, position)
    {
      end := position;
      while end < length && src.text[end] !in SPECIAL && src.text[end] !in src.spaces
        invariant position <= end <= length
        invariant WordEnd(src, position) == WordEnd(src, end)
      {
        end := end + 1;
      }
    }

    method ParseCommand(position: nat) returns (xml: Xml, end: nat)
      requires Valid() && position < length && src.text[position] == '\\'
      ensures Parsed(xml, end) == CommandAt(src, position)
      decreases length - position, 1
    {
      end := position + 1;
      while end < length && src.text[end] in src.letters
        invariant position < end <= length
        invariant NameEnd(src, position + 1) == NameEnd(src, end)
      {
        end := end + 1;
      }
      var command := src.text[position + 1..end];
      if command == "" && end < length {
        return EscapedRun(src.text[end]), end + 1;
      }
      if command in {"frac", "dfrac", "tfrac"} {
        xml, end := ParseFraction(end);
      } else if command == "sqrt" {
        xml, end := ParseSqrt(end);
      } else if command in STYLES {
        xml := [];
        end := FindSpacesEnd(end);
      } else if command in TEXTS {
        xml, end := ParseTextCommand(end);
      } else if command in {"left", "right"} {
        xml := [];
      } else if command in {"quad", "qquad"} {
        xml := [Run(" ")];
      } else if command in src.symbols {
        xml := [Run(src.symbols[command])];
      } else {
        xml := [Run("\\" + command)];
      }
    }

    method ParseFraction(position: nat) returns (xml: Xml, end: nat)
      requires Valid() && position <= length
      ensures Parsed(xml, end) == FractionAt(src, position)
      decreases length - position, 4
    {
      var numerator, denominator;
      numerator, end := ParseRequiredGroup(position);
      denominator, end := ParseRequiredGroup(end);
      xml := FractionOf(numerator, denominator);
    }

    method ParseSqrt(position: nat) returns (xml: Xml, end: nat)
      requires Valid() && position <= length
      ensures Parsed(xml, end) == RadicalAt(src, position)
      decreases length - position, 4
    {
      var radicand;
      radicand, end := ParseRequiredGroup(position);
      xml := RadicalOf(radicand);
    }

    method ParseTextCommand(start: nat) returns (xml: Xml, end: nat)
      requires Valid() && start <= length
      ensures Parsed(xml, end) == TextAt(src, start)
      decreases length - start, 4
    {
      var position := FindSpacesEnd(start);
      if position >= length { return [Run("")], position; }
      if src.text[position] == '{' {
        var text;
        text, end := ReadBalancedText(position);
        return [Prose(text)], end;
      }
      end := FindWordEnd(position);
      if end == position {
        xml, end := ParseAtom(position);
      } else {
        xml := [Prose(src.text[position..end])];
      }
    }

    /** The text inside a braced group, up to the brace that closes it or to the end. */
    method ReadBalancedText(position: nat) returns (text: string, end: nat)
      requires Valid() && position < length && src.text[position] == '{'
      ensures var close := Closing(src.text, position + 1, 0);
              text == src.text[position + 1..close] && end == After(src.text, close)
    {
      var depth, start, index := 0, position + 1, position;
      while index < length
        invariant index <= length + 1
        invariant if depth == 0 then index == position
                  else depth > 0 && start <= index &&
                       Closing(src.text, start, 0)
                           == Closing(src.text, if index < length then index else length, depth - 1)
        decreases length - index
      {
        var c := src.text[index];
        if c == '\\' {
          index := index + 2;
          continue;
        }
        if c == '{' {
          depth := depth + 1;
        } else if c == '}' {
          depth := depth - 1;
          if depth == 0 { return src.text[start..index], index + 1; }
        }
        index := index + 1;
      }
      return src.text[start..], length;
    }

    method ParseRequiredGroup(start: nat) returns (xml: Xml, end: nat)
      requires Valid() && start <= length
      ensures Parsed(xml, end) == GroupAt(src, start)
      decreases length - start, 3
    {
      var position := FindSpacesEnd(start);
      if position >= length { return [Run("")], position; }
      if src.text[position] == '{' {
        xml, end := ParseSequence(position + 1);
      } else {
        xml, end := ParseAtom(position);
      }
    }

    method ParseScripts(base: Xml, start: nat) returns (xml: Xml, position: nat)
      requires Valid() && start <= length
      ensures Parsed(xml, position) == ScriptsAt(src, base, None, None, start)
      decreases length - start, 5
    {
      var subscript: Option<Xml>, superscript: Option<Xml> := None, None;
      position := start;
      while position < length && (src.text[position] == '_' || src.text[position] == '^')
        invariant start <= position <= length
        invariant ScriptsAt(src, base, None, None, start) == ScriptsAt(src, base, subscript, superscript, position)
      {
        var marker := src.text[position];
        var script;
        script, position := ParseRequiredGroup(position + 1);
        if marker == '_' { subscript := Some(script); } else { superscript := Some(script); }
      }
      xml := Scripted(base, subscript, superscript);
    }

    method FindSpacesEnd(start: nat) returns (position: nat)
      requires Valid() && start <= length
      ensures position == SkipSpaces(src, start)
    {
      position := start;
      while position < length && src.text[position] in src.spaces
        invariant start <= position <= length
        invariant SkipSpaces(src, start) == SkipSpaces(src, position)
      {
        position := position + 1;
      }
    }
  }
}
