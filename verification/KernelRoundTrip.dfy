/** Which kernel command lines parse, and what printing a parsed one and parsing again gives. */
module KernelRoundTrip {
  import opened Wrappers
  import opened Strings
  import opened KernelParameters
  import opened KernelGrammar

  // ---------------------------------------------------------------------------
  // Every accepted line is laid out by the grammar
  // ---------------------------------------------------------------------------

  lemma SplitValue(s: string) returns (quoted: bool)
    requires ParseValue(s).Some?
    ensures var (value, rest) := ParseValue(s).value;
            && s == ValueSpelling(value, quoted) + rest
            && value != "" && All(value, if quoted then SpacedClass else BareClass)
            && (!quoted ==> rest == "" || !In(rest[0], BareClass))
  {
    quoted := s[0] == '"';
    if quoted {
      var n := Span(s[1..], SpacedClass);
      assert s[1..][..n] == s[1..1 + n];
      assert s == [s[0]] + s[1..1 + n] + [s[1 + n]] + s[2 + n..];
    } else {
      var n := Span(s, BareClass);
      assert s == s[..n] + s[n..];
    }
  }

  lemma KeyValueText(p: Piece, rest: string)
    requires p.param.value != ""
    ensures PieceText(p) + rest == p.param.key + "=" + (ValueSpelling(p.param.value, p.quoted) + rest)
  {
  }

  lemma KeyCharsAreBare(c: char)
    ensures In(c, KeyClass) ==> In(c, BareClass)
  {
  }

  lemma SplitKeyValue(s: string, n: nat, gap: nat) returns (p: Piece)
    requires n == Span(s, KeyClass) && 0 < n < |s| && s[n] == '=' && ParseValue(s[n + 1..]).Some?
    ensures var (value, rest) := ParseValue(s[n + 1..]).value;
            && p.param == KernelParameter(s[..n], value) && p.gap == gap && WellFormedPiece(p)
            && s == PieceText(p) + rest
            && (!p.quoted ==> rest == "" || !In(rest[0], KeyClass))
  {
    var (value, rest) := ParseValue(s[n + 1..]).value;
    var quoted := SplitValue(s[n + 1..]);
    p := Piece(gap, KernelParameter(s[..n], value), quoted);
    assert s == s[..n] + "=" + s[n + 1..];
    KeyValueText(p, rest);
    assert All(s[..n], KeyClass) && s[..n] != "";
    if rest != "" {
      KeyCharsAreBare(rest[0]);
    }
  }

  lemma SplitParameter(s: string, gap: nat) returns (p: Piece)
    requires ParseParameter(s).Some?
    ensures var (param, rest) := ParseParameter(s).value;
            && p.param == param && p.gap == gap && WellFormedPiece(p) && s == PieceText(p) + rest
            && (!p.quoted ==> rest == "" || !In(rest[0], KeyClass))
  {
    var n := Span(s, KeyClass);
    if n < |s| && s[n] == '=' {
      p := SplitKeyValue(s, n, gap);
    } else {
      assert s == s[..n] + s[n..];
      p := Piece(gap, KernelParameter(s[..n], ""), false);
    }
  }

  lemma SplitSuffix(s: string, gap: nat) returns (init: Suffix)
    requires InitArgs(s).Some? && gap > 0
    ensures WellFormedSuffix(Some(init)) && init.args == InitArgs(s).value
    ensures SuffixText(Some(init)) == Blanks(gap) + s
  {
    var after := Span(s[2..], BlankClass);
    assert s[2..][after..] == s[2 + after..];
    AllBlank(s[2..][..after]);
    assert s == s[..2] + (s[2..][..after] + s[2 + after..]);
    init := Suffix(gap, after, s[2 + after..]);
    assert s[2..][after] == s[2 + after];
  }

  lemma AllBlank(s: string)
    requires All(s, BlankClass)
    ensures s == Blanks(|s|)
  {
    assert forall i :: 0 <= i < |s| ==> Blanks(|s|)[i] == ' ' by {
      assert All(Blanks(|s|), BlankClass);
    }
  }

  /** One parameter of an accepted line, and the rest of it. */
  lemma ParseRestStep(s: string, head: bool)
    requires ParseRest(s, head).Some? && s != ""
    requires var n := Span(s, BlankClass); n > 0 ==> InitArgs(s[n..]).None?
    ensures var n := Span(s, BlankClass);
            && (n == 0 ==> head)
            && ParseParameter(s[n..]).Some?
            && var (p, rest) := ParseParameter(s[n..]).value;
               var q := ParseRest(rest, head && n == 0);
               |rest| < |s| && q.Some?
               && ParseRest(s, head).value == Parsed([p] + q.value.params, q.value.initArgs)
  {
    assert s[0..] == s;
  }

  /** The layout of an accepted line: the parser invents and drops nothing. */
  lemma {:induction false} Layable(s: string, head: bool) returns (ps: seq<Piece>, init: Option<Suffix>)
    requires ParseRest(s, head).Some?
    ensures Spelled(ps, init, head) && NoSeparator(ps, init) && LayoutText(ps, init) == s
    ensures ParseRest(s, head).value == Parsed(Params(ps), if init.None? then "" else init.value.args)
    decreases |s|
  {
    var n := Span(s, BlankClass);
    if s == "" {
      ps, init := [], None;
      assert Params(ps) == [];
    } else if n > 0 && InitArgs(s[n..]).Some? {
      AllBlank(s[..n]);
      assert s == Blanks(n) + s[n..];
      var suffix := SplitSuffix(s[n..], n);
      ps, init := [], Some(suffix);
      assert Params(ps) == [];
    } else {
      ParseRestStep(s, head);
      var p := SplitParameter(s[n..], n);
      var rest := ParseParameter(s[n..]).value.1;
      var ps';
      ps', init := Layable(rest, head && n == 0);
      LayoutCons(p, ps', init, s);
      SpelledCons(p, ps', init, head);
      ps := [p] + ps';
    }
  }

  lemma LayoutCons(p: Piece, ps: seq<Piece>, init: Option<Suffix>, s: string)
    requires p.gap <= |s| && All(s[..p.gap], BlankClass) && s[p.gap..] == PieceText(p) + LayoutText(ps, init)
    ensures LayoutText([p] + ps, init) == s && Params([p] + ps) == [p.param] + Params(ps)
  {
    AllBlank(s[..p.gap]);
    assert s == Blanks(p.gap) + s[p.gap..];
    assert ([p] + ps)[1..] == ps;
    ParamsCons([p] + ps);
  }

  lemma LayoutStarts(ps: seq<Piece>, init: Option<Suffix>)
    requires ps != [] && ps[0].gap == 0 && WellFormedPiece(ps[0])
    ensures LayoutText(ps, init) != "" && LayoutText(ps, init)[0] == ps[0].param.key[0]
    ensures In(LayoutText(ps, init)[0], KeyClass)
  {
  }

  lemma SpelledCons(p: Piece, ps: seq<Piece>, init: Option<Suffix>, head: bool)
    requires WellFormedPiece(p) && (p.gap == 0 ==> head)
    requires var rest := LayoutText(ps, init); !p.quoted ==> rest == "" || !In(rest[0], KeyClass)
    requires Spelled(ps, init, head && p.gap == 0) && NoSeparator(ps, init)
    requires p.gap > 0 ==> InitArgs(PieceText(p) + LayoutText(ps, init)).None?
    ensures Spelled([p] + ps, init, head) && NoSeparator([p] + ps, init)
  {
    var all := [p] + ps;
    assert all[1..] == ps;
    if ps != [] && ps[0].gap == 0 && !p.quoted {
      LayoutStarts(ps, init);
      assert false;
    }
    if p.gap > 0 {
      ReadSeparator(all, init, head);
    }
  }

  // ---------------------------------------------------------------------------
  // Acceptance
  // ---------------------------------------------------------------------------

  /** The grammar spells the text this way. */
  ghost predicate IsLayoutOf(ps: seq<Piece>, init: Option<Suffix>, s: string) {
    Spelled(ps, init, true) && LayoutText(ps, init) == s
  }

  ghost function Contents(ps: seq<Piece>, init: Option<Suffix>): KernelCommandLine {
    KernelCommandLine(Regrouped(Params(ps)), if init.None? then "" else init.value.args)
  }

  /**
   A line parses exactly when the grammar lays it out, and to what any of its layouts contains in
   which no bare `--` separates earlier; there is such a layout.
   */
  lemma AcceptedExactly(line: string)
    ensures Parse(line).Some? <==> exists ps, init :: IsLayoutOf(ps, init, Strip(line))
    ensures Parse(line).Some? ==> exists ps, init :: IsLayoutOf(ps, init, Strip(line)) && NoSeparator(ps, init)
    ensures forall ps, init :: IsLayoutOf(ps, init, Strip(line)) && NoSeparator(ps, init) ==>
              Parse(line) == Some(Contents(ps, init))
  {
    if Parse(line).Some? {
      var ps, init := Layable(Strip(line), true);
      assert IsLayoutOf(ps, init, Strip(line)) && NoSeparator(ps, init);
    }
    forall ps, init | IsLayoutOf(ps, init, Strip(line))
      ensures Parse(line).Some? && (NoSeparator(ps, init) ==> Parse(line) == Some(Contents(ps, init)))
    {
      ReadLayout(ps, init, true);
    }
  }

  /** Whitespace around a line makes no difference, and nothing else is cut off. */
  lemma ParseIgnoresEnds(a: string, line: string, b: string)
    requires AllWhitespace(a) && AllWhitespace(b)
    ensures Parse(a + line + b) == Parse(line)
    ensures line == "" || (!IsWhitespace(line[0]) && !IsWhitespace(line[|line| - 1])) ==>
              (Parse(a + line + b).Some? <==> exists ps, init :: IsLayoutOf(ps, init, line))
  {
    StripIgnoresEnds(a, line, b);
    StripStrips(line);
    AcceptedExactly(line);
  }

  // ---------------------------------------------------------------------------
  // The alphabet
  // ---------------------------------------------------------------------------

  const CAPITALS := "ABCDEFGHIJKLMNOPQRSTUVWXYZ"
  const SMALL_LETTERS := "abcdefghijklmnopqrstuvwxyz"
  const DIGITS := "0123456789"

  lemma CapitalsExactly(c: char)
    ensures 'A' <= c <= 'Z' <==> c in CAPITALS
  {
  }

  lemma SmallLettersExactly(c: char)
    ensures 'a' <= c <= 'z' <==> c in SMALL_LETTERS
  {
  }

  lemma DigitsExactly(c: char)
    ensures '0' <= c <= '9' <==> c in DIGITS
  {
  }

  /** Keys are letters, digits, `_`, `-` and `.`; values all printable ASCII but the double quote. */
  lemma AlphabetExactly(c: char)
    ensures In(c, KeyClass) <==> c in CAPITALS || c in SMALL_LETTERS || c in DIGITS || c in "_-."
    ensures In(c, BareClass) <==> ' ' < c <= '~' && c != '"'
    ensures In(c, SpacedClass) <==> ' ' <= c <= '~' && c != '"'
    ensures In(c, BlankClass) <==> c == ' '
  {
    CapitalsExactly(c);
    SmallLettersExactly(c);
    DigitsExactly(c);
  }

  // ---------------------------------------------------------------------------
  // What parsing yields
  // ---------------------------------------------------------------------------

  predicate WellFormedParameter(p: KernelParameter) {
    p.key != "" && All(p.key, KeyClass) && All(p.value, SpacedClass)
  }

  predicate Trimmed(args: string) {
    args == "" || (args[0] != ' ' && args[|args| - 1] != ' ')
  }

  /** The command lines that come out of the parser. */
  predicate Parseable(c: KernelCommandLine) {
    && IsGrouping(c.parameters)
    && (forall p :: p in Flatten(c.parameters) ==> WellFormedParameter(p))
    && All(c.initArgs, SpacedClass) && Trimmed(c.initArgs)
    && (Flatten(c.parameters) == [] ==> c.initArgs == "")
  }

  lemma {:induction false} SpelledPieces(ps: seq<Piece>, init: Option<Suffix>, head: bool)
    requires Spelled(ps, init, head)
    ensures forall i :: 0 <= i < |ps| ==> WellFormedPiece(ps[i])
  {
    if ps == [] {
    } else {
      SpelledPieces(ps[1..], init, head && ps[0].gap == 0);
      assert forall i :: 0 < i < |ps| ==> ps[i] == ps[1..][i - 1];
    }
  }

  lemma {:induction false} LayoutSplits(ps: seq<Piece>, init: Option<Suffix>)
    ensures LayoutText(ps, init) == LayoutText(ps, None) + SuffixText(init)
  {
    if ps == [] {
    } else {
      LayoutSplits(ps[1..], init);
    }
  }

  lemma SuffixEnds(init: Suffix)
    requires init.args != ""
    ensures var t := SuffixText(Some(init)); t != "" && t[|t| - 1] == init.args[|init.args| - 1]
  {
  }

  lemma LastOfConcat(a: string, b: string)
    requires b != ""
    ensures (a + b)[|a + b| - 1] == b[|b| - 1]
  {
  }

  /** Grouping neither loses nor invents a parameter. */
  lemma RegroupedMembers(items: seq<KernelParameter>)
    ensures forall p :: p in Flatten(Regrouped(items)) <==> p in items
    ensures |Flatten(Regrouped(items))| == |items|
  {
    var flat := Flatten(Regrouped(items));
    RegroupedMultiset(items);
    assert forall p :: p in flat <==> p in multiset(flat);
    assert forall p :: p in items <==> p in multiset(items);
    assert |multiset(flat)| == |flat| && |multiset(items)| == |items|;
  }

  lemma ParsedParameters(ps: seq<Piece>, init: Option<Suffix>)
    requires Spelled(ps, init, true)
    ensures var groups := Regrouped(Params(ps));
            && IsGrouping(groups) && (forall p :: p in Flatten(groups) ==> WellFormedParameter(p))
            && (Flatten(groups) == [] ==> ps == [])
  {
    SpelledPieces(ps, init, true);
    RegroupedIsGrouping(Params(ps));
    RegroupedMembers(Params(ps));
    forall p | p in Params(ps) ensures WellFormedParameter(p) {
      var i :| 0 <= i < |ps| && ps[i].param == p;
      assert WellFormedPiece(ps[i]);
    }
  }

  lemma ParsedSuffix(ps: seq<Piece>, init: Option<Suffix>)
    requires Spelled(ps, init, true) && init.Some? && Stripped(LayoutText(ps, init))
    ensures ps != [] && All(init.value.args, SpacedClass) && Trimmed(init.value.args)
  {
    SpelledSuffix(ps, init, true);
    LayoutSplits(ps, init);
    SuffixEnds(init.value);
    LastOfConcat(LayoutText(ps, None), SuffixText(init));
    assert SuffixText(init)[0] == Blanks(init.value.before)[0];
  }

  lemma ParseYields(line: string)
    requires Parse(line).Some?
    ensures Parseable(Parse(line).value)
  {
    StripStrips(line);
    var ps, init := Layable(Strip(line), true);
    ParsedParameters(ps, init);
    if init.Some? {
      ParsedSuffix(ps, init);
    }
  }

  // ---------------------------------------------------------------------------
  // Printing lays out the line in the plainest way
  // ---------------------------------------------------------------------------

  /** One blank between parameters, quotes only around blanks. */
  function Printed(items: seq<KernelParameter>, gap: nat): seq<Piece> {
    if items == [] then [] else [Piece(gap, items[0], ' ' in items[0].value)] + Printed(items[1..], 1)
  }

  function PrintedSuffix(args: string): Option<Suffix> {
    if args == "" then None else Some(Suffix(1, 1, args))
  }

  lemma {:induction false} PrintedAt(items: seq<KernelParameter>, gap: nat, i: nat)
    requires i < |items|
    ensures |Printed(items, gap)| == |items|
    ensures Printed(items, gap)[i] == Piece(if i == 0 then gap else 1, items[i], ' ' in items[i].value)
    ensures Printed(items, gap)[i..] == Printed(items[i..], if i == 0 then gap else 1)
  {
    if i > 0 {
      PrintedAt(items[1..], 1, i - 1);
      assert Printed(items, gap)[i..] == Printed(items[1..], 1)[i - 1..];
      assert items[1..][i - 1..] == items[i..];
    } else {
      PrintedLength(items, gap);
    }
  }

  lemma {:induction false} PrintedLength(items: seq<KernelParameter>, gap: nat)
    ensures |Printed(items, gap)| == |items| && Params(Printed(items, gap)) == items
  {
    if items == [] {
    } else {
      PrintedLength(items[1..], 1);
      ParamsCons(Printed(items, gap));
    }
  }

  lemma {:induction false} PrintedSpelled(items: seq<KernelParameter>, gap: nat, args: string, head: bool)
    requires forall p :: p in items ==> WellFormedParameter(p)
    requires All(args, SpacedClass) && Trimmed(args) && (gap == 0 ==> head)
    ensures Spelled(Printed(items, gap), PrintedSuffix(args), head)
  {
    if items == [] {
    } else {
      assert WellFormedParameter(items[0]);
      assert forall p :: p in items[1..] ==> p in items;
      PrintedSpelled(items[1..], 1, args, head && gap == 0);
    }
  }

  lemma JoinCons(part: string, parts: seq<string>)
    ensures Join(" ", [part] + parts) == if parts == [] then part else part + " " + Join(" ", parts)
  {
    assert ([part] + parts)[1..] == parts;
  }

  lemma {:induction false} JoinConcat(a: seq<string>, b: seq<string>)
    requires a != [] && b != []
    ensures Join(" ", a + b) == Join(" ", a) + " " + Join(" ", b)
  {
    assert a + b == [a[0]] + (a[1..] + b);
    assert a == [a[0]] + a[1..];
    JoinCons(a[0], a[1..] + b);
    JoinCons(a[0], a[1..]);
    if |a| == 1 {
      assert a[1..] + b == b;
    } else {
      JoinConcat(a[1..], b);
    }
  }

  /** The words of the groups, joined twice, are all the words joined once. */
  lemma {:induction false} JoinGroups(groups: seq<Group>)
    requires forall g :: g in groups ==> g.params != []
    ensures Join(" ", GroupTexts(groups)) == Join(" ", ParameterTexts(Flatten(groups)))
  {
    if groups == [] {
    } else {
      var front, last := groups[..|groups| - 1], groups[|groups| - 1];
      JoinGroups(front);
      FlattenNonEmpty(groups);
      var word := Join(" ", ParameterTexts(last.params));
      TextsOfLast(groups);
      if front == [] {
        assert ParameterTexts(Flatten(groups)) == ParameterTexts(last.params);
        assert GroupTexts(groups) == [word];
      } else {
        FlattenNonEmpty(front);
        JoinConcat(GroupTexts(front), [word]);
        JoinConcat(ParameterTexts(Flatten(front)), ParameterTexts(last.params));
      }
    }
  }

  lemma TextsOfLast(groups: seq<Group>)
    requires groups != []
    ensures var front, last := groups[..|groups| - 1], groups[|groups| - 1];
            && GroupTexts(groups) == GroupTexts(front) + [Join(" ", ParameterTexts(last.params))]
            && ParameterTexts(Flatten(groups)) == ParameterTexts(Flatten(front)) + ParameterTexts(last.params)
  {
  }

  lemma FlattenNonEmpty(groups: seq<Group>)
    requires groups != [] && forall g :: g in groups ==> g.params != []
    ensures Flatten(groups) != []
  {
  }

  lemma PrintedHead(items: seq<KernelParameter>, gap: nat)
    requires items != []
    ensures LayoutText(Printed(items, gap), None)
         == Blanks(gap) + ParameterText(items[0]) + LayoutText(Printed(items[1..], 1), None)
  {
    var ps := Printed(items, gap);
    assert ps[1..] == Printed(items[1..], 1);
    assert PieceText(ps[0]) == ParameterText(items[0]);
  }

  lemma ParameterTextsCons(items: seq<KernelParameter>)
    requires items != []
    ensures ParameterTexts(items) == [ParameterText(items[0])] + ParameterTexts(items[1..])
  {
  }

  lemma Reassociated(a: string, b: string, c: string)
    ensures a + b + (" " + c) == a + (b + " " + c)
    ensures a + b + ("" + "") == a + b
  {
  }

  lemma {:induction false} JoinIsLayout(items: seq<KernelParameter>, gap: nat)
    ensures LayoutText(Printed(items, gap), None)
              == (if items == [] then "" else Blanks(gap)) + Join(" ", ParameterTexts(items))
  {
    if items == [] {
    } else {
      var text, joined := ParameterText(items[0]), Join(" ", ParameterTexts(items[1..]));
      assert items[1..] == [] ==> joined == "";
      JoinIsLayout(items[1..], 1);
      PrintedHead(items, gap);
      ParameterTextsCons(items);
      JoinCons(text, ParameterTexts(items[1..]));
      assert Blanks(1) == " ";
      Reassociated(Blanks(gap), text, joined);
    }
  }

  lemma SuffixPrinted(args: string)
    ensures SuffixText(PrintedSuffix(args)) == if |args| > 0 then " -- " + args else ""
  {
    assert Blanks(1) == " ";
  }

  lemma ItemsPrinted(groups: seq<Group>)
    requires IsGrouping(groups)
    ensures Join(" ", GroupTexts(groups)) == LayoutText(Printed(Flatten(groups), 0), None)
  {
    assert forall g :: g in groups ==> g.params != [];
    JoinGroups(groups);
    JoinIsLayout(Flatten(groups), 0);
    assert Blanks(0) == "";
  }

  lemma TextIsLayout(c: KernelCommandLine)
    requires IsGrouping(c.parameters)
    ensures CommandLineText(c) == LayoutText(Printed(Flatten(c.parameters), 0), PrintedSuffix(c.initArgs))
  {
    ItemsPrinted(c.parameters);
    SuffixPrinted(c.initArgs);
    LayoutSplits(Printed(Flatten(c.parameters), 0), PrintedSuffix(c.initArgs));
  }

  // ---------------------------------------------------------------------------
  // The printed line is its own strip
  // ---------------------------------------------------------------------------

  lemma PieceEnds(p: Piece)
    requires WellFormedPiece(p) && (p.param.value != "" && !p.quoted ==> ' ' !in p.param.value)
    ensures var t := PieceText(p); t != "" && !IsWhitespace(t[0]) && !IsWhitespace(t[|t| - 1])
  {
    var key, value := p.param.key, p.param.value;
    assert In(key[0], KeyClass) && In(key[|key| - 1], KeyClass);
    if value != "" {
      LastOfConcat(key + "=", ValueSpelling(value, p.quoted));
      if !p.quoted {
        assert In(value[|value| - 1], BareClass);
      }
    }
  }

  lemma LayoutOfOne(p: Piece)
    ensures LayoutText([p], None) == Blanks(p.gap) + PieceText(p)
  {
    assert [p][1..] == [];
    assert LayoutText([], None) == "";
  }

  lemma {:induction false} PrintedEnds(items: seq<KernelParameter>, gap: nat)
    requires items != [] && forall p :: p in items ==> WellFormedParameter(p)
    ensures var t := LayoutText(Printed(items, gap), None);
            t != "" && !IsWhitespace(t[|t| - 1]) && (gap == 0 ==> !IsWhitespace(t[0]))
  {
    var first := Piece(gap, items[0], ' ' in items[0].value);
    var head, rest := Blanks(gap) + PieceText(first), Printed(items[1..], 1);
    assert WellFormedParameter(items[0]);
    PieceEnds(first);
    LastOfConcat(Blanks(gap), PieceText(first));
    if |items| == 1 {
      assert Printed(items, gap) == [first];
      LayoutOfOne(first);
    } else {
      assert forall p :: p in items[1..] ==> p in items;
      PrintedEnds(items[1..], 1);
      assert Printed(items, gap)[1..] == rest;
      assert LayoutText(Printed(items, gap), None) == head + LayoutText(rest, None);
      LastOfConcat(head, LayoutText(rest, None));
    }
  }

  lemma StrippedConcat(a: string, b: string)
    requires a != "" && Stripped(a) && (b != "" ==> !IsWhitespace(b[|b| - 1]))
    ensures Stripped(a + b)
  {
    if b != "" {
      LastOfConcat(a, b);
    } else {
      assert a + b == a;
    }
  }

  lemma PrintedSuffixEnds(args: string)
    requires All(args, SpacedClass) && Trimmed(args)
    ensures var t := SuffixText(PrintedSuffix(args)); t != "" ==> !IsWhitespace(t[|t| - 1])
  {
    if args != "" {
      SuffixEnds(PrintedSuffix(args).value);
      assert In(args[|args| - 1], SpacedClass);
    }
  }

  lemma PrintedIsStripped(c: KernelCommandLine)
    requires Parseable(c)
    ensures Strip(CommandLineText(c)) == CommandLineText(c)
  {
    var items := Flatten(c.parameters);
    TextIsLayout(c);
    if items != [] {
      PrintedEnds(items, 0);
      PrintedSuffixEnds(c.initArgs);
      LayoutSplits(Printed(items, 0), PrintedSuffix(c.initArgs));
      StrippedConcat(LayoutText(Printed(items, 0), None), SuffixText(PrintedSuffix(c.initArgs)));
    }
    StripStrips(CommandLineText(c));
  }

  // ---------------------------------------------------------------------------
  // The round trip
  // ---------------------------------------------------------------------------

  /**
   The printed line hides a separator: a bare `--` that is neither first nor last, with no
   value that needs quotes after it.
   */
  predicate Ambiguous(c: KernelCommandLine) {
    var items := Flatten(c.parameters);
    exists i :: 0 < i < |items| && items[i] == KernelParameter("--", "")
      && (i + 1 < |items| || c.initArgs != "")
      && forall j :: i < j < |items| ==> ' ' !in items[j].value
  }

  lemma {:induction false} QuotesShow(ps: seq<Piece>, init: Option<Suffix>, head: bool)
    requires Spelled(ps, init, head)
    ensures All(LayoutText(ps, init), SpacedClass) <==> forall j :: 0 <= j < |ps| ==> !ps[j].quoted
  {
    if ps == [] {
    } else {
      var rest := LayoutText(ps[1..], init);
      QuotesShow(ps[1..], init, head && ps[0].gap == 0);
      QuoteShows(ps[0]);
      AllConcat(Blanks(ps[0].gap), PieceText(ps[0]));
      AllConcat(Blanks(ps[0].gap) + PieceText(ps[0]), rest);
      assert forall j :: 0 < j < |ps| ==> ps[j] == ps[1..][j - 1];
      assert forall j :: 0 <= j < |ps[1..]| ==> ps[1..][j] == ps[j + 1];
    }
  }

  lemma AllConcat(a: string, b: string)
    ensures All(a + b, SpacedClass) <==> All(a, SpacedClass) && All(b, SpacedClass)
  {
    assert forall i :: 0 <= i < |a| ==> (a + b)[i] == a[i];
    assert forall i :: 0 <= i < |b| ==> (a + b)[|a| + i] == b[i];
  }

  lemma QuoteShows(p: Piece)
    requires WellFormedPiece(p)
    ensures All(PieceText(p), SpacedClass) <==> !p.quoted
  {
    var key, value := p.param.key, p.param.value;
    if p.quoted {
      assert PieceText(p)[|key| + 1] == '"';
    } else if value != "" {
      AllConcat(key + "=", value);
      AllConcat(key, "=");
    }
  }

  lemma {:induction false} NoSeparatorAnywhere(ps: seq<Piece>, init: Option<Suffix>)
    ensures NoSeparator(ps, init) <==> forall i :: 0 <= i < |ps| ==> !Separates(ps[i..], init)
  {
    if ps == [] {
    } else {
      NoSeparatorAnywhere(ps[1..], init);
      assert ps[0..] == ps;
      assert forall i :: 0 < i < |ps| ==> ps[i..] == ps[1..][i - 1..];
      assert forall i :: 0 <= i < |ps[1..]| ==> ps[1..][i..] == ps[i + 1..];
    }
  }

  /** What is printed after a bare `--` shows quotes just if some value needs them. */
  lemma PrintedShows(items: seq<KernelParameter>, args: string)
    requires forall p :: p in items ==> WellFormedParameter(p)
    requires All(args, SpacedClass) && Trimmed(args)
    ensures var rest := LayoutText(Printed(items, 1), PrintedSuffix(args));
            && (All(rest, SpacedClass) <==> forall j :: 0 <= j < |items| ==> ' ' !in items[j].value)
            && EndsWord(rest) && (rest == "" <==> items == [] && args == "")
  {
    var ps, init := Printed(items, 1), PrintedSuffix(args);
    PrintedSpelled(items, 1, args, false);
    QuotesShow(ps, init, false);
    PrintedLength(items, 1);
    forall j | 0 <= j < |items| ensures ps[j].quoted <==> ' ' in items[j].value {
      PrintedAt(items, 1, j);
    }
    LayoutEndsWord(ps, init);
  }

  lemma SeparatesAt(items: seq<KernelParameter>, args: string, i: nat)
    requires forall p :: p in items ==> WellFormedParameter(p)
    requires All(args, SpacedClass) && Trimmed(args) && i < |items|
    ensures |Printed(items, 0)| == |items|
    ensures Separates(Printed(items, 0)[i..], PrintedSuffix(args)) <==>
              && i > 0 && items[i] == KernelParameter("--", "")
              && (i + 1 < |items| || args != "")
              && forall j :: i < j < |items| ==> ' ' !in items[j].value
  {
    PrintedAt(items, 0, i);
    var ps, after := Printed(items, 0)[i..], items[i + 1..];
    assert items[i..][1..] == after;
    assert ps[1..] == Printed(after, 1);
    assert forall p :: p in after ==> p in items;
    PrintedShows(after, args);
    assert forall j :: i < j < |items| ==> items[j] == after[j - i - 1];
    assert forall j :: 0 <= j < |after| ==> after[j] == items[i + 1 + j];
  }

  lemma SeparatorIsAmbiguity(c: KernelCommandLine)
    requires Parseable(c)
    ensures NoSeparator(Printed(Flatten(c.parameters), 0), PrintedSuffix(c.initArgs)) <==> !Ambiguous(c)
  {
    var items := Flatten(c.parameters);
    var ps := Printed(items, 0);
    PrintedLength(items, 0);
    NoSeparatorAnywhere(ps, PrintedSuffix(c.initArgs));
    forall i | 0 <= i < |items|
      ensures Separates(ps[i..], PrintedSuffix(c.initArgs)) <==>
                && i > 0 && items[i] == KernelParameter("--", "")
                && (i + 1 < |items| || c.initArgs != "")
                && forall j :: i < j < |items| ==> ' ' !in items[j].value
    {
      SeparatesAt(items, c.initArgs, i);
    }
  }

  lemma FewerParametersDiffer(items: seq<KernelParameter>, groups: seq<Group>)
    requires |items| < |Flatten(groups)|
    ensures Regrouped(items) != groups
  {
    RegroupedMembers(items);
  }

  /** Printing what a line parsed to and parsing that gives the same back exactly when nothing in it is ambiguous. */
  lemma RoundTripExactly(line: string)
    requires Parse(line).Some?
    ensures Parse(CommandLineText(Parse(line).value)).Some?
    ensures Parse(CommandLineText(Parse(line).value)) == Parse(line) <==> !Ambiguous(Parse(line).value)
  {
    var c := Parse(line).value;
    ParseYields(line);
    var items := Flatten(c.parameters);
    var ps, init := Printed(items, 0), PrintedSuffix(c.initArgs);
    TextIsLayout(c);
    PrintedIsStripped(c);
    PrintedSpelled(items, 0, c.initArgs, true);
    PrintedLength(items, 0);
    ReadLayout(ps, init, true);
    SeparatorIsAmbiguity(c);
    RegroupFlatten(c.parameters);
    if Ambiguous(c) {
      FewerParametersDiffer(ParseRest(CommandLineText(c), true).value.params, c.parameters);
    }
  }

  const FAILING_LINE := "a -- b=\"x\""
  const FIRST_PIECE := Piece(0, KernelParameter("a", ""), false)
  const DASHES_PIECE := Piece(1, KernelParameter("--", ""), false)
  const QUOTED_PIECE := Piece(1, KernelParameter("b", "x"), true)

  lemma FailingLayout()
    ensures LayoutText([QUOTED_PIECE], None) == " b=\"x\""
    ensures LayoutText([DASHES_PIECE, QUOTED_PIECE], None) == " -- b=\"x\""
    ensures LayoutText([FIRST_PIECE, DASHES_PIECE, QUOTED_PIECE], None) == FAILING_LINE
  {
    var two, three := [DASHES_PIECE, QUOTED_PIECE], [FIRST_PIECE, DASHES_PIECE, QUOTED_PIECE];
    assert Blanks(0) == "" && Blanks(1) == " ";
    LayoutOfOne(QUOTED_PIECE);
    assert two[1..] == [QUOTED_PIECE] && three[1..] == two;
  }

  lemma FailingSpelled()
    ensures var ps := [FIRST_PIECE, DASHES_PIECE, QUOTED_PIECE];
            Spelled(ps, None, true) && NoSeparator(ps, None)
  {
    var one, two := [QUOTED_PIECE], [DASHES_PIECE, QUOTED_PIECE];
    var three := [FIRST_PIECE, DASHES_PIECE, QUOTED_PIECE];
    assert one[1..] == [] && two[1..] == one && three[1..] == two;
    FailingLayout();
    assert LayoutText(one, None)[3] == '"';
    assert Spelled([], None, false) && NoSeparator([], None);
    assert Spelled(one, None, false) && NoSeparator(one, None);
    assert Spelled(two, None, true) && NoSeparator(two, None);
  }

  lemma FlattenThree(a: Group, b: Group, c: Group)
    ensures Flatten([a, b, c]) == a.params + b.params + c.params
  {
    assert [a, b, c] == [a, b] + [c] && [a, b] == [a] + [b] && [a] == [] + [a];
    FlattenLast([], a);
    FlattenLast([a], b);
    FlattenLast([a, b], c);
  }

  /** Parameters with keys of their own are groups of their own. */
  lemma ThreeGroups(a: KernelParameter, b: KernelParameter, c: KernelParameter)
    requires a.key != b.key && a.key != c.key && b.key != c.key
    ensures Flatten(Regrouped([a, b, c])) == [a, b, c]
  {
    var groups := [Group(a.key, [a]), Group(b.key, [b]), Group(c.key, [c])];
    assert GroupKeys(groups) == [a.key, b.key, c.key];
    FlattenThree(groups[0], groups[1], groups[2]);
    RegroupFlatten(groups);
    assert [a] + [b] + [c] == [a, b, c];
  }

  /** A stripped line laid out in some way. */
  lemma ParseLayout(line: string, ps: seq<Piece>, init: Option<Suffix>)
    requires Stripped(line) && Spelled(ps, init, true) && NoSeparator(ps, init) && LayoutText(ps, init) == line
    ensures Parse(line) == Some(Contents(ps, init))
  {
    StripStrips(line);
    ReadLayout(ps, init, true);
  }

  lemma InitLayout()
    ensures LayoutText([FIRST_PIECE], Some(Suffix(1, 1, "b=x"))) == "a -- b=x"
    ensures Spelled([FIRST_PIECE], Some(Suffix(1, 1, "b=x")), true)
    ensures NoSeparator([FIRST_PIECE], Some(Suffix(1, 1, "b=x")))
  {
    var ps, init := [FIRST_PIECE], Some(Suffix(1, 1, "b=x"));
    assert ps[1..] == [] && Blanks(0) == "" && Blanks(1) == " ";
    assert LayoutText([], init) == " " + "--" + " " + "b=x" == " -- b=x";
    assert Spelled([], init, true) && NoSeparator([], init);
  }

  lemma OneGroup(a: KernelParameter)
    ensures Regrouped([a]) == [Group(a.key, [a])]
  {
    assert [a] == [] + [a];
    assert Regrouped([]) == [];
    RegroupedNew([], a);
  }

  /** The same words without quotes: one parameter and init arguments. */
  lemma InitParse()
    ensures Parse("a -- b=x")
         == Some(KernelCommandLine([Group("a", [KernelParameter("a", "")])], "b=x"))
  {
    InitLayout();
    ParseLayout("a -- b=x", [FIRST_PIECE], Some(Suffix(1, 1, "b=x")));
    assert Params([FIRST_PIECE]) == [FIRST_PIECE.param];
    OneGroup(FIRST_PIECE.param);
  }

  lemma FailingParse()
    ensures Parse(FAILING_LINE)
         == Some(KernelCommandLine(Regrouped([FIRST_PIECE.param, DASHES_PIECE.param, QUOTED_PIECE.param]), ""))
  {
    var ps := [FIRST_PIECE, DASHES_PIECE, QUOTED_PIECE];
    FailingLayout();
    FailingSpelled();
    assert Params(ps) == [FIRST_PIECE.param, DASHES_PIECE.param, QUOTED_PIECE.param];
    ParseLayout(FAILING_LINE, ps, None);
  }

  lemma FailingTexts()
    ensures ParameterText(FIRST_PIECE.param) == "a" && ParameterText(DASHES_PIECE.param) == "--"
    ensures ParameterText(QUOTED_PIECE.param) == "b=x"
  {
    assert "b" + "=" + "x" == "b=x";
  }

  lemma TextsThree(a: KernelParameter, b: KernelParameter, c: KernelParameter)
    ensures Join(" ", ParameterTexts([a, b, c])) == ParameterText(a) + " " + ParameterText(b) + " " + ParameterText(c)
  {
    assert ParameterTexts([a, b, c]) == [ParameterText(a), ParameterText(b), ParameterText(c)];
    JoinThree(ParameterText(a), ParameterText(b), ParameterText(c));
  }

  lemma PrintThree(a: KernelParameter, b: KernelParameter, c: KernelParameter)
    requires a.key != b.key && a.key != c.key && b.key != c.key
    ensures CommandLineText(KernelCommandLine(Regrouped([a, b, c]), ""))
         == ParameterText(a) + " " + ParameterText(b) + " " + ParameterText(c)
  {
    var groups := Regrouped([a, b, c]);
    RegroupedIsGrouping([a, b, c]);
    ThreeGroups(a, b, c);
    JoinGroups(groups);
    TextsThree(a, b, c);
  }

  lemma FailingPrint()
    ensures CommandLineText(KernelCommandLine(
              Regrouped([FIRST_PIECE.param, DASHES_PIECE.param, QUOTED_PIECE.param]), "")) == "a -- b=x"
  {
    PrintThree(FIRST_PIECE.param, DASHES_PIECE.param, QUOTED_PIECE.param);
    FailingTexts();
    assert "a" + " " + "--" + " " + "b=x" == "a -- b=x";
  }

  lemma JoinThree(a: string, b: string, c: string)
    ensures Join(" ", [a, b, c]) == a + " " + b + " " + c
  {
    assert [a, b, c] == [a] + [b, c] && [b, c] == [b] + [c] && [c] == [c] + [];
    JoinCons(a, [b, c]);
    JoinCons(b, [c]);
    JoinCons(c, []);
    assert a + " " + (b + " " + c) == a + " " + b + " " + c;
  }

  /** A line that does not survive: printed without its quotes, what follows the `--` reads as init arguments. */
  lemma RoundTripFails()
    ensures Parse(FAILING_LINE).Some? && Ambiguous(Parse(FAILING_LINE).value)
    ensures CommandLineText(Parse(FAILING_LINE).value) == "a -- b=x"
    ensures Parse("a -- b=x") == Some(KernelCommandLine([Group("a", [KernelParameter("a", "")])], "b=x"))
    ensures Parse(CommandLineText(Parse(FAILING_LINE).value)) != Parse(FAILING_LINE)
  {
    InitParse();
    FailingParse();
    FailingPrint();
    ThreeGroups(FIRST_PIECE.param, DASHES_PIECE.param, QUOTED_PIECE.param);
    var items := Flatten(Parse(FAILING_LINE).value.parameters);
    assert items[1] == KernelParameter("--", "") && ' ' !in items[2].value;
    RoundTripExactly(FAILING_LINE);
  }

  /** The law as promised: without a parameter keyed `--` one print is canonical. */
  lemma RoundTrip(line: string)
    requires Parse(line).Some? && "--" !in GroupKeys(Parse(line).value.parameters)
    ensures Parse(CommandLineText(Parse(line).value)) == Parse(line)
  {
    var c := Parse(line).value;
    ParseYields(line);
    forall i | 0 <= i < |Flatten(c.parameters)| ensures Flatten(c.parameters)[i].key != "--" {
      FlattenMembers(c.parameters, Flatten(c.parameters)[i]);
    }
    RoundTripExactly(line);
  }

  // ---------------------------------------------------------------------------
  // Sanitizing
  // ---------------------------------------------------------------------------

  function Sanitize(line: string): string {
    if line == "" then ""
    else (if line[0] in {'\n', '\r', '\0'} then "" else [line[0]]) + Sanitize(line[1..])
  }

  /** Just the line breaks and null characters go, and the rest stays in its order. */
  lemma {:induction false} SanitizeExactly(a: string, c: char, b: string)
    ensures Sanitize(a + [c] + b) ==
              Sanitize(a) + (if c == '\n' || c == '\r' || c == '\0' then "" else [c]) + Sanitize(b)
    ensures Sanitize("") == ""
  {
    if a == "" {
      assert a + [c] + b == [c] + b && ([c] + b)[1..] == b;
    } else {
      assert (a + [c] + b)[1..] == a[1..] + [c] + b;
      SanitizeExactly(a[1..], c, b);
    }
  }

  lemma {:induction false} SanitizeKeeps(s: string)
    requires forall i :: 0 <= i < |s| ==> s[i] !in {'\n', '\r', '\0'}
    ensures Sanitize(s) == s
  {
    if s == "" {
    } else {
      SanitizeKeeps(s[1..]);
    }
  }

  lemma {:induction false} LayoutIsPrintable(ps: seq<Piece>, init: Option<Suffix>, head: bool)
    requires Spelled(ps, init, head)
    ensures forall c :: c in LayoutText(ps, init) ==> ' ' <= c <= '~'
  {
    if ps != [] {
      LayoutIsPrintable(ps[1..], init, head && ps[0].gap == 0);
      assert forall c :: c in ps[0].param.key ==> ' ' <= c <= '~';
      assert forall c :: c in ps[0].param.value ==> ' ' <= c <= '~';
      assert forall c :: c in Blanks(ps[0].gap) ==> c == ' ';
    } else if init.Some? {
      assert forall c :: c in Blanks(init.value.before) ==> c == ' ';
      assert forall c :: c in Blanks(init.value.after) ==> c == ' ';
      assert forall c :: c in init.value.args ==> ' ' <= c <= '~';
    }
  }

  /** Parsing is at least as strict as sanitizing: an accepted line, once stripped, has nothing left to sanitize. */
  lemma AcceptedIsSane(line: string)
    requires Parse(line).Some?
    ensures Sanitize(Strip(line)) == Strip(line)
  {
    var ps, init := Layable(Strip(line), true);
    LayoutIsPrintable(ps, init, true);
    forall i | 0 <= i < |Strip(line)| ensures Strip(line)[i] !in {'\n', '\r', '\0'} {
      assert Strip(line)[i] in Strip(line);
    }
    SanitizeKeeps(Strip(line));
  }
}
