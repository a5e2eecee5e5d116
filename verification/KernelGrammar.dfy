/**
 The grammar of `ironic/common/kernel_parameters.py` as a deterministic parser, and as the
 set of lines that can be laid out by it.

 Terminals match as long as they can.  Of a ` -- ` the first one followed by arguments
 starts the init part, and the blanks after it are skipped.
 */
module KernelGrammar {
  import opened Wrappers
  import opened Strings
  import opened KernelParameters

  // ---------------------------------------------------------------------------
  // Characters
  // ---------------------------------------------------------------------------

  datatype CharClass = KeyClass | BareClass | SpacedClass | BlankClass

  predicate IsBare(c: char) {
    c == '!' || '#' <= c <= '~'
  }

  predicate In(c: char, cls: CharClass) {
    match cls
    case KeyClass => 'A' <= c <= 'Z' || 'a' <= c <= 'z' || '0' <= c <= '9' || c == '_' || c == '-' || c == '.'
    case BareClass => IsBare(c)
    case SpacedClass => IsBare(c) || c == ' '
    case BlankClass => c == ' '
  }

  predicate All(s: string, cls: CharClass) {
    forall i :: 0 <= i < |s| ==> In(s[i], cls)
  }

  /** How far a terminal reaches. */
  function Span(s: string, cls: CharClass): (n: nat)
    ensures n <= |s| && All(s[..n], cls)
    ensures n < |s| ==> !In(s[n], cls)
  {
    if s != "" && In(s[0], cls) then 1 + Span(s[1..], cls) else 0
  }

  function Blanks(n: nat): (s: string)
    ensures |s| == n && All(s, BlankClass)
  {
    seq(n, i => ' ')
  }

  // ---------------------------------------------------------------------------
  // The parser
  // ---------------------------------------------------------------------------

  datatype Parsed = Parsed(params: seq<KernelParameter>, initArgs: string)

  /** `value`: what it stands for, and what is left. */
  function ParseValue(s: string): (r: Option<(string, string)>)
    ensures r.Some? ==> |r.value.1| < |s|
  {
    if s != "" && s[0] == '"' then
      var n := Span(s[1..], SpacedClass);
      if n > 0 && 1 + n < |s| && s[1 + n] == '"' then Some((s[1..1 + n], s[2 + n..])) else None
    else
      var n := Span(s, BareClass);
      if n > 0 then Some((s[..n], s[n..])) else None
  }

  /** `parameter` */
  function ParseParameter(s: string): (r: Option<(KernelParameter, string)>)
    ensures r.Some? ==> |r.value.1| < |s|
  {
    var n := Span(s, KeyClass);
    if n == 0 then None
    else if n < |s| && s[n] == '=' then
      match ParseValue(s[n + 1..])
      case None => None
      case Some((value, rest)) => Some((KernelParameter(s[..n], value), rest))
    else Some((KernelParameter(s[..n], ""), s[n..]))
  }

  /** `"--" " "+ init_arguments` up to the end of the line. */
  function InitArgs(s: string): Option<string> {
    if |s| > 2 && s[..2] == "--" && s[2] == ' ' then
      var args := s[2 + Span(s[2..], BlankClass)..];
      if args != "" && All(args, SpacedClass) then Some(args) else None
    else None
  }

  /** `parameter*(" "+ parameter)* [init_suffix]`; in the head, parameters may touch. */
  function ParseRest(s: string, head: bool): Option<Parsed>
    decreases |s|, 1
  {
    if s == "" then Some(Parsed([], ""))
    else
      var n := Span(s, BlankClass);
      if n == 0 then if head then ParseMore(s, true) else None
      else
        match InitArgs(s[n..])
        case Some(args) => Some(Parsed([], args))
        case None => ParseMore(s[n..], false)
  }

  function ParseMore(s: string, head: bool): Option<Parsed>
    decreases |s|, 0
  {
    match ParseParameter(s)
    case None => None
    case Some((p, rest)) =>
      match ParseRest(rest, head)
      case None => None
      case Some(q) => Some(Parsed([p] + q.params, q.initArgs))
  }

  /** `KernelCommandLine.parse`; `None` stands for `InvalidParameterValue`. */
  function Parse(line: string): Option<KernelCommandLine> {
    match ParseRest(Strip(line), true)
    case None => None
    case Some(q) => Some(KernelCommandLine(Regrouped(q.params), q.initArgs))
  }

  // ---------------------------------------------------------------------------
  // Layouts: how a line may be written
  // ---------------------------------------------------------------------------

  /** A parameter as written, `gap` blanks after the one before. */
  datatype Piece = Piece(gap: nat, param: KernelParameter, quoted: bool)

  /** ` -- args`, with `before` and `after` blanks around the dashes. */
  datatype Suffix = Suffix(before: nat, after: nat, args: string)

  function ValueSpelling(value: string, quoted: bool): string {
    if quoted then "\"" + value + "\"" else value
  }

  function PieceText(p: Piece): string {
    if p.param.value == "" then p.param.key
    else p.param.key + "=" + ValueSpelling(p.param.value, p.quoted)
  }

  function SuffixText(init: Option<Suffix>): string {
    if init.None? then "" else Blanks(init.value.before) + "--" + Blanks(init.value.after) + init.value.args
  }

  function LayoutText(ps: seq<Piece>, init: Option<Suffix>): string {
    if ps == [] then SuffixText(init)
    else Blanks(ps[0].gap) + PieceText(ps[0]) + LayoutText(ps[1..], init)
  }

  function Params(ps: seq<Piece>): seq<KernelParameter> {
    seq(|ps|, i requires 0 <= i < |ps| => ps[i].param)
  }

  predicate WellFormedPiece(p: Piece) {
    && p.param.key != "" && All(p.param.key, KeyClass)
    && (p.param.value == "" ==> !p.quoted)
    && All(p.param.value, if p.quoted then SpacedClass else BareClass)
  }

  predicate WellFormedSuffix(init: Option<Suffix>) {
    init.Some? ==>
      && init.value.before > 0 && init.value.after > 0
      && init.value.args != "" && init.value.args[0] != ' ' && All(init.value.args, SpacedClass)
  }

  /** Written by the grammar: gaps between parameters, except after a quote in the head. */
  predicate Spelled(ps: seq<Piece>, init: Option<Suffix>, head: bool) {
    if ps == [] then WellFormedSuffix(init)
    else
      && WellFormedPiece(ps[0]) && (ps[0].gap == 0 ==> head)
      && (|ps| > 1 && ps[1].gap == 0 ==> ps[0].quoted)
      && Spelled(ps[1..], init, head && ps[0].gap == 0)
  }

  /** The first piece is a bare `--` that reads as the start of the init part. */
  predicate Separates(ps: seq<Piece>, init: Option<Suffix>)
    requires ps != []
  {
    && ps[0].gap > 0 && ps[0].param == KernelParameter("--", "")
    && var rest := LayoutText(ps[1..], init);
       rest != "" && rest[0] == ' ' && All(rest, SpacedClass)
  }

  predicate NoSeparator(ps: seq<Piece>, init: Option<Suffix>) {
    ps != [] ==> !Separates(ps, init) && NoSeparator(ps[1..], init)
  }

  // ---------------------------------------------------------------------------
  // Every layout is read back as written
  // ---------------------------------------------------------------------------

  lemma {:induction false} SpanConcat(a: string, b: string, cls: CharClass)
    requires All(a, cls) && (b == "" || !In(b[0], cls))
    ensures Span(a + b, cls) == |a|
  {
    if a == "" {
      assert a + b == b;
    } else {
      assert (a + b)[1..] == a[1..] + b;
      SpanConcat(a[1..], b, cls);
    }
  }

  /** What may follow an unquoted word. */
  predicate EndsWord(rest: string) {
    rest == "" || rest[0] == ' '
  }

  lemma ReadBareKey(key: string, rest: string)
    requires key != "" && All(key, KeyClass) && EndsWord(rest)
    ensures ParseParameter(key + rest) == Some((KernelParameter(key, ""), rest))
  {
    SpanConcat(key, rest, KeyClass);
    assert (key + rest)[..|key|] == key && (key + rest)[|key|..] == rest;
  }

  lemma ReadKeyValue(key: string, tail: string)
    requires key != "" && All(key, KeyClass) && ParseValue(tail).Some?
    ensures ParseParameter(key + ("=" + tail))
              == Some((KernelParameter(key, ParseValue(tail).value.0), ParseValue(tail).value.1))
  {
    var s := key + ("=" + tail);
    SpanConcat(key, "=" + tail, KeyClass);
    assert s[..|key|] == key && s[|key| + 1..] == tail;
  }

  lemma ReadPiece(p: Piece, rest: string)
    requires WellFormedPiece(p) && (!p.quoted ==> EndsWord(rest))
    ensures ParseParameter(PieceText(p) + rest) == Some((p.param, rest))
  {
    var key, value := p.param.key, p.param.value;
    if value == "" {
      ReadBareKey(key, rest);
    } else {
      var tail := ValueSpelling(value, p.quoted) + rest;
      assert PieceText(p) + rest == key + ("=" + tail);
      ReadValue(value, p.quoted, rest);
      ReadKeyValue(key, tail);
    }
  }

  lemma ReadValue(value: string, quoted: bool, rest: string)
    requires value != "" && All(value, if quoted then SpacedClass else BareClass)
    requires !quoted ==> EndsWord(rest)
    ensures ParseValue(ValueSpelling(value, quoted) + rest) == Some((value, rest))
  {
    if quoted {
      var s := "\"" + value + "\"" + rest;
      assert s[1..] == value + ("\"" + rest);
      SpanConcat(value, "\"" + rest, SpacedClass);
      assert s[1..1 + |value|] == value && s[2 + |value|..] == rest;
    } else {
      SpanConcat(value, rest, BareClass);
      assert (value + rest)[..|value|] == value && (value + rest)[|value|..] == rest;
    }
  }

  lemma LayoutEndsWord(ps: seq<Piece>, init: Option<Suffix>)
    requires WellFormedSuffix(init) && (ps != [] ==> ps[0].gap > 0)
    ensures EndsWord(LayoutText(ps, init))
  {
    if ps != [] {
      assert LayoutText(ps, init)[0] == Blanks(ps[0].gap)[0];
    } else if init.Some? {
      assert LayoutText(ps, init)[0] == Blanks(init.value.before)[0];
    }
  }

  lemma {:induction false} SpelledSuffix(ps: seq<Piece>, init: Option<Suffix>, head: bool)
    requires Spelled(ps, init, head)
    ensures WellFormedSuffix(init)
  {
    if ps == [] {
    } else {
      SpelledSuffix(ps[1..], init, head && ps[0].gap == 0);
    }
  }

  /** After a gap comes the init part if it can, and else a parameter. */
  lemma AfterGap(gap: nat, word: string, head: bool)
    requires word != "" && word[0] != ' '
    ensures ParseRest(Blanks(gap) + word, head) ==
              if gap == 0 then if head then ParseMore(word, true) else None
              else if InitArgs(word).Some? then Some(Parsed([], InitArgs(word).value))
              else ParseMore(word, false)
  {
    SpanConcat(Blanks(gap), word, BlankClass);
    assert (Blanks(gap) + word)[gap..] == word;
  }

  lemma ReadDashes(after: nat, args: string)
    requires after > 0 && args != "" && args[0] != ' ' && All(args, SpacedClass)
    ensures InitArgs("--" + Blanks(after) + args) == Some(args)
  {
    var s := "--" + Blanks(after) + args;
    assert s[2..] == Blanks(after) + args;
    SpanConcat(Blanks(after), args, BlankClass);
    assert s[2 + after..] == args;
    assert s[2] == Blanks(after)[0];
    assert s[..2] == "--";
  }

  lemma ReadSuffix(init: Suffix, head: bool)
    requires WellFormedSuffix(Some(init))
    ensures ParseRest(SuffixText(Some(init)), head) == Some(Parsed([], init.args))
  {
    var dashes := "--" + Blanks(init.after) + init.args;
    assert SuffixText(Some(init)) == Blanks(init.before) + dashes;
    ReadDashes(init.after, init.args);
    assert dashes[0] == '-';
    AfterGap(init.before, dashes, head);
  }

  lemma WordStarts(p: Piece, rest: string)
    requires WellFormedPiece(p)
    ensures var word := PieceText(p) + rest; word != "" && word[0] == p.param.key[0] && word[0] != ' '
  {
  }

  lemma AfterBlanks(gap: nat, word: string)
    requires word != ""
    ensures |Blanks(gap) + word| > gap && (Blanks(gap) + word)[gap] == word[0]
  {
  }

  /** Some nonblank is left of whatever was laid out. */
  lemma NotAllBlank(ps: seq<Piece>, init: Option<Suffix>, head: bool)
    requires Spelled(ps, init, head) && LayoutText(ps, init) != ""
    ensures exists i :: 0 <= i < |LayoutText(ps, init)| && LayoutText(ps, init)[i] != ' '
  {
    if ps == [] {
      var dashes := "--" + Blanks(init.value.after) + init.value.args;
      assert LayoutText(ps, init) == Blanks(init.value.before) + dashes;
      AfterBlanks(init.value.before, dashes);
    } else {
      var word := PieceText(ps[0]) + LayoutText(ps[1..], init);
      WordStarts(ps[0], LayoutText(ps[1..], init));
      assert LayoutText(ps, init) == Blanks(ps[0].gap) + word;
      AfterBlanks(ps[0].gap, word);
    }
  }

  /** Text that reads as an init part is two dashes, a blank and nothing but admissible characters. */
  lemma InitArgsShape(s: string)
    ensures InitArgs(s).Some? <==>
              && |s| > 2 && s[..2] == "--" && s[2] == ' ' && All(s[2..], SpacedClass)
              && exists i :: 2 <= i < |s| && s[i] != ' '
  {
    if |s| > 2 {
      var rest := s[2..];
      var n := Span(rest, BlankClass);
      assert s[2 + n..] == rest[n..];
      forall i | 0 <= i < n ensures rest[i] == ' ' {
        assert rest[i] == rest[..n][i];
      }
      forall i | n <= i < |rest| ensures rest[i] == rest[n..][i - n] {
      }
      if n == |rest| {
        forall i | 2 <= i < |s| ensures s[i] == ' ' {
          assert s[i] == rest[i - 2];
        }
      } else {
        assert s[2 + n] == rest[n];
      }
    }
  }

  lemma PieceChars(p: Piece, rest: string)
    ensures var s := PieceText(p) + rest;
            var n := |p.param.key|;
            && n <= |s| && s[..n] == p.param.key
            && (p.param.value == "" ==> s[n..] == rest)
            && (p.param.value != "" ==> n < |s| && s[n] == '=')
  {
  }

  lemma PieceStart(p: Piece, rest: string)
    requires WellFormedPiece(p)
    requires p.param.value == "" ==> EndsWord(rest)
    requires var s := PieceText(p) + rest; |s| > 2 && s[..2] == "--" && s[2] == ' '
    ensures p.param == KernelParameter("--", "")
  {
    var s := PieceText(p) + rest;
    var n := |p.param.key|;
    PieceChars(p, rest);
    assert forall i :: 0 <= i < n ==> p.param.key[i] == s[..n][i] == s[i];
    assert s[0] == s[..2][0] && s[1] == s[..2][1];
    assert n <= 2;
    assert p.param.value == "" && rest != "" ==> s[n] == rest[0];
    assert p.param.key == s[..n];
  }

  /** A piece after a gap is taken for the init part exactly when it separates. */
  lemma ReadSeparator(ps: seq<Piece>, init: Option<Suffix>, head: bool)
    requires ps != [] && Spelled(ps, init, head) && ps[0].gap > 0
    ensures InitArgs(PieceText(ps[0]) + LayoutText(ps[1..], init)).Some? <==> Separates(ps, init)
  {
    var rest := LayoutText(ps[1..], init);
    var s := PieceText(ps[0]) + rest;
    InitArgsShape(s);
    if !ps[0].quoted {
      SpelledSuffix(ps, init, head);
      LayoutEndsWord(ps[1..], init);
    }
    if Separates(ps, init) {
      assert s == "--" + rest;
      assert s[2..] == rest;
      NotAllBlank(ps[1..], init, head && ps[0].gap == 0);
      var i :| 0 <= i < |rest| && rest[i] != ' ';
      assert s[i + 2] == rest[i];
    }
    if InitArgs(s).Some? {
      PieceStart(ps[0], rest);
      assert s == "--" + rest;
      assert s[2..] == rest;
    }
  }

  lemma ParamsCons(ps: seq<Piece>)
    requires ps != []
    ensures Params(ps) == [ps[0].param] + Params(ps[1..])
  {
  }

  /** Read back as written, or cut short at the first bare `--` that separates. */
  lemma {:induction false} ReadLayout(ps: seq<Piece>, init: Option<Suffix>, head: bool)
    requires Spelled(ps, init, head)
    ensures NoSeparator(ps, init) ==>
              ParseRest(LayoutText(ps, init), head)
                == Some(Parsed(Params(ps), if init.None? then "" else init.value.args))
    ensures !NoSeparator(ps, init) ==>
              var r := ParseRest(LayoutText(ps, init), head); r.Some? && |r.value.params| < |ps|
  {
    if ps == [] {
      assert Params(ps) == [];
      if init.Some? {
        ReadSuffix(init.value, head);
      }
    } else {
      ReadFirst(ps, init, head);
      if !Separates(ps, init) {
        ReadLayout(ps[1..], init, head && ps[0].gap == 0);
        ParamsCons(ps);
      }
    }
  }

  /** The first piece is read, and then the rest of the layout; unless it separates. */
  lemma ReadFirst(ps: seq<Piece>, init: Option<Suffix>, head: bool)
    requires ps != [] && Spelled(ps, init, head)
    ensures var r := ParseRest(LayoutText(ps, init), head);
            var q := ParseRest(LayoutText(ps[1..], init), head && ps[0].gap == 0);
            if Separates(ps, init) then r.Some? && r.value.params == []
            else r == if q.None? then None else Some(Parsed([ps[0].param] + q.value.params, q.value.initArgs))
  {
    var rest := LayoutText(ps[1..], init);
    var word := PieceText(ps[0]) + rest;
    assert LayoutText(ps, init) == Blanks(ps[0].gap) + word;
    WordStarts(ps[0], rest);
    AfterGap(ps[0].gap, word, head);
    if ps[0].gap > 0 {
      ReadSeparator(ps, init, head);
    }
    if !ps[0].quoted {
      SpelledSuffix(ps, init, head);
      LayoutEndsWord(ps[1..], init);
    }
    ReadPiece(ps[0], rest);
  }
}
