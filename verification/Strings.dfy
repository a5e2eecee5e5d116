/** The string operations of Python that several files of the source rely on. */
module Strings {

  // ---------------------------------------------------------------------------
  // Stripping
  // ---------------------------------------------------------------------------

  /** What `str.strip` removes. */
  predicate IsWhitespace(c: char) {
    || '\t' <= c <= '\r' || '\U{001C}' <= c <= ' ' || c == '\U{0085}' || c == '\U{00A0}'
    || c == '\U{1680}' || '\U{2000}' <= c <= '\U{200A}' || c == '\U{2028}' || c == '\U{2029}'
    || c == '\U{202F}' || c == '\U{205F}' || c == '\U{3000}'
  }

  function StripLeft(s: string): string {
    if s != "" && IsWhitespace(s[0]) then StripLeft(s[1..]) else s
  }

  function StripRight(s: string): string {
    if s != "" && IsWhitespace(s[|s| - 1]) then StripRight(s[..|s| - 1]) else s
  }

  function Strip(s: string): string {
    StripRight(StripLeft(s))
  }

  predicate Stripped(s: string) {
    s == "" || (!IsWhitespace(s[0]) && !IsWhitespace(s[|s| - 1]))
  }

  predicate AllWhitespace(s: string) {
    forall i :: 0 <= i < |s| ==> IsWhitespace(s[i])
  }

  /** The code points that are whitespace, one by one. */
  lemma WhitespaceExactly(c: char)
    ensures IsWhitespace(c) <==>
              c in "\t\n\U{000B}\U{000C}\r\U{001C}\U{001D}\U{001E}\U{001F} \U{0085}\U{00A0}\U{1680}"
                   + "\U{2000}\U{2001}\U{2002}\U{2003}\U{2004}\U{2005}\U{2006}\U{2007}\U{2008}\U{2009}\U{200A}"
                   + "\U{2028}\U{2029}\U{202F}\U{205F}\U{3000}"
  {
  }

  lemma ConcatAssociates(a: string, b: string, c: string)
    ensures a + (b + c) == a + b + c
  {
  }

  lemma OneMoreBefore(c: char, a: string, b: string)
    ensures [c] + (a + b) == ([c] + a) + b
  {
  }

  lemma {:induction false} StripLeftCuts(s: string) returns (a: string)
    ensures s == a + StripLeft(s) && AllWhitespace(a)
    ensures StripLeft(s) == "" || !IsWhitespace(StripLeft(s)[0])
  {
    if s == "" || !IsWhitespace(s[0]) {
      a := "";
    } else {
      var rest := StripLeftCuts(s[1..]);
      a := [s[0]] + rest;
      OneMoreBefore(s[0], rest, StripLeft(s));
      assert s == [s[0]] + s[1..] && StripLeft(s) == StripLeft(s[1..]);
    }
  }

  lemma {:induction false} StripRightCuts(s: string) returns (b: string)
    ensures s == StripRight(s) + b && AllWhitespace(b)
    ensures StripRight(s) == "" || (!IsWhitespace(StripRight(s)[|StripRight(s)| - 1]) && StripRight(s)[0] == s[0])
  {
    if s == "" || !IsWhitespace(s[|s| - 1]) {
      b := "";
    } else {
      var rest := StripRightCuts(s[..|s| - 1]);
      b := rest + [s[|s| - 1]];
      assert s == s[..|s| - 1] + [s[|s| - 1]];
    }
  }

  /** Only whitespace at the two ends is cut off. */
  lemma StripCuts(s: string) returns (a: string, b: string)
    ensures s == a + Strip(s) + b && AllWhitespace(a) && AllWhitespace(b)
    ensures Strip(s) == "" || (!IsWhitespace(Strip(s)[0]) && !IsWhitespace(Strip(s)[|Strip(s)| - 1]))
  {
    a := StripLeftCuts(s);
    b := StripRightCuts(StripLeft(s));
    ConcatAssociates(a, Strip(s), b);
  }

  lemma {:induction false} StripLeftPasses(a: string, s: string)
    requires AllWhitespace(a)
    ensures StripLeft(a + s) == StripLeft(s)
  {
    if a == "" {
      assert a + s == s;
    } else {
      assert (a + s)[1..] == a[1..] + s;
      StripLeftPasses(a[1..], s);
    }
  }

  lemma {:induction false} StripRightPasses(s: string, b: string)
    requires AllWhitespace(b)
    ensures StripRight(s + b) == StripRight(s)
  {
    if b == "" {
      assert s + b == s;
    } else {
      assert (s + b)[..|s + b| - 1] == s + b[..|b| - 1];
      StripRightPasses(s, b[..|b| - 1]);
    }
  }

  /** Whatever is left of whitespace at the ends is what stripping gives. */
  lemma StripsTo(a: string, t: string, b: string)
    requires AllWhitespace(a) && AllWhitespace(b)
    requires t == "" || (!IsWhitespace(t[0]) && !IsWhitespace(t[|t| - 1]))
    ensures Strip(a + t + b) == t
  {
    assert a + t + b == a + (t + b);
    StripLeftPasses(a, t + b);
    if t == "" {
      assert t + b == b + "" && b + "" == b;
      StripLeftPasses(b, "");
    } else {
      assert StripLeft(t + b) == t + b;
      StripRightPasses(t, b);
    }
  }

  /** `str.strip`: the one way to write `s` as whitespace, a text without whitespace at its ends, and whitespace. */
  lemma StripExactly(s: string, t: string)
    ensures Strip(s) == t <==>
              && (exists a, b :: s == a + t + b && AllWhitespace(a) && AllWhitespace(b))
              && (t == "" || (!IsWhitespace(t[0]) && !IsWhitespace(t[|t| - 1])))
    ensures Strip(s) == "" <==> AllWhitespace(s)
  {
    var a, b := StripCuts(s);
    if t == "" || (!IsWhitespace(t[0]) && !IsWhitespace(t[|t| - 1])) {
      forall a', b' | s == a' + t + b' && AllWhitespace(a') && AllWhitespace(b') ensures Strip(s) == t {
        StripsTo(a', t, b');
      }
    }
    if AllWhitespace(s) {
      assert s == s + "" + "";
      StripsTo(s, "", "");
    }
  }

  /** Whitespace around a text makes no difference. */
  lemma StripIgnoresEnds(a: string, s: string, b: string)
    requires AllWhitespace(a) && AllWhitespace(b)
    ensures Strip(a + s + b) == Strip(s)
  {
    var a', b' := StripCuts(s);
    assert a + (a' + Strip(s) + b') + b == (a + a') + Strip(s) + (b' + b);
    StripsTo(a + a', Strip(s), b' + b);
  }

  lemma StripStrips(s: string)
    ensures Stripped(Strip(s))
    ensures Stripped(s) ==> Strip(s) == s
    ensures forall c :: c in Strip(s) ==> c in s
  {
    var a, b := StripCuts(s);
    if Stripped(s) {
      assert s == "" + s + "";
      StripsTo("", s, "");
    }
  }

  // ---------------------------------------------------------------------------
  // Joining and splitting
  // ---------------------------------------------------------------------------

  function Join(separator: string, parts: seq<string>): string {
    if parts == [] then "" else if |parts| == 1 then parts[0]
    else parts[0] + separator + Join(separator, parts[1..])
  }

  /** `str.split` at every comma: one more part than there are commas. */
  function Split(s: string): (parts: seq<string>)
    ensures parts != []
  {
    if s == "" then [""]
    else
      var parts := Split(s[1..]);
      if s[0] == ',' then [""] + parts else [[s[0]] + parts[0]] + parts[1..]
  }

  lemma {:induction false} SplitPart(part: string, rest: string)
    requires ',' !in part
    ensures Split(part) == [part]
    ensures Split(part + "," + rest) == [part] + Split(rest)
  {
    if part == "" {
      assert (part + "," + rest)[1..] == rest;
    } else {
      SplitPart(part[1..], rest);
      assert (part + "," + rest)[1..] == part[1..] + "," + rest;
      assert part == [part[0]] + part[1..];
    }
  }

  lemma {:induction false} SplitJoin(parts: seq<string>)
    requires parts != [] && forall i :: 0 <= i < |parts| ==> ',' !in parts[i]
    ensures Split(Join(",", parts)) == parts
  {
    if |parts| == 1 {
      SplitPart(parts[0], "");
    } else {
      SplitPart(parts[0], Join(",", parts[1..]));
      SplitJoin(parts[1..]);
    }
  }

  lemma {:induction false} JoinSplit(s: string)
    ensures Join(",", Split(s)) == s
    ensures forall i :: 0 <= i < |Split(s)| ==> ',' !in Split(s)[i]
  {
    if s == "" {
    } else {
      JoinSplit(s[1..]);
      var parts := Split(s[1..]);
      assert s == [s[0]] + s[1..];
      if s[0] != ',' {
        assert Split(s)[1..] == parts[1..];
      } else {
        assert Split(s)[1..] == parts;
      }
    }
  }

  // ---------------------------------------------------------------------------
  // Repetitions
  // ---------------------------------------------------------------------------

  predicate AllDistinct(names: seq<string>) {
    forall i, j :: 0 <= i < j < |names| ==> names[i] != names[j]
  }

  /** The names without repetition, in the order they first come up. */
  function Distinct(names: seq<string>): (r: seq<string>)
    ensures AllDistinct(r)
    ensures forall n :: n in r <==> n in names
  {
    if names == [] then []
    else
      assert names == names[..|names| - 1] + [names[|names| - 1]];
      var front := Distinct(names[..|names| - 1]);
      if names[|names| - 1] in front then front else front + [names[|names| - 1]]
  }

  lemma DistinctStep(names: seq<string>, name: string)
    ensures Distinct(names + [name]) == if name in Distinct(names) then Distinct(names) else Distinct(names) + [name]
  {
    assert (names + [name])[..|names|] == names;
  }

  predicate FirstAt(names: seq<string>, i: nat, name: string) {
    i < |names| && names[i] == name && name !in names[..i]
  }

  /** What comes earlier in the result came up earlier. */
  lemma {:induction false} DistinctInOrder(names: seq<string>, a: nat, b: nat, i: nat, j: nat)
    requires a < b < |Distinct(names)|
    requires FirstAt(names, i, Distinct(names)[a]) && FirstAt(names, j, Distinct(names)[b])
    ensures i < j
  {
    var last := |names| - 1;
    var front := Distinct(names[..last]);
    assert forall k :: 0 <= k < last ==> names[k] in names[..last];
    if b < |front| {
      assert front[b] in names[..last] && front[a] in names[..last];
      if i == last || j == last {
        assert false;
      }
      assert names[..last][..i] == names[..i] && names[..last][..j] == names[..j];
      DistinctInOrder(names[..last], a, b, i, j);
    } else {
      assert front[a] in names[..last];
      assert names[..last][..i] == names[..i];
    }
  }

  lemma {:induction false} DistinctAlready(names: seq<string>)
    requires AllDistinct(names)
    ensures Distinct(names) == names
  {
    if names == [] {
    } else {
      DistinctAlready(names[..|names| - 1]);
      assert names == names[..|names| - 1] + [names[|names| - 1]];
    }
  }
}
