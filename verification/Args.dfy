/** The argument validators of `ironic/common/args.py`: their combinators and `string_list`. */
module Args {
  import opened Wrappers
  import opened Strings

  datatype Value = Null | Str(s: string) | List(items: seq<Value>) | Other(id: nat)

  /** Everything but `Raised` is an `exception.Invalid`. */
  datatype Error =
    | InvalidParameterValue
    | UnexpectedArguments(names: set<string>)
    | MissingParameterValue(name: string)
    | Raised(id: nat)

  type Validator = Value -> Result<Value, Error>

  /** An error that is an `exception.Invalid`. */
  predicate IsInvalid(r: Result<Value, Error>) {
    r.Err? && !r.error.Raised?
  }

  // ---------------------------------------------------------------------------
  // Combinators
  // ---------------------------------------------------------------------------

  /** `_or`: the first validator that does not say invalid decides, failing that the last one. */
  method Or(validators: seq<Validator>, value: Value) returns (r: Result<Value, Error>)
    ensures validators == [] ==> r == Ok(Null)
    ensures validators != [] ==>
              exists k :: 0 <= k < |validators| && r == validators[k](value)
                && (forall j :: 0 <= j < k ==> validators[j](value).Err? && !validators[j](value).error.Raised?)
                && (r.Ok? || r.error.Raised? || k == |validators| - 1)
  {
    var lastError: Option<Error> := None;
    for n := 0 to |validators|
      invariant forall j :: 0 <= j < n ==> IsInvalid(validators[j](value))
      invariant if n == 0 then lastError.None? else lastError.Some? && validators[n - 1](value) == Err(lastError.value)
    {
      var outcome := validators[n](value);
      if !IsInvalid(outcome) {
        return outcome;
      }
      lastError := Some(outcome.error);
    }
    if lastError.Some? {
      return Err(lastError.value);
    }
    return Ok(Null);
  }

  /** The value is handed through the first validators. */
  predicate HandedThrough(validators: seq<Validator>, value: Value, steps: seq<Value>) {
    && 0 < |steps| <= |validators| + 1 && steps[0] == value
    && forall i :: 0 <= i < |steps| - 1 ==> validators[i](steps[i]) == Ok(steps[i + 1])
  }

  /** `_and`: every validator works on what the one before it made of the value. */
  method And(validators: seq<Validator>, value: Value) returns (r: Result<Value, Error>)
    ensures exists steps :: HandedThrough(validators, value, steps)
              && if r.Ok? then |steps| == |validators| + 1 && steps[|validators|] == r.value
                 else |steps| <= |validators| && validators[|steps| - 1](steps[|steps| - 1]) == r
  {
    var current := value;
    ghost var steps := [value];
    for n := 0 to |validators|
      invariant HandedThrough(validators, value, steps) && |steps| == n + 1 && steps[n] == current
    {
      var outcome := validators[n](current);
      if outcome.Err? {
        return outcome;
      }
      current := outcome.value;
      steps := steps + [current];
    }
    return Ok(current);
  }

  // ---------------------------------------------------------------------------
  // Lists in strings
  // ---------------------------------------------------------------------------

  /** What is assumed of `str.lower`. */
  ghost predicate CaseFolding(lower: string -> string) {
    forall s ::
      && lower(lower(s)) == lower(s)
      && (lower(s) == "" <==> s == "")
      && (Stripped(s) ==> Stripped(lower(s)))
      && (',' in lower(s) ==> ',' in s)
  }

  function AsciiLower(s: string): string {
    seq(|s|, i requires 0 <= i < |s| => if 'A' <= s[i] <= 'Z' then s[i] - 'A' + 'a' else s[i])
  }

  /** Such an operation is the one that replaces the ASCII capitals. */
  lemma AsciiLowerFolds()
    ensures CaseFolding(AsciiLower)
  {
    forall s
      ensures AsciiLower(AsciiLower(s)) == AsciiLower(s)
      ensures ',' in AsciiLower(s) ==> ',' in s
    {
      if ',' in AsciiLower(s) {
        var i :| 0 <= i < |s| && AsciiLower(s)[i] == ',';
        assert s[i] == ',';
      }
    }
  }

  lemma AsciiLowerExactly(s: string)
    ensures AsciiLower("AMZ amz_09") == "amz amz_09"
    ensures (forall c :: c in s ==> !('A' <= c <= 'Z')) <==> AsciiLower(s) == s
  {
    if forall c :: c in s ==> !('A' <= c <= 'Z') {
      assert forall i :: 0 <= i < |s| ==> s[i] in s;
    }
    if c :| c in s && 'A' <= c <= 'Z' {
      var i :| 0 <= i < |s| && s[i] == c;
      assert AsciiLower(s)[i] != s[i];
    }
  }

  function Norm(lower: string -> string, token: string): string {
    lower(Strip(token))
  }

  /** The normalized tokens that are not blank. */
  function NormTokens(lower: string -> string, tokens: seq<string>): (r: seq<string>)
    ensures forall x :: x in r <==> x != "" && exists t :: t in tokens && Norm(lower, t) == x
  {
    if tokens == [] then []
    else
      var t := tokens[|tokens| - 1];
      assert tokens == tokens[..|tokens| - 1] + [t];
      NormTokens(lower, tokens[..|tokens| - 1]) + if Norm(lower, t) == "" then [] else [Norm(lower, t)]
  }

  function ItemsOf(lower: string -> string, tokens: seq<string>): seq<string> {
    Distinct(NormTokens(lower, tokens))
  }

  function Strs(items: seq<string>): Value {
    List(seq(|items|, i requires 0 <= i < |items| => Str(items[i])))
  }

  /** `string`. */
  function CheckString(value: Value): Result<Value, Error> {
    if value.Str? || value.Null? then Ok(value) else Err(InvalidParameterValue)
  }

  lemma ItemsStep(lower: string -> string, tokens: seq<string>, n: nat)
    requires n < |tokens|
    ensures var items, norm := ItemsOf(lower, tokens[..n]), Norm(lower, tokens[n]);
            ItemsOf(lower, tokens[..n + 1]) == if norm == "" || norm in items then items else items + [norm]
  {
    assert tokens[..n + 1][..n] == tokens[..n];
    var before := NormTokens(lower, tokens[..n]);
    assert before + [] == before;
    DistinctStep(before, Norm(lower, tokens[n]));
  }

  method StringItems(lower: string -> string, s: string) returns (items: seq<string>)
    ensures items == ItemsOf(lower, Split(s))
  {
    var tokens := Split(s);
    items := [];
    for n := 0 to |tokens|
      invariant items == ItemsOf(lower, tokens[..n])
    {
      ItemsStep(lower, tokens, n);
      var norm := Norm(lower, tokens[n]);
      if norm != "" && norm !in items {
        items := items + [norm];
      }
    }
    assert tokens[..|tokens|] == tokens;
  }

  /** `string_list`; a list of strings is taken as it is. */
  method StringList(lower: string -> string, value: Value) returns (r: Result<Value, Error>)
    ensures value.Null? ==> r == Ok(Null)
    ensures value.Str? ==>
              var items := ItemsOf(lower, Split(value.s));
              && r.Ok? && r.value.List? && |r.value.items| == |items|
              && forall i :: 0 <= i < |items| ==> r.value.items[i] == Str(items[i])
    ensures value.Other? ==> r == Err(InvalidParameterValue)
    ensures value.List? ==>
              r == if forall i :: 0 <= i < |value.items| ==> value.items[i].Str? || value.items[i].Null?
                   then Ok(value) else Err(InvalidParameterValue)
  {
    if value.Null? {
      return Ok(Null);
    }
    if value.List? {
      var checked: seq<Value> := [];
      for n := 0 to |value.items|
        invariant checked == value.items[..n]
        invariant forall i :: 0 <= i < n ==> CheckString(value.items[i]).Ok?
      {
        var outcome := CheckString(value.items[n]);
        if outcome.Err? {
          return outcome;
        }
        checked := checked + [outcome.value];
      }
      assert checked == value.items;
      return Ok(List(checked));
    }
    var text := CheckString(value);
    if text.Err? {
      return text;
    }
    var items := StringItems(lower, text.value.s);
    return Ok(Strs(items));
  }

  /** Items are distinct and in normal form. */
  lemma ItemsAreNormal(lower: string -> string, s: string, i: nat)
    requires CaseFolding(lower) && i < |ItemsOf(lower, Split(s))|
    ensures var x := ItemsOf(lower, Split(s))[i];
            && x != "" && Stripped(x) && lower(x) == x && ',' !in x
            && forall j :: 0 <= j < i ==> ItemsOf(lower, Split(s))[j] != x
  {
    var x := ItemsOf(lower, Split(s))[i];
    assert x in ItemsOf(lower, Split(s));
    var t :| t in Split(s) && Norm(lower, t) == x;
    StripStrips(t);
    JoinSplit(s);
  }

  /** Of `token`, `t` is what lies between the whitespace at its ends. */
  ghost predicate Core(token: string, t: string) {
    && (exists a, b :: token == a + t + b && AllWhitespace(a) && AllWhitespace(b))
    && (t == "" || (!IsWhitespace(t[0]) && !IsWhitespace(t[|t| - 1])))
  }

  /** No token is lost but those of whitespace only, and nothing is made up. */
  lemma ItemsCover(lower: string -> string, tokens: seq<string>, x: string)
    requires CaseFolding(lower)
    ensures x in ItemsOf(lower, tokens) <==>
              exists k, t :: 0 <= k < |tokens| && Core(tokens[k], t) && t != "" && lower(t) == x
  {
    if x in ItemsOf(lower, tokens) {
      var token :| token in tokens && Norm(lower, token) == x;
      var k :| 0 <= k < |tokens| && tokens[k] == token;
      StripExactly(token, Strip(token));
      assert Core(tokens[k], Strip(token));
    }
    if k, t :| 0 <= k < |tokens| && Core(tokens[k], t) && t != "" && lower(t) == x {
      StripExactly(tokens[k], t);
      assert tokens[k] in tokens && Norm(lower, tokens[k]) == x;
    }
  }

  predicate FirstToken(lower: string -> string, tokens: seq<string>, k: nat, x: string) {
    k < |tokens| && lower(Strip(tokens[k])) == x && forall l :: 0 <= l < k ==> lower(Strip(tokens[l])) != x
  }

  lemma {:induction false} NormTokensPrefix(lower: string -> string, tokens: seq<string>, k: nat)
    requires k <= |tokens|
    ensures NormTokens(lower, tokens[..k]) <= NormTokens(lower, tokens)
    ensures k < |tokens| && Norm(lower, tokens[k]) != "" ==>
              NormTokens(lower, tokens[..k]) + [Norm(lower, tokens[k])] <= NormTokens(lower, tokens)
  {
    if k < |tokens| {
      assert tokens[..|tokens| - 1][..k] == tokens[..k];
      NormTokensPrefix(lower, tokens[..|tokens| - 1], k);
    } else {
      assert tokens[..k] == tokens;
    }
  }

  lemma FirstTokenIsFirst(lower: string -> string, tokens: seq<string>, k: nat, x: string)
    requires x != "" && FirstToken(lower, tokens, k, x)
    ensures FirstAt(NormTokens(lower, tokens), |NormTokens(lower, tokens[..k])|, x)
  {
    NormTokensPrefix(lower, tokens, k);
    assert NormTokens(lower, tokens)[..|NormTokens(lower, tokens[..k])|] == NormTokens(lower, tokens[..k]);
  }

  /** Items come in the order in which their first tokens do. */
  lemma ItemsInOrder(lower: string -> string, tokens: seq<string>, a: nat, b: nat, i: nat, j: nat)
    requires a < b < |ItemsOf(lower, tokens)|
    requires FirstToken(lower, tokens, i, ItemsOf(lower, tokens)[a])
    requires FirstToken(lower, tokens, j, ItemsOf(lower, tokens)[b])
    ensures i < j
  {
    var x, y := ItemsOf(lower, tokens)[a], ItemsOf(lower, tokens)[b];
    assert x in NormTokens(lower, tokens) && y in NormTokens(lower, tokens);
    FirstTokenIsFirst(lower, tokens, i, x);
    FirstTokenIsFirst(lower, tokens, j, y);
    DistinctInOrder(NormTokens(lower, tokens), a, b,
                    |NormTokens(lower, tokens[..i])|, |NormTokens(lower, tokens[..j])|);
    if j <= i {
      assert tokens[..i][..j] == tokens[..j];
      NormTokensPrefix(lower, tokens[..i], j);
    }
  }

  lemma {:induction false} NormalTokens(lower: string -> string, items: seq<string>)
    requires forall i :: 0 <= i < |items| ==> items[i] != "" && Norm(lower, items[i]) == items[i]
    ensures NormTokens(lower, items) == items
  {
    if items == [] {
    } else {
      NormalTokens(lower, items[..|items| - 1]);
      assert items == items[..|items| - 1] + [items[|items| - 1]];
    }
  }

  /** Joined with commas and read again, the items are the same. */
  lemma ItemsRoundTrip(lower: string -> string, s: string)
    requires CaseFolding(lower)
    ensures ItemsOf(lower, Split(Join(",", ItemsOf(lower, Split(s))))) == ItemsOf(lower, Split(s))
  {
    var items := ItemsOf(lower, Split(s));
    forall i | 0 <= i < |items|
      ensures items[i] != "" && Norm(lower, items[i]) == items[i] && ',' !in items[i]
    {
      ItemsAreNormal(lower, s, i);
      StripStrips(items[i]);
    }
    if items == [] {
      assert Split("") == [""] && Strip("") == "" && Norm(lower, "") == lower("");
      assert NormTokens(lower, [""]) == NormTokens(lower, []) + [];
    } else {
      SplitJoin(items);
      NormalTokens(lower, items);
      DistinctAlready(items);
    }
  }
}
