/**
 The `validate` decorator of `ironic/common/args.py`, and Python's binding of a call to the
 parameters of a function, which says what the decorated function sees.
 */
module ArgsValidate {
  import opened Wrappers
  import opened Args

  type Kwargs = map<string, Value>

  datatype Param = Param(name: string, hasDefault: bool)

  /** A `*args` or `**kwargs` parameter: there is none, it has no validator, or it has one. */
  datatype Extra<!T> = Refused | Kept | Checked(validator: T -> Result<T, Error>)

  datatype Decorated = Decorated(
    params: seq<Param>,
    validators: map<string, Validator>,
    args: Extra<seq<Value>>,
    kwargs: Extra<Kwargs>)
  {
    /** Python refuses a function with two parameters of one name. */
    predicate Valid() {
      forall i, j :: 0 <= i < j < |params| ==> params[i].name != params[j].name
    }

    predicate Validates(i: nat) {
      i < |params| && !(i == 0 && params[i].name == "self") && params[i].name in validators
    }

    predicate HasParam(name: string) {
      exists i :: 0 <= i < |params| && params[i].name == name
    }

    /** The validator of parameter `i` on a value. */
    function Check(i: nat, value: Value): Result<Value, Error>
      requires Validates(i)
    {
      validators[params[i].name](value)
    }
  }

  datatype Call = Call(args: seq<Value>, kwargs: Kwargs)

  // ---------------------------------------------------------------------------
  // Binding
  // ---------------------------------------------------------------------------

  /** The local variables of the function; `None` is a parameter left to its default. */
  datatype Frame = Frame(locals: seq<Option<Value>>, extra: seq<Value>, extraKw: Kwargs)

  function LocalOf(d: Decorated, call: Call, i: nat): Option<Value>
    requires i < |d.params|
  {
    if i < |call.args| then Some(call.args[i])
    else if d.params[i].name in call.kwargs then Some(call.kwargs[d.params[i].name])
    else None
  }

  predicate Binds(d: Decorated, call: Call) {
    && (|call.args| > |d.params| ==> !d.args.Refused?)
    && (forall i :: 0 <= i < |d.params| && i < |call.args| ==> d.params[i].name !in call.kwargs)
    && (forall i :: 0 <= i < |d.params| && LocalOf(d, call, i).None? ==> d.params[i].hasDefault)
    && (d.kwargs.Refused? ==> forall k :: k in call.kwargs ==> d.HasParam(k))
  }

  function ExtraArgs(d: Decorated, call: Call): seq<Value> {
    if |call.args| > |d.params| then call.args[|d.params|..] else []
  }

  function ExtraKwargs(d: Decorated, call: Call): Kwargs {
    map k | k in call.kwargs && !d.HasParam(k) :: call.kwargs[k]
  }

  /** What the undecorated function sees of a call, unless the call is a `TypeError`. */
  function Bind(d: Decorated, call: Call): Option<Frame> {
    if Binds(d, call) then
      var locals := seq(|d.params|, i requires 0 <= i < |d.params| => LocalOf(d, call, i));
      Some(Frame(locals, ExtraArgs(d, call), ExtraKwargs(d, call)))
    else None
  }

  // ---------------------------------------------------------------------------
  // The wrapper
  // ---------------------------------------------------------------------------

  function Converted(r: Result<Value, Error>, value: Value): Value {
    if r.Ok? then r.value else value
  }

  /** The positional arguments with those of the first `n` parameters validated. */
  function Positional(d: Decorated, args: seq<Value>, n: nat): seq<Value> {
    seq(|args|, i requires 0 <= i < |args| =>
      if i < n && d.Validates(i) then Converted(d.Check(i, args[i]), args[i]) else args[i])
  }

  /** One past the last validated parameter among the first `n`. */
  function Reach(d: Decorated, n: nat): (r: nat)
    ensures r <= n
    ensures r > 0 ==> d.Validates(r - 1)
    ensures forall i :: r <= i < n ==> !d.Validates(i)
  {
    if n == 0 then 0 else if d.Validates(n - 1) then n else Reach(d, n - 1)
  }

  predicate TakenBy(d: Decorated, call: Call, k: string, i: nat) {
    |call.args| <= i && d.Validates(i) && d.params[i].name == k
  }

  /** The keyword is validated as one of the first `n` parameters. */
  predicate Taken(d: Decorated, call: Call, k: string, n: nat) {
    exists i :: 0 <= i < n && TakenBy(d, call, k, i)
  }

  /** The keyword arguments validated, and those left over, once `n` parameters are done. */
  function TakenKwargs(d: Decorated, call: Call, n: nat): Kwargs {
    map k | k in call.kwargs && Taken(d, call, k, n) :: Converted(d.validators[k](call.kwargs[k]), call.kwargs[k])
  }

  function LeftKwargs(d: Decorated, call: Call, n: nat): Kwargs {
    map k | k in call.kwargs && !Taken(d, call, k, n) :: call.kwargs[k]
  }

  function ErrorOf(r: Result<Value, Error>): Option<Error> {
    if r.Ok? then None else Some(r.error)
  }

  /** What is wrong with parameter `i`. */
  function Complaint(d: Decorated, call: Call, i: nat): Option<Error>
    requires i < |d.params|
  {
    if !d.Validates(i) then None
    else
      match LocalOf(d, call, i)
      case Some(value) => ErrorOf(d.Check(i, value))
      case None => if d.params[i].hasDefault then None else Some(MissingParameterValue(d.params[i].name))
  }

  function FirstComplaint(d: Decorated, call: Call, i: nat): (r: Option<Error>)
    requires i <= |d.params|
    ensures r.None? <==> forall j :: i <= j < |d.params| ==> Complaint(d, call, j).None?
    ensures r.Some? ==> exists j :: i <= j < |d.params| && Complaint(d, call, j) == r
                          && forall k :: i <= k < j ==> Complaint(d, call, k).None?
    decreases |d.params| - i
  {
    if i == |d.params| then None
    else if Complaint(d, call, i).Some? then Complaint(d, call, i)
    else FirstComplaint(d, call, i + 1)
  }

  function Unexpected(d: Decorated, call: Call): set<string> {
    if d.kwargs.Refused? then set k | k in call.kwargs && !d.HasParam(k) else {}
  }

  function Covered(d: Decorated, args: seq<Value>): nat {
    Min(|args|, |d.params|)
  }

  /** The positional arguments with the rest handed to the `*args` validator. */
  function WithRest(d: Decorated, args: seq<Value>): Result<seq<Value>, Error> {
    var next := Reach(d, Covered(d, args));
    if d.args.Checked? && args[next..] != [] then
      match d.args.validator(args[next..])
      case Ok(more) => Ok(args[..next] + more)
      case Err(e) => Err(e)
    else Ok(args)
  }

  function WithLeft(d: Decorated, taken: Kwargs, left: Kwargs): Result<Kwargs, Error> {
    if d.kwargs.Checked? && left != map[] then
      match d.kwargs.validator(left)
      case Ok(more) => Ok(taken + more)
      case Err(e) => Err(e)
    else Ok(taken + left)
  }

  /** The call the wrapper makes, or the error it raises. */
  function Outcome(d: Decorated, call: Call): Result<Call, Error> {
    if Unexpected(d, call) != {} then Err(UnexpectedArguments(Unexpected(d, call)))
    else if FirstComplaint(d, call, 0).Some? then Err(FirstComplaint(d, call, 0).value)
    else
      match WithRest(d, Positional(d, call.args, |d.params|))
      case Err(e) => Err(e)
      case Ok(args) =>
        match WithLeft(d, TakenKwargs(d, call, |d.params|), LeftKwargs(d, call, |d.params|))
        case Err(e) => Err(e)
        case Ok(kwargs) => Ok(Call(args, kwargs))
  }

  lemma TakenStep(d: Decorated, call: Call, n: nat, k: string)
    ensures Taken(d, call, k, n + 1) <==> Taken(d, call, k, n) || TakenBy(d, call, k, n)
  {
    if i :| 0 <= i < n && TakenBy(d, call, k, i) {
      assert 0 <= i < n + 1;
    }
  }

  lemma NotYetTaken(d: Decorated, call: Call, n: nat)
    requires d.Valid() && n < |d.params|
    ensures !Taken(d, call, d.params[n].name, n)
  {
  }

  lemma KeywordsGrow(d: Decorated, call: Call, n: nat)
    requires d.Valid() && n < |d.params| && |call.args| <= n && d.Validates(n)
    requires d.params[n].name in call.kwargs
    ensures var k := d.params[n].name;
            && k in LeftKwargs(d, call, n) && LeftKwargs(d, call, n)[k] == call.kwargs[k]
            && LeftKwargs(d, call, n + 1) == LeftKwargs(d, call, n) - {k}
            && TakenKwargs(d, call, n + 1)
            == TakenKwargs(d, call, n)[k := Converted(d.Check(n, call.kwargs[k]), call.kwargs[k])]
  {
    NotYetTaken(d, call, n);
    forall k ensures Taken(d, call, k, n + 1) <==> Taken(d, call, k, n) || TakenBy(d, call, k, n) {
      TakenStep(d, call, n, k);
    }
  }

  lemma KeywordsStay(d: Decorated, call: Call, n: nat)
    requires d.Valid() && n < |d.params|
    requires |call.args| <= n && d.Validates(n) ==> d.params[n].name !in call.kwargs
    ensures LeftKwargs(d, call, n + 1) == LeftKwargs(d, call, n)
    ensures TakenKwargs(d, call, n + 1) == TakenKwargs(d, call, n)
    ensures d.params[n].name in call.kwargs ==> d.params[n].name in LeftKwargs(d, call, n)
  {
    NotYetTaken(d, call, n);
    forall k ensures Taken(d, call, k, n + 1) <==> Taken(d, call, k, n) || TakenBy(d, call, k, n) {
      TakenStep(d, call, n, k);
    }
  }

  /** The variables of the wrapper after `n` parameters without an error. */
  datatype Locals = Locals(args: seq<Value>, nextArgIndex: nat, kwargs: Kwargs, kwargsNext: Kwargs)

  function LocalsAfter(d: Decorated, call: Call, n: nat): Locals {
    Locals(Positional(d, call.args, n), Reach(d, Min(n, |call.args|)),
           LeftKwargs(d, call, n), TakenKwargs(d, call, n))
  }

  lemma LocalsAtFirst(d: Decorated, call: Call)
    ensures LocalsAfter(d, call, 0) == Locals(call.args, 0, call.kwargs, map[])
  {
  }

  /** A parameter that gets no value, or is not validated, leaves everything alone. */
  lemma SkipStep(d: Decorated, call: Call, n: nat)
    requires d.Valid() && n < |d.params| && (d.Validates(n) ==> LocalOf(d, call, n).None?)
    ensures LocalsAfter(d, call, n + 1) == LocalsAfter(d, call, n)
    ensures |call.args| <= n ==>
              (d.params[n].name in LeftKwargs(d, call, n) <==> d.params[n].name in call.kwargs)
  {
    KeywordsStay(d, call, n);
  }

  lemma PositionalStep(d: Decorated, call: Call, n: nat)
    requires d.Valid() && n < |d.params| && d.Validates(n) && n < |call.args| && d.Check(n, call.args[n]).Ok?
    ensures var before, after := LocalsAfter(d, call, n), LocalsAfter(d, call, n + 1);
            && before.args[n] == call.args[n]
            && after == before.(args := before.args[n := d.Check(n, call.args[n]).value], nextArgIndex := n + 1)
  {
    KeywordsStay(d, call, n);
  }

  lemma KeywordStep(d: Decorated, call: Call, n: nat)
    requires d.Valid() && n < |d.params| && d.Validates(n) && |call.args| <= n && d.params[n].name in call.kwargs
    requires d.Check(n, call.kwargs[d.params[n].name]).Ok?
    ensures var before, after, k := LocalsAfter(d, call, n), LocalsAfter(d, call, n + 1), d.params[n].name;
            && k in before.kwargs && before.kwargs[k] == call.kwargs[k]
            && after == before.(kwargs := before.kwargs - {k},
                                kwargsNext := before.kwargsNext[k := d.Check(n, call.kwargs[k]).value])
  {
    KeywordsGrow(d, call, n);
  }

  /** One parameter: what was given for it goes through its validator. */
  method ValidateParam(d: Decorated, ghost call: Call, i: nat, locals: Locals) returns (r: Result<Locals, Error>)
    requires d.Valid() && i < |d.params| && locals == LocalsAfter(d, call, i)
    ensures r == if Complaint(d, call, i).Some? then Err(Complaint(d, call, i).value)
                 else Ok(LocalsAfter(d, call, i + 1))
  {
    var name := d.params[i].name;
    if i == 0 && name == "self" {
      SkipStep(d, call, i);
      return Ok(locals);
    }
    if name !in d.validators {
      SkipStep(d, call, i);
      return Ok(locals);
    }
    if i < |locals.args| {
      var outcome := d.validators[name](locals.args[i]);
      if outcome.Err? {
        return Err(outcome.error);
      }
      PositionalStep(d, call, i);
      return Ok(locals.(args := locals.args[i := outcome.value], nextArgIndex := i + 1));
    } else if name in locals.kwargs {
      var outcome := d.validators[name](locals.kwargs[name]);
      if outcome.Err? {
        return Err(outcome.error);
      }
      KeywordStep(d, call, i);
      return Ok(locals.(kwargs := locals.kwargs - {name}, kwargsNext := locals.kwargsNext[name := outcome.value]));
    } else {
      NotYetTaken(d, call, i);
      if !d.params[i].hasDefault {
        return Err(MissingParameterValue(name));
      }
      SkipStep(d, call, i);
      return Ok(locals);
    }
  }

  /** The loop over the parameters. */
  method ValidateParams(d: Decorated, call: Call) returns (r: Result<Locals, Error>)
    requires d.Valid()
    ensures r == if FirstComplaint(d, call, 0).Some? then Err(FirstComplaint(d, call, 0).value)
                 else Ok(LocalsAfter(d, call, |d.params|))
  {
    var locals := Locals(call.args, 0, call.kwargs, map[]);
    LocalsAtFirst(d, call);
    for i := 0 to |d.params|
      invariant FirstComplaint(d, call, 0) == FirstComplaint(d, call, i)
      invariant locals == LocalsAfter(d, call, i)
    {
      var validated := ValidateParam(d, call, i, locals);
      if validated.Err? {
        return validated;
      }
      locals := validated.value;
    }
    return Ok(locals);
  }

  /** The rest of the positional arguments. */
  method ValidateRest(d: Decorated, args: seq<Value>, nextArgIndex: nat) returns (r: Result<seq<Value>, Error>)
    requires nextArgIndex == Reach(d, Covered(d, args))
    ensures r == WithRest(d, args)
  {
    if !d.args.Refused? {
      var remaining := args[nextArgIndex..];
      if d.args.Checked? && remaining != [] {
        var more := d.args.validator(remaining);
        return if more.Ok? then Ok(args[..nextArgIndex] + more.value) else Err(more.error);
      }
    }
    return Ok(args);
  }

  /** The remaining keyword arguments. */
  method ValidateLeft(d: Decorated, kwargsNext: Kwargs, kwargs: Kwargs) returns (r: Result<Kwargs, Error>)
    ensures r == WithLeft(d, kwargsNext, kwargs)
  {
    if kwargs != map[] {
      if d.kwargs.Checked? {
        var more := d.kwargs.validator(kwargs);
        return if more.Ok? then Ok(kwargsNext + more.value) else Err(more.error);
      }
      return Ok(kwargsNext + kwargs);
    }
    assert kwargsNext + map[] == kwargsNext;
    return Ok(kwargsNext);
  }

  /** The wrapper up to the call of the function. */
  method Wrapper(d: Decorated, call: Call) returns (r: Result<Call, Error>)
    requires d.Valid()
    ensures r == Outcome(d, call)
  {
    if d.kwargs.Refused? {
      var extraArgs := set k | k in call.kwargs && !d.HasParam(k);
      if extraArgs != {} {
        return Err(UnexpectedArguments(extraArgs));
      }
    }
    var validated := ValidateParams(d, call);
    if validated.Err? {
      return Err(validated.error);
    }
    var locals := validated.value;
    var args := ValidateRest(d, locals.args, locals.nextArgIndex);
    if args.Err? {
      return Err(args.error);
    }
    var kwargs := ValidateLeft(d, locals.kwargsNext, locals.kwargs);
    if kwargs.Err? {
      return Err(kwargs.error);
    }
    return Ok(Call(args.value, kwargs.value));
  }
}
