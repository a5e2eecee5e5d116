/** What the function decorated with `validate` sees, compared with the undecorated function. */
module ArgsTheorems {
  import opened Wrappers
  import opened Args
  import opened ArgsValidate

  // ---------------------------------------------------------------------------
  // Keywords
  // ---------------------------------------------------------------------------

  lemma TakenParam(d: Decorated, call: Call, i: nat)
    requires d.Valid() && i < |d.params|
    ensures Taken(d, call, d.params[i].name, |d.params|) <==> TakenBy(d, call, d.params[i].name, i)
  {
  }

  lemma NoParam(d: Decorated, call: Call, k: string)
    requires !d.HasParam(k)
    ensures !Taken(d, call, k, |d.params|)
  {
    assert forall i :: 0 <= i < |d.params| ==> d.params[i].name != k;
  }

  // ---------------------------------------------------------------------------
  // Without validators for the extra arguments nothing is lost or moved
  // ---------------------------------------------------------------------------

  /** Parameter `i` has a validator and is not the `self` that comes first. */
  predicate IsValidated(d: Decorated, i: int) {
    0 <= i < |d.params| && d.params[i].name in d.validators && (i > 0 || d.params[i].name != "self")
  }

  /** A keyword that stands for a validated parameter which no positional argument is given for. */
  predicate IsValidatedKeyword(d: Decorated, call: Call, k: string) {
    exists i :: |call.args| <= i < |d.params| && d.params[i].name == k && IsValidated(d, i)
  }

  lemma ValidatedKeyword(d: Decorated, call: Call, k: string)
    ensures Taken(d, call, k, |d.params|) <==> IsValidatedKeyword(d, call, k)
  {
    if i :| 0 <= i < |d.params| && TakenBy(d, call, k, i) {
      assert d.params[i].name == k && IsValidated(d, i);
    }
    if i :| |call.args| <= i < |d.params| && d.params[i].name == k && IsValidated(d, i) {
      assert TakenBy(d, call, k, i);
    }
  }

  /** Each validated argument goes through its validator once, every other is passed on as it is. */
  lemma NothingMoves(d: Decorated, call: Call)
    requires d.Valid() && !d.args.Checked? && !d.kwargs.Checked?
    ensures Outcome(d, call).Ok? <==>
              && (d.kwargs.Refused? ==> forall k :: k in call.kwargs ==> d.HasParam(k))
              && forall i, e :: !Wrong(d, call, i, e)
    ensures Outcome(d, call).Ok? ==>
              var passed := Outcome(d, call).value;
              && |passed.args| == |call.args|
              && (forall i :: 0 <= i < |call.args| ==>
                    if IsValidated(d, i) then d.validators[d.params[i].name](call.args[i]) == Ok(passed.args[i])
                    else passed.args[i] == call.args[i])
              && passed.kwargs.Keys == call.kwargs.Keys
              && forall k :: k in call.kwargs ==>
                   if IsValidatedKeyword(d, call, k) then
                     k in d.validators && d.validators[k](call.kwargs[k]) == Ok(passed.kwargs[k])
                   else passed.kwargs[k] == call.kwargs[k]
  {
    UnexpectedExactly(d, call);
    NoComplaints(d, call);
    forall k ensures Taken(d, call, k, |d.params|) <==> IsValidatedKeyword(d, call, k) {
      ValidatedKeyword(d, call, k);
    }
    if Outcome(d, call).Ok? {
      PositionalChecked(d, call);
      KeywordsChecked(d, call);
    }
  }

  /** Error `e` is wrong with parameter `i`: its validator says so, or it is mandatory and missing. */
  predicate Wrong(d: Decorated, call: Call, i: int, e: Error) {
    && IsValidated(d, i)
    && var name := d.params[i].name;
       if i < |call.args| then d.validators[name](call.args[i]) == Err(e)
       else if name in call.kwargs then d.validators[name](call.kwargs[name]) == Err(e)
       else !d.params[i].hasDefault && e == MissingParameterValue(name)
  }

  lemma ComplaintExactly(d: Decorated, call: Call, i: nat)
    requires i < |d.params|
    ensures forall e :: Complaint(d, call, i) == Some(e) <==> Wrong(d, call, i, e)
  {
  }

  lemma NoComplaints(d: Decorated, call: Call)
    ensures FirstComplaint(d, call, 0).None? <==> forall i, e :: !Wrong(d, call, i, e)
  {
    forall i: nat | i < |d.params|
      ensures forall e :: Complaint(d, call, i) == Some(e) <==> Wrong(d, call, i, e)
    {
      ComplaintExactly(d, call, i);
    }
    if FirstComplaint(d, call, 0).Some? {
      var i :| 0 <= i < |d.params| && Complaint(d, call, i) == FirstComplaint(d, call, 0);
      assert Wrong(d, call, i, Complaint(d, call, i).value);
    } else {
      forall i, e ensures !Wrong(d, call, i, e) {
        if 0 <= i < |d.params| {
          assert Complaint(d, call, i).None?;
        }
      }
    }
  }

  /** The error that is raised: for keywords that no parameter takes, or the first thing wrong with a parameter. */
  lemma RefusedExactly(d: Decorated, call: Call, e: Error)
    requires d.Valid() && !d.args.Checked? && !d.kwargs.Checked?
    ensures var extra := set k | k in call.kwargs && forall i :: 0 <= i < |d.params| ==> d.params[i].name != k;
            Outcome(d, call) == Err(e) <==>
              if d.kwargs.Refused? && extra != {} then e == UnexpectedArguments(extra)
              else exists i :: 0 <= i < |d.params| && Wrong(d, call, i, e)
                               && forall j, e' :: 0 <= j < i ==> !Wrong(d, call, j, e')
  {
    var extra := set k | k in call.kwargs && forall i :: 0 <= i < |d.params| ==> d.params[i].name != k;
    assert d.kwargs.Refused? ==> Unexpected(d, call) == extra;
    if Unexpected(d, call) == {} {
      FirstWrong(d, call, e);
    }
  }

  lemma FirstWrong(d: Decorated, call: Call, e: Error)
    ensures FirstComplaint(d, call, 0) == Some(e) <==>
              exists i :: 0 <= i < |d.params| && Wrong(d, call, i, e)
                          && forall j, e' :: 0 <= j < i ==> !Wrong(d, call, j, e')
  {
    forall i | 0 <= i < |d.params| ensures forall e :: Complaint(d, call, i) == Some(e) <==> Wrong(d, call, i, e) {
      ComplaintExactly(d, call, i);
    }
    if FirstComplaint(d, call, 0).Some? {
      var i :| 0 <= i < |d.params| && Complaint(d, call, i) == FirstComplaint(d, call, 0)
        && forall k :: 0 <= k < i ==> Complaint(d, call, k).None?;
      assert Wrong(d, call, i, FirstComplaint(d, call, 0).value);
      forall j, e' | 0 <= j < i ensures !Wrong(d, call, j, e') {
        assert Complaint(d, call, j).None?;
      }
    }
    if i :| 0 <= i < |d.params| && Wrong(d, call, i, e) && forall j, e' :: 0 <= j < i ==> !Wrong(d, call, j, e') {
      forall j | 0 <= j < i ensures Complaint(d, call, j).None? {
        NothingWrong(d, call, j);
      }
      FirstIsWrong(d, call, i, e);
    }
  }

  lemma NothingWrong(d: Decorated, call: Call, i: nat)
    requires i < |d.params|
    ensures Complaint(d, call, i).None? <==> forall e :: !Wrong(d, call, i, e)
  {
    ComplaintExactly(d, call, i);
    if Complaint(d, call, i).Some? {
      assert Wrong(d, call, i, Complaint(d, call, i).value);
    }
  }

  lemma FirstIsWrong(d: Decorated, call: Call, i: nat, e: Error)
    requires i < |d.params| && Complaint(d, call, i) == Some(e)
    requires forall j :: 0 <= j < i ==> Complaint(d, call, j).None?
    ensures FirstComplaint(d, call, 0) == Some(e)
  {
    assert FirstComplaint(d, call, 0).Some?;
    var k :| 0 <= k < |d.params| && Complaint(d, call, k) == FirstComplaint(d, call, 0)
      && forall j :: 0 <= j < k ==> Complaint(d, call, j).None?;
    assert !(k < i) && !(i < k);
  }

  lemma UnexpectedExactly(d: Decorated, call: Call)
    ensures Unexpected(d, call) == {} <==> d.kwargs.Refused? ==> forall k :: k in call.kwargs ==> d.HasParam(k)
  {
    if k :| d.kwargs.Refused? && k in call.kwargs && !d.HasParam(k) {
      assert k in Unexpected(d, call);
    }
  }

  lemma PositionalChecked(d: Decorated, call: Call)
    requires FirstComplaint(d, call, 0).None?
    ensures forall i :: 0 <= i < |call.args| && d.Validates(i) ==>
              d.Check(i, call.args[i]) == Ok(Positional(d, call.args, |d.params|)[i])
  {
    forall i | 0 <= i < |call.args| && d.Validates(i)
      ensures d.Check(i, call.args[i]) == Ok(Positional(d, call.args, |d.params|)[i])
    {
      assert Complaint(d, call, i).None?;
    }
  }

  lemma KeywordsChecked(d: Decorated, call: Call)
    requires FirstComplaint(d, call, 0).None?
    ensures forall k :: k in call.kwargs && Taken(d, call, k, |d.params|) ==>
              d.validators[k](call.kwargs[k]) == Ok(TakenKwargs(d, call, |d.params|)[k])
  {
    forall k | k in call.kwargs && Taken(d, call, k, |d.params|)
      ensures d.validators[k](call.kwargs[k]) == Ok(TakenKwargs(d, call, |d.params|)[k])
    {
      var i :| 0 <= i < |d.params| && TakenBy(d, call, k, i);
      assert Complaint(d, call, i).None?;
    }
  }

  // ---------------------------------------------------------------------------
  // Identity validators make the decorator transparent
  // ---------------------------------------------------------------------------

  ghost predicate Identity(d: Decorated) {
    && (forall name, v :: name in d.validators ==> d.validators[name](v) == Ok(v))
    && (d.args.Checked? ==> forall xs :: d.args.validator(xs) == Ok(xs))
    && (d.kwargs.Checked? ==> forall m :: d.kwargs.validator(m) == Ok(m))
  }

  /** What the decorated function sees of a call. */
  function Sees(d: Decorated, call: Call): Option<Frame> {
    match Outcome(d, call)
    case Ok(passed) => Bind(d, passed)
    case Err(_) => None
  }

  lemma IdentityKeeps(d: Decorated, call: Call)
    requires d.Valid() && Identity(d)
    ensures Positional(d, call.args, |d.params|) == call.args
    ensures TakenKwargs(d, call, |d.params|) + LeftKwargs(d, call, |d.params|) == call.kwargs
  {
    forall i | 0 <= i < |call.args|
      ensures Positional(d, call.args, |d.params|)[i] == call.args[i]
    {
      IdentityChecks(d, i, call.args[i]);
    }
    forall k | k in call.kwargs && Taken(d, call, k, |d.params|)
      ensures TakenKwargs(d, call, |d.params|)[k] == call.kwargs[k]
    {
      var i :| 0 <= i < |d.params| && TakenBy(d, call, k, i);
      IdentityChecks(d, i, call.kwargs[k]);
    }
  }

  lemma IdentityChecks(d: Decorated, i: nat, v: Value)
    requires Identity(d)
    ensures d.Validates(i) ==> d.Check(i, v) == Ok(v)
  {
    if d.Validates(i) {
      var name := d.params[i].name;
      assert name in d.validators && d.validators[name](v) == Ok(v);
    }
  }

  lemma IdentityRefuses(d: Decorated, call: Call)
    requires d.Valid() && Identity(d) && Binds(d, call)
    ensures Unexpected(d, call) == {} && FirstComplaint(d, call, 0).None?
  {
    UnexpectedExactly(d, call);
    forall i | 0 <= i < |d.params| ensures Complaint(d, call, i).None? {
      if LocalOf(d, call, i).Some? {
        IdentityChecks(d, i, LocalOf(d, call, i).value);
      }
    }
  }

  lemma IdentityExtras(d: Decorated, args: seq<Value>, taken: Kwargs, left: Kwargs)
    requires Identity(d)
    ensures WithRest(d, args) == Ok(args)
    ensures WithLeft(d, taken, left) == Ok(taken + left)
  {
    var next := Reach(d, Covered(d, args));
    assert args[..next] + args[next..] == args;
  }

  lemma IdentityOutcome(d: Decorated, call: Call)
    requires d.Valid() && Identity(d)
    ensures Outcome(d, call) ==
              if Unexpected(d, call) != {} then Err(UnexpectedArguments(Unexpected(d, call)))
              else if FirstComplaint(d, call, 0).Some? then Err(FirstComplaint(d, call, 0).value)
              else Ok(call)
  {
    IdentityKeeps(d, call);
    IdentityExtras(d, call.args, TakenKwargs(d, call, |d.params|), LeftKwargs(d, call, |d.params|));
  }

  /** Whatever the signature: the same call is made, and refused only where Python refuses it as well. */
  lemma IdentityIsTransparent(d: Decorated, call: Call)
    requires d.Valid() && Identity(d)
    ensures Outcome(d, call).Ok? ==> Outcome(d, call).value == call
    ensures Sees(d, call) == Bind(d, call)
  {
    IdentityOutcome(d, call);
    if Binds(d, call) {
      IdentityRefuses(d, call);
    }
  }

  // ---------------------------------------------------------------------------
  // What the validators of the extra arguments are handed
  // ---------------------------------------------------------------------------

  /** The last parameter given by position is validated, if there is one. */
  predicate LastIsValidated(d: Decorated, call: Call) {
    var n := Covered(d, call.args);
    n == 0 || d.Validates(n - 1)
  }

  /** The `*args` validator is handed just the extra arguments exactly when the argument before them is validated. */
  lemma RestIsExtra(d: Decorated, call: Call)
    ensures var args := Positional(d, call.args, |d.params|);
            args[Reach(d, Covered(d, args))..] == ExtraArgs(d, call) <==> LastIsValidated(d, call)
  {
    var args, n := Positional(d, call.args, |d.params|), Covered(d, call.args);
    assert ExtraArgs(d, call) == call.args[n..] == args[n..];
  }

  /** No parameter without a validator is given by keyword. */
  predicate KeywordsAreValidated(d: Decorated, call: Call) {
    forall i :: 0 <= i < |d.params| && d.params[i].name in call.kwargs ==> d.Validates(i)
  }

  lemma LeftIsExtra(d: Decorated, call: Call)
    requires d.Valid() && Binds(d, call)
    ensures LeftKwargs(d, call, |d.params|) == ExtraKwargs(d, call) <==> KeywordsAreValidated(d, call)
  {
    if KeywordsAreValidated(d, call) {
      forall k | k in call.kwargs ensures Taken(d, call, k, |d.params|) <==> d.HasParam(k) {
        NoParamOrTaken(d, call, k);
      }
    } else {
      var i :| 0 <= i < |d.params| && d.params[i].name in call.kwargs && !d.Validates(i);
      TakenParam(d, call, i);
      assert d.params[i].name in LeftKwargs(d, call, |d.params|);
    }
  }

  lemma NoParamOrTaken(d: Decorated, call: Call, k: string)
    requires d.Valid() && Binds(d, call) && KeywordsAreValidated(d, call) && k in call.kwargs
    ensures Taken(d, call, k, |d.params|) <==> d.HasParam(k)
  {
    if d.HasParam(k) {
      var i :| 0 <= i < |d.params| && d.params[i].name == k;
      TakenParam(d, call, i);
    } else {
      NoParam(d, call, k);
    }
  }

  /** What is made of the rest after argument `n`, the last validated one, and of the keywords left over. */
  lemma ExtrasHandedOver(d: Decorated, call: Call, n: nat)
    requires d.Valid() && Outcome(d, call).Ok? && n <= |call.args| && n <= |d.params|
    requires n > 0 ==> IsValidated(d, n - 1)
    requires forall i :: n <= i < |call.args| ==> !IsValidated(d, i)
    ensures d.args.Checked? && n < |call.args| ==>
              var args := Positional(d, call.args, |d.params|);
              && d.args.validator(args[n..]).Ok?
              && Outcome(d, call).value.args == args[..n] + d.args.validator(args[n..]).value
    ensures d.kwargs.Checked? && LeftKwargs(d, call, |d.params|) != map[] ==>
              var taken, more := TakenKwargs(d, call, |d.params|), d.kwargs.validator(LeftKwargs(d, call, |d.params|));
              && more.Ok?
              && (forall k :: k in Outcome(d, call).value.kwargs <==> k in taken || k in more.value)
              && (forall k :: k in more.value ==> Outcome(d, call).value.kwargs[k] == more.value[k])
              && (forall k :: k in taken && k !in more.value ==> Outcome(d, call).value.kwargs[k] == taken[k])
  {
    PartsOfOutcome(d, call);
    ReachIs(d, Covered(d, call.args), n);
  }

  lemma ReachIs(d: Decorated, m: nat, n: nat)
    requires n <= m <= |d.params| && (n > 0 ==> IsValidated(d, n - 1))
    requires forall i :: n <= i < m ==> !IsValidated(d, i)
    ensures Reach(d, m) == n
  {
    var r := Reach(d, m);
    assert r > 0 ==> IsValidated(d, r - 1);
    assert n > 0 ==> d.Validates(n - 1);
  }

  /** An argument before the extra ones that has no validator is handed over with them, and may be lost. */
  lemma NamedArgumentLost()
    ensures var d := Decorated([Param("topic", false)], map[], Checked(xs => Ok([])), Refused);
            var call := Call([Null], map[]);
            d.Valid() && Bind(d, call) == Some(Frame([Some(Null)], [], map[])) && Sees(d, call) == None
  {
    var d := Decorated([Param("topic", false)], map[], Checked(xs => Ok([])), Refused);
    var call := Call([Null], map[]);
    assert Positional(d, [Null], 1) == [Null];
    assert Outcome(d, call).Ok? ==> Outcome(d, call).value.args == [];
    assert ExtraKwargs(d, call) == map[];
    assert Bind(d, call).value.locals == [Some(Null)];
  }

  /** So may a parameter without a validator that is given by keyword. */
  lemma NamedKeywordLost()
    ensures var d := Decorated([Param("topic", false)], map[], Refused, Checked(m => Ok(map[])));
            var call := Call([], map["topic" := Null]);
            d.Valid() && Bind(d, call) == Some(Frame([Some(Null)], [], map[])) && Sees(d, call) == None
  {
    var d := Decorated([Param("topic", false)], map[], Refused, Checked(m => Ok(map[])));
    var call := Call([], map["topic" := Null]);
    assert d.HasParam("topic") by {
      assert d.params[0].name == "topic";
    }
    assert "topic" in LeftKwargs(d, call, 1);
    assert TakenKwargs(d, call, 1) == map[];
    assert Outcome(d, call).Ok? ==> Outcome(d, call).value == Call([], map[]);
    assert ExtraKwargs(d, call) == map[];
    assert Bind(d, call).value.locals == [Some(Null)];
  }

  // ---------------------------------------------------------------------------
  // The validated frame
  // ---------------------------------------------------------------------------

  function ValidatedLocal(d: Decorated, i: nat, value: Option<Value>): Option<Value> {
    if value.Some? && d.Validates(i) then Some(Converted(d.Check(i, value.value), value.value)) else value
  }

  function ValidatedExtra<T(==)>(extra: Extra<T>, empty: T, value: T): T {
    if extra.Checked? && value != empty && extra.validator(value).Ok? then extra.validator(value).value else value
  }

  /** Each variable of the function through its own validator. */
  function ValidatedFrame(d: Decorated, frame: Frame): Frame {
    Frame(
      seq(|frame.locals|, i requires 0 <= i < |frame.locals| => ValidatedLocal(d, i, frame.locals[i])),
      ValidatedExtra(d.args, [], frame.extra),
      ValidatedExtra(d.kwargs, map[], frame.extraKw))
  }

  /** The `*args` validator sees only extra arguments. */
  predicate ArgsApart(d: Decorated, call: Call) {
    d.args.Checked? ==> LastIsValidated(d, call)
  }

  /** What the `**kwargs` validator makes of the extra keywords names no parameter. */
  predicate AddsNoParam(d: Decorated, call: Call) {
    forall i :: 0 <= i < |d.params| ==>
      d.params[i].name !in ValidatedExtra(d.kwargs, map[], ExtraKwargs(d, call))
  }

  /** The `**kwargs` validator sees only extra keywords and adds no names of parameters. */
  predicate KwargsApart(d: Decorated, call: Call) {
    d.kwargs.Checked? ==> KeywordsAreValidated(d, call) && AddsNoParam(d, call)
  }

  predicate ExtrasApart(d: Decorated, call: Call) {
    ArgsApart(d, call) && KwargsApart(d, call)
  }

  lemma PartsOfOutcome(d: Decorated, call: Call)
    requires Outcome(d, call).Ok?
    ensures Unexpected(d, call) == {} && FirstComplaint(d, call, 0).None?
    ensures WithRest(d, Positional(d, call.args, |d.params|)) == Ok(Outcome(d, call).value.args)
    ensures WithLeft(d, TakenKwargs(d, call, |d.params|), LeftKwargs(d, call, |d.params|))
         == Ok(Outcome(d, call).value.kwargs)
  {
  }

  lemma LeftPassed(d: Decorated, taken: Kwargs, left: Kwargs)
    requires WithLeft(d, taken, left).Ok?
    ensures WithLeft(d, taken, left).value
         == taken + if d.kwargs.Checked? then ValidatedExtra(d.kwargs, map[], left) else left
  {
  }

  /** The arguments up to `n`, and after them what the validator made of the rest. */
  lemma RestPassed(d: Decorated, args: seq<Value>, n: nat)
    requires WithRest(d, args).Ok? && n == Covered(d, args) && (d.args.Checked? ==> Reach(d, n) == n)
    ensures WithRest(d, args).value == args[..n] + ValidatedExtra(d.args, [], args[n..])
  {
    assert args[..n] + args[n..] == args;
  }

  lemma ExtraAfterCovered(d: Decorated, call: Call)
    ensures Positional(d, call.args, |d.params|)[Covered(d, call.args)..] == ExtraArgs(d, call)
    ensures Covered(d, call.args) < |d.params| ==> ExtraArgs(d, call) == []
  {
  }

  lemma SplitAt(args: seq<Value>, front: seq<Value>, extra: seq<Value>, n: nat)
    requires args == front + extra && |front| <= n && (|front| < n ==> extra == [])
    ensures (if |args| > n then args[n..] else []) == extra
  {
  }

  lemma PassedArgs(d: Decorated, call: Call)
    requires d.Valid() && Outcome(d, call).Ok? && ArgsApart(d, call)
    ensures var args := Outcome(d, call).value.args;
            && Covered(d, args) == Covered(d, call.args)
            && (forall i :: 0 <= i < |d.params| && i < |call.args| ==>
                  args[i] == Positional(d, call.args, |d.params|)[i])
            && (|args| > |d.params| ==> |call.args| > |d.params|)
            && (if |args| > |d.params| then args[|d.params|..] else [])
            == ValidatedExtra(d.args, [], ExtraArgs(d, call))
  {
    var before, n := Positional(d, call.args, |d.params|), Covered(d, call.args);
    PartsOfOutcome(d, call);
    ExtraAfterCovered(d, call);
    RestPassed(d, before, n);
    SplitAt(Outcome(d, call).value.args, before[..n], ValidatedExtra(d.args, [], ExtraArgs(d, call)), |d.params|);
  }

  lemma PassedKwargs(d: Decorated, call: Call)
    requires d.Valid() && Binds(d, call) && Outcome(d, call).Ok? && KwargsApart(d, call)
    ensures var taken, left := TakenKwargs(d, call, |d.params|), LeftKwargs(d, call, |d.params|);
            Outcome(d, call).value.kwargs
            == taken + if d.kwargs.Checked? then ValidatedExtra(d.kwargs, map[], ExtraKwargs(d, call)) else left
  {
    PartsOfOutcome(d, call);
    LeftPassed(d, TakenKwargs(d, call, |d.params|), LeftKwargs(d, call, |d.params|));
    if d.kwargs.Checked? {
      LeftIsExtra(d, call);
    }
  }

  lemma PassedLocal(d: Decorated, call: Call, i: nat)
    requires d.Valid() && Binds(d, call) && Outcome(d, call).Ok? && ExtrasApart(d, call) && i < |d.params|
    ensures LocalOf(d, Outcome(d, call).value, i) == ValidatedLocal(d, i, LocalOf(d, call, i))
    ensures i < |call.args| ==> d.params[i].name !in Outcome(d, call).value.kwargs
  {
    PassedArgs(d, call);
    PassedKwargs(d, call);
    TakenParam(d, call, i);
  }

  lemma ExtraApart(d: Decorated, call: Call)
    requires KwargsApart(d, call)
    ensures forall k :: k in ValidatedExtra(d.kwargs, map[], ExtraKwargs(d, call)) ==> !d.HasParam(k)
  {
  }

  lemma PassedExtraKey(d: Decorated, call: Call, k: string)
    requires d.Valid() && Binds(d, call) && Outcome(d, call).Ok? && ExtrasApart(d, call) && !d.HasParam(k)
    ensures var passed, extra := Outcome(d, call).value.kwargs, ValidatedExtra(d.kwargs, map[], ExtraKwargs(d, call));
            (k in passed <==> k in extra) && (k in passed ==> passed[k] == extra[k])
  {
    PassedKwargs(d, call);
    NoParam(d, call, k);
  }

  lemma PassedExtraKwargs(d: Decorated, call: Call)
    requires d.Valid() && Binds(d, call) && Outcome(d, call).Ok? && ExtrasApart(d, call)
    ensures ExtraKwargs(d, Outcome(d, call).value) == ValidatedExtra(d.kwargs, map[], ExtraKwargs(d, call))
  {
    var passed, extra := Outcome(d, call).value.kwargs, ValidatedExtra(d.kwargs, map[], ExtraKwargs(d, call));
    ExtraApart(d, call);
    forall k | !d.HasParam(k)
      ensures (k in passed <==> k in extra) && (k in passed ==> passed[k] == extra[k])
    {
      PassedExtraKey(d, call, k);
    }
    assert ExtraKwargs(d, Outcome(d, call).value).Keys == extra.Keys;
  }

  /** Every variable of the function is what its own validator made of what the caller gave it. */
  lemma FunctionSees(d: Decorated, call: Call)
    requires d.Valid() && Binds(d, call) && Outcome(d, call).Ok? && ExtrasApart(d, call)
    ensures Sees(d, call) == Some(ValidatedFrame(d, Bind(d, call).value))
  {
    var passed := Outcome(d, call).value;
    forall i | 0 <= i < |d.params|
      ensures LocalOf(d, passed, i) == ValidatedLocal(d, i, LocalOf(d, call, i))
      ensures i < |call.args| ==> d.params[i].name !in passed.kwargs
    {
      PassedLocal(d, call, i);
    }
    PassedArgs(d, call);
    PassedExtraKwargs(d, call);
    NoneUnexpected(d, call);
    assert Binds(d, passed);
    assert Bind(d, passed).value.locals == ValidatedFrame(d, Bind(d, call).value).locals;
  }

  lemma NoneUnexpected(d: Decorated, call: Call)
    requires d.Valid() && Binds(d, call) && Outcome(d, call).Ok? && ExtrasApart(d, call)
    ensures d.kwargs.Refused? ==> forall k :: k in Outcome(d, call).value.kwargs ==> d.HasParam(k)
  {
    PassedKwargs(d, call);
  }

  // ---------------------------------------------------------------------------
  // The conditions are exact
  // ---------------------------------------------------------------------------

  /** The function sees every variable through its own validator. */
  predicate SeesValidated(d: Decorated, call: Call)
    requires Binds(d, call)
  {
    Sees(d, call) == Some(ValidatedFrame(d, Bind(d, call).value))
  }

  function WithArgs(d: Decorated, validator: seq<Value> -> Result<seq<Value>, Error>): Decorated {
    d.(args := Checked(validator))
  }

  function WithKwargs(d: Decorated, validator: Kwargs -> Result<Kwargs, Error>): Decorated {
    d.(kwargs := Checked(validator))
  }

  /** Whatever validator `*args` is given. */
  ghost predicate AnyArgsValidatorFits(d: Decorated, call: Call)
    requires d.args.Kept? && Binds(d, call)
  {
    forall v :: Outcome(WithArgs(d, v), call).Ok? ==> SeesValidated(WithArgs(d, v), call)
  }

  /** Whatever validator `**kwargs` is given that adds no parameters. */
  ghost predicate AnyKwargsValidatorFits(d: Decorated, call: Call)
    requires d.kwargs.Kept? && Binds(d, call)
  {
    forall v :: Outcome(WithKwargs(d, v), call).Ok? && AddsNoParam(WithKwargs(d, v), call) ==>
      SeesValidated(WithKwargs(d, v), call)
  }

  /** The same function and validators, but for the extra arguments. */
  ghost predicate SameNamed(d: Decorated, d': Decorated) {
    d'.params == d.params && d'.validators == d.validators
  }

  lemma SameComplaint(d: Decorated, d': Decorated, call: Call, i: nat)
    requires SameNamed(d, d') && i < |d.params|
    ensures Complaint(d', call, i) == Complaint(d, call, i)
  {
    assert d'.Validates(i) == d.Validates(i);
    assert LocalOf(d', call, i) == LocalOf(d, call, i);
  }

  lemma SameComplaints(d: Decorated, d': Decorated, call: Call)
    requires SameNamed(d, d') && FirstComplaint(d, call, 0).None?
    ensures FirstComplaint(d', call, 0).None?
  {
    forall i | 0 <= i < |d.params| ensures Complaint(d', call, i).None? {
      SameComplaint(d, d', call, i);
    }
  }

  lemma SameKeywords(d: Decorated, d': Decorated, call: Call, n: nat)
    requires SameNamed(d, d')
    ensures TakenKwargs(d', call, n) == TakenKwargs(d, call, n)
    ensures LeftKwargs(d', call, n) == LeftKwargs(d, call, n)
  {
    forall k ensures Taken(d', call, k, n) <==> Taken(d, call, k, n) {
      if i :| 0 <= i < n && TakenBy(d, call, k, i) {
        assert TakenBy(d', call, k, i);
      }
      if i :| 0 <= i < n && TakenBy(d', call, k, i) {
        assert TakenBy(d, call, k, i);
      }
    }
  }

  lemma SamePositional(d: Decorated, d': Decorated, args: seq<Value>, n: nat)
    requires SameNamed(d, d')
    ensures Positional(d', args, n) == Positional(d, args, n)
  {
  }

  lemma {:induction false} SameReach(d: Decorated, d': Decorated, n: nat)
    requires SameNamed(d, d')
    ensures Reach(d', n) == Reach(d, n)
  {
    if n == 0 {
    } else {
      SameReach(d, d', n - 1);
    }
  }

  lemma SameExtras(d: Decorated, d': Decorated, call: Call)
    requires SameNamed(d, d')
    ensures ExtraKwargs(d', call) == ExtraKwargs(d, call) && ExtraArgs(d', call) == ExtraArgs(d, call)
    ensures LastIsValidated(d', call) == LastIsValidated(d, call)
    ensures KeywordsAreValidated(d', call) == KeywordsAreValidated(d, call)
  {
    forall k ensures d'.HasParam(k) <==> d.HasParam(k) {
    }
  }

  lemma SameRest(d: Decorated, d': Decorated, args: seq<Value>)
    requires SameNamed(d, d') && d'.args == d.args
    ensures WithRest(d', args) == WithRest(d, args)
  {
    SameReach(d, d', Covered(d, args));
  }

  /** The call once it is clear that nothing is wrong with the named arguments. */
  lemma OutcomeOfParts(d: Decorated, call: Call, args: seq<Value>, kwargs: Kwargs)
    requires Unexpected(d, call) == {} && FirstComplaint(d, call, 0).None?
    requires WithRest(d, Positional(d, call.args, |d.params|)) == Ok(args)
    requires WithLeft(d, TakenKwargs(d, call, |d.params|), LeftKwargs(d, call, |d.params|)) == Ok(kwargs)
    ensures Outcome(d, call) == Ok(Call(args, kwargs))
  {
  }

  lemma SameLeft(d: Decorated, d': Decorated, call: Call)
    requires SameNamed(d, d') && d'.kwargs == d.kwargs
    ensures WithLeft(d', TakenKwargs(d', call, |d'.params|), LeftKwargs(d', call, |d'.params|))
         == WithLeft(d, TakenKwargs(d, call, |d.params|), LeftKwargs(d, call, |d.params|))
    ensures Unexpected(d', call) == Unexpected(d, call)
  {
    SameKeywords(d, d', call, |d.params|);
    assert forall k :: d'.HasParam(k) == d.HasParam(k);
  }

  /** The function does not see a variable that it should. */
  lemma LostLocal(d: Decorated, call: Call, i: nat)
    requires Binds(d, call) && Outcome(d, call).Ok? && i < |d.params|
    requires LocalOf(d, call, i).Some? && LocalOf(d, Outcome(d, call).value, i).None?
    ensures !SeesValidated(d, call)
  {
    var passed := Outcome(d, call).value;
    assert ValidatedFrame(d, Bind(d, call).value).locals[i].Some?;
    if Binds(d, passed) {
      assert Bind(d, passed).value.locals[i].None?;
    }
  }

  function DropArgs(args: seq<Value>): Result<seq<Value>, Error> {
    Ok([])
  }

  function DropKwargs(kwargs: Kwargs): Result<Kwargs, Error> {
    Ok(map[])
  }

  lemma DroppedRest(d: Decorated, args: seq<Value>)
    requires d.args == Checked(DropArgs) && Reach(d, Covered(d, args)) < Covered(d, args)
    ensures WithRest(d, args) == Ok(args[..Reach(d, Covered(d, args))])
  {
    var next := Reach(d, Covered(d, args));
    assert args[next..] != [];
    assert args[..next] + [] == args[..next];
  }

  lemma ReachesLess(d: Decorated, n: nat)
    requires n > 0 && !d.Validates(n - 1)
    ensures Reach(d, n) < n
  {
  }

  /** A named argument among those handed to `*args` is gone if the validator drops them. */
  lemma DroppedArgsOutcome(d: Decorated, call: Call)
    requires d.Valid() && d.args.Kept? && Binds(d, call) && Outcome(d, call).Ok? && !LastIsValidated(d, call)
    ensures var d' := WithArgs(d, DropArgs);
            && Outcome(d', call).Ok? && |Outcome(d', call).value.args| == Reach(d, Covered(d, call.args))
            && Outcome(d', call).value.kwargs == Outcome(d, call).value.kwargs
  {
    var d' := WithArgs(d, DropArgs);
    var args := Positional(d, call.args, |d.params|);
    PartsOfOutcome(d, call);
    SameComplaints(d, d', call);
    SamePositional(d, d', call.args, |d.params|);
    SameReach(d, d', Covered(d, call.args));
    SameLeft(d, d', call);
    ReachesLess(d, Covered(d, call.args));
    DroppedRest(d', args);
    OutcomeOfParts(d', call, args[..Reach(d, Covered(d, args))], Outcome(d, call).value.kwargs);
  }

  lemma DroppedArgs(d: Decorated, call: Call)
    requires d.Valid() && d.args.Kept? && Binds(d, call) && Outcome(d, call).Ok?
    requires KwargsApart(d, call) && !LastIsValidated(d, call)
    ensures Outcome(WithArgs(d, DropArgs), call).Ok? && !SeesValidated(WithArgs(d, DropArgs), call)
  {
    var lost := Reach(d, Covered(d, call.args));
    ReachesLess(d, Covered(d, call.args));
    DroppedArgsOutcome(d, call);
    PassedLocal(d, call, lost);
    LostLocal(WithArgs(d, DropArgs), call, lost);
  }

  /** Every validator of `*args` fits exactly when the last parameter given by position is validated. */
  lemma ArgsFitExactly(d: Decorated, call: Call)
    requires d.Valid() && d.args.Kept? && Binds(d, call) && Outcome(d, call).Ok? && KwargsApart(d, call)
    ensures AnyArgsValidatorFits(d, call) <==> LastIsValidated(d, call)
  {
    if LastIsValidated(d, call) {
      forall v | Outcome(WithArgs(d, v), call).Ok? ensures SeesValidated(WithArgs(d, v), call) {
        SameExtras(d, WithArgs(d, v), call);
        FunctionSees(WithArgs(d, v), call);
      }
    } else {
      DroppedArgs(d, call);
    }
  }

  lemma DroppedLeft(d: Decorated, taken: Kwargs, left: Kwargs)
    requires d.kwargs == Checked(DropKwargs) && left != map[]
    ensures WithLeft(d, taken, left) == Ok(taken)
  {
    assert taken + map[] == taken;
  }

  lemma DroppedKwargsOutcome(d: Decorated, call: Call, i: nat)
    requires d.Valid() && d.kwargs.Kept? && Binds(d, call) && Outcome(d, call).Ok?
    requires i < |d.params| && d.params[i].name in call.kwargs && !d.Validates(i)
    ensures Outcome(WithKwargs(d, DropKwargs), call)
         == Ok(Call(Outcome(d, call).value.args, TakenKwargs(d, call, |d.params|)))
  {
    var d' := WithKwargs(d, DropKwargs);
    PartsOfOutcome(d, call);
    TakenParam(d, call, i);
    assert d.params[i].name in LeftKwargs(d, call, |d.params|);
    SameComplaints(d, d', call);
    SameKeywords(d, d', call, |d.params|);
    SamePositional(d, d', call.args, |d.params|);
    SameRest(d, d', Positional(d, call.args, |d.params|));
    DroppedLeft(d', TakenKwargs(d, call, |d.params|), LeftKwargs(d, call, |d.params|));
    OutcomeOfParts(d', call, Outcome(d, call).value.args, TakenKwargs(d, call, |d.params|));
  }

  lemma DroppedKwargs(d: Decorated, call: Call)
    requires d.Valid() && d.kwargs.Kept? && Binds(d, call) && Outcome(d, call).Ok?
    requires ArgsApart(d, call) && !KeywordsAreValidated(d, call)
    ensures Outcome(WithKwargs(d, DropKwargs), call).Ok? && AddsNoParam(WithKwargs(d, DropKwargs), call)
    ensures !SeesValidated(WithKwargs(d, DropKwargs), call)
  {
    var lost :| 0 <= lost < |d.params| && d.params[lost].name in call.kwargs && !d.Validates(lost);
    DroppedKwargsOutcome(d, call, lost);
    PassedArgs(d, call);
    TakenParam(d, call, lost);
    LostLocal(WithKwargs(d, DropKwargs), call, lost);
  }

  /** Every validator of `**kwargs` fits exactly when every parameter given by keyword is validated. */
  lemma KwargsFitExactly(d: Decorated, call: Call)
    requires d.Valid() && d.kwargs.Kept? && Binds(d, call) && Outcome(d, call).Ok? && ArgsApart(d, call)
    ensures AnyKwargsValidatorFits(d, call) <==> KeywordsAreValidated(d, call)
  {
    if KeywordsAreValidated(d, call) {
      forall v | Outcome(WithKwargs(d, v), call).Ok? && AddsNoParam(WithKwargs(d, v), call)
        ensures SeesValidated(WithKwargs(d, v), call)
      {
        SameExtras(d, WithKwargs(d, v), call);
        FunctionSees(WithKwargs(d, v), call);
      }
    } else {
      DroppedKwargs(d, call);
    }
  }
}
