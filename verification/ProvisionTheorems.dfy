/** What every run of the provisioning machine keeps. */
module ProvisionTheorems {
  import opened Wrappers
  import opened Fsm
  import opened ProvisionStates
  import opened ProvisionTable

  const CLEAN_UP := AddTransition(Deleting, Cleaning, Verb.Clean)
  const VERIFIED := AddTransition(Verifying, Manageable, Verb.Done)

  /** The states a node is in from deployment to tear-down. */
  predicate Occupied(s: Provision) {
    match s
    case Active | Error | Rescue | Deploying | DeployWait | DeployFail | DeployHold => true
    case Deleting | Rescuing | RescueWait | RescueFail | Unrescuing | UnrescueFail => true
    case Servicing | ServiceWait | ServiceFail | ServiceHold => true
    case _ => false
  }

  predicate Enrolling(s: Provision) {
    s == Enroll || s == Verifying
  }

  /** The next step on the way to a target, and how many are left with it. */
  datatype Heading = Toward(verb: Verb, next: Provision, left: nat) | Arrived

  /** One step from each state on the way to its default target. */
  function Onward(s: Provision): Heading {
    match s
    case Verifying => Toward(Verb.Done, Manageable, 3)
    case Manageable => Toward(Verb.Provide, Cleaning, 2)
    case Deploying => Toward(Verb.Done, Active, 1)
    case DeployWait => Toward(Verb.Resume, Deploying, 2)
    case DeployFail => Toward(Verb.Deploy, Deploying, 2)
    case DeployHold => Toward(Verb.Unhold, DeployWait, 3)
    case Cleaning => Toward(Verb.Done, Available, 1)
    case CleanWait => Toward(Verb.Resume, Cleaning, 2)
    case CleanFail => Toward(Verb.Manage, Manageable, 3)
    case CleanHold => Toward(Verb.Unhold, CleanWait, 3)
    case Deleting => Toward(Verb.Clean, Cleaning, 2)
    case Inspecting => Toward(Verb.Done, Manageable, 3)
    case InspectFail => Toward(Verb.Manage, Manageable, 3)
    case InspectWait => Toward(Verb.Done, Manageable, 3)
    case Adopting => Toward(Verb.Done, Active, 1)
    case AdoptFail => Toward(Verb.Adopt, Adopting, 2)
    case Rescuing => Toward(Verb.Done, Provision.Rescue, 1)
    case RescueWait => Toward(Verb.Resume, Rescuing, 2)
    case RescueFail => Toward(Verb.Rescue, Rescuing, 2)
    case Unrescuing => Toward(Verb.Done, Active, 1)
    case UnrescueFail => Toward(Verb.Unrescue, Unrescuing, 2)
    case Servicing => Toward(Verb.Done, Active, 1)
    case ServiceWait => Toward(Verb.Resume, Servicing, 2)
    case ServiceFail => Toward(Verb.Abort, Active, 1)
    case ServiceHold => Toward(Verb.Service, Servicing, 2)
    case _ => Arrived
  }

  /** A transition that keeps the runs safe. */
  predicate Safe(c: Step) {
    && c.AddTransition?
    && (Occupied(c.start) && c != CLEAN_UP ==> Occupied(c.end))
    && (Enrolling(c.start) && c != VERIFIED ==> Enrolling(c.end))
    && (c.end == Available ==> c == AddTransition(Cleaning, Available, Verb.Done))
  }

  lemma NextStaysOccupied(s: Provision, v: Verb)
    requires Next(s, v).To? && Occupied(s) && !(s.Deleting? && v.Clean?)
    ensures Occupied(Next(s, v).state)
  {
  }

  lemma NextStaysEnrolling(s: Provision, v: Verb)
    requires Next(s, v).To? && Enrolling(s) && !(s.Verifying? && v.Done?)
    ensures Enrolling(Next(s, v).state)
  {
  }

  lemma NextIsAvailable(s: Provision, v: Verb)
    requires Next(s, v) == To(Available)
    ensures s == Cleaning && v == Verb.Done
  {
  }

  lemma NextIsSafe(s: Provision, v: Verb)
    requires Next(s, v).To?
    ensures Safe(AddTransition(s, Next(s, v).state, v))
  {
    if Occupied(s) && !(s.Deleting? && v.Clean?) {
      NextStaysOccupied(s, v);
    }
    if Enrolling(s) && !(s.Verifying? && v.Done?) {
      NextStaysEnrolling(s, v);
    }
    if Next(s, v).state == Available {
      NextIsAvailable(s, v);
    }
  }

  lemma OnwardIsNext(s: Provision)
    requires Onward(s).Toward?
    ensures Next(s, Onward(s).verb) == To(Onward(s).next)
  {
  }

  /** The step chosen for `s` is in the table. */
  lemma OnwardTaken(s: Provision)
    requires Onward(s).Toward?
    ensures (s, Onward(s).verb) in Built().transitions
    ensures Built().transitions[(s, Onward(s).verb)] == Onward(s).next
  {
    OnwardIsNext(s);
    TableExactly(s, Onward(s).verb);
  }

  // ---------------------------------------------------------------------------
  // Runs
  // ---------------------------------------------------------------------------

  /** A machine with the provisioning table, wherever it is. */
  predicate IsProvisioning(m: Provisioning) {
    Inv(m) && m.states == Built().states && m.transitions == Built().transitions
  }

  predicate EventsOnly(calls: seq<Step>) {
    forall c :: c in calls ==> c.ProcessEvent?
  }

  function At(m: Provisioning, calls: seq<Step>, i: nat): (m': Provisioning)
    requires Inv(m) && i <= |calls|
    ensures Inv(m')
  {
    RunCalls(m, calls[..i])
  }

  /** The `i`th call of a run takes this transition. */
  predicate Takes(m: Provisioning, calls: seq<Step>, i: nat, edge: Step)
    requires Inv(m) && i < |calls| && edge.AddTransition?
  {
    && calls[i].ProcessEvent? && calls[i].event == edge.event
    && At(m, calls, i).current == Some(edge.start) && At(m, calls, i + 1).current == Some(edge.end)
  }

  /** Sound, with transitions that keep the runs safe, and a way on from every state that has one. */
  ghost predicate Behaves(m: Provisioning) {
    && Inv(m)
    && (forall k :: k in m.transitions ==> Safe(Call.AddTransition(k.0, m.transitions[k], k.1)))
    && (forall s :: Onward(s).Toward? ==> GoesOn(m, s))
  }

  predicate GoesOn(m: Provisioning, s: Provision)
    requires Onward(s).Toward?
  {
    (s, Onward(s).verb) in m.transitions && m.transitions[(s, Onward(s).verb)] == Onward(s).next
  }

  lemma ProvisioningBehaves(m: Provisioning)
    requires IsProvisioning(m)
    ensures Behaves(m)
  {
    forall k | k in m.transitions ensures Safe(Call.AddTransition(k.0, m.transitions[k], k.1)) {
      TableExactly(k.0, k.1);
      NextIsSafe(k.0, k.1);
    }
    forall s | Onward(s).Toward? ensures GoesOn(m, s) {
      OnwardTaken(s);
    }
  }

  /** A call stays where the machine is or follows a transition. */
  lemma OneMove(m: Provisioning, call: Step)
    requires Behaves(m) && call.ProcessEvent?
    ensures var m' := Apply(m, call).0;
            && Behaves(m')
            && (m'.current == m.current ||
                (m.current.Some? && m'.current.Some?
                 && Safe(AddTransition(m.current.value, m'.current.value, call.event))))
  {
    ApplyKeeps(m, call);
    RunKeepsTable(m, call);
    var m' := Apply(m, call).0;
    forall s | Onward(s).Toward? ensures GoesOn(m', s) {
      assert GoesOn(m, s);
    }
  }

  lemma AtNext(m: Provisioning, calls: seq<Step>, i: nat)
    requires Inv(m) && i < |calls|
    ensures At(m, calls, i + 1) == Apply(At(m, calls, i), calls[i]).0
  {
    assert calls[..i + 1][..i] == calls[..i];
  }

  lemma StepBehaves(m: Provisioning, calls: seq<Step>, i: nat)
    requires Inv(m) && EventsOnly(calls) && i < |calls| && Behaves(At(m, calls, i))
    ensures Behaves(At(m, calls, i + 1))
  {
    AtNext(m, calls, i);
    assert calls[i] in calls;
    OneMove(At(m, calls, i), calls[i]);
  }

  lemma {:induction false} AtBehaves(m: Provisioning, calls: seq<Step>, i: nat)
    requires Behaves(m) && EventsOnly(calls) && i <= |calls|
    ensures Behaves(At(m, calls, i))
  {
    if i == 0 {
    } else {
      AtBehaves(m, calls, i - 1);
      StepBehaves(m, calls, i - 1);
    }
  }

  /** What a run can do in its `i`th step. */
  lemma MoveAt(m: Provisioning, calls: seq<Step>, i: nat)
    requires Behaves(m) && EventsOnly(calls) && i < |calls|
    ensures var a, b := At(m, calls, i).current, At(m, calls, i + 1).current;
            || b == a
            || (a.Some? && b.Some? && var edge := AddTransition(a.value, b.value, calls[i].event);
                Safe(edge) && Takes(m, calls, i, edge))
  {
    AtBehaves(m, calls, i);
    AtNext(m, calls, i);
    assert calls[i] in calls;
    OneMove(At(m, calls, i), calls[i]);
  }

  /** Outside the occupied states, the run was there before or just took the clean-up step. */
  lemma OutOfOccupied(m: Provisioning, calls: seq<Step>, i: nat)
    requires Behaves(m) && EventsOnly(calls) && i < |calls|
    requires At(m, calls, i + 1).current.Some? && !Occupied(At(m, calls, i + 1).current.value)
    ensures At(m, calls, i).current.Some?
    ensures Takes(m, calls, i, CLEAN_UP) || !Occupied(At(m, calls, i).current.value)
  {
    MoveAt(m, calls, i);
  }

  /** A run that leaves the occupied states does so by the clean-up step. */
  lemma {:induction false} LeavesOccupied(m: Provisioning, calls: seq<Step>, n: nat) returns (i: nat)
    requires Behaves(m) && EventsOnly(calls) && n <= |calls|
    requires m.current.Some? && Occupied(m.current.value)
    requires At(m, calls, n).current.Some? && !Occupied(At(m, calls, n).current.value)
    ensures i < n && Takes(m, calls, i, CLEAN_UP)
  {
    assert calls[..0] == [];
    i := n - 1;
    OutOfOccupied(m, calls, i);
    if Takes(m, calls, i, CLEAN_UP) {
    } else {
      i := LeavesOccupied(m, calls, n - 1);
    }
  }

  lemma OutOfEnrolling(m: Provisioning, calls: seq<Step>, i: nat)
    requires Behaves(m) && EventsOnly(calls) && i < |calls|
    requires At(m, calls, i + 1).current.Some? && !Enrolling(At(m, calls, i + 1).current.value)
    ensures At(m, calls, i).current.Some?
    ensures Takes(m, calls, i, VERIFIED) || !Enrolling(At(m, calls, i).current.value)
  {
    MoveAt(m, calls, i);
  }

  lemma {:induction false} LeavesEnrolling(m: Provisioning, calls: seq<Step>, n: nat) returns (i: nat)
    requires Behaves(m) && EventsOnly(calls) && n <= |calls|
    requires m.current.Some? && Enrolling(m.current.value)
    requires At(m, calls, n).current.Some? && !Enrolling(At(m, calls, n).current.value)
    ensures i < n && Takes(m, calls, i, VERIFIED)
  {
    assert calls[..0] == [];
    i := n - 1;
    OutOfEnrolling(m, calls, i);
    if Takes(m, calls, i, VERIFIED) {
    } else {
      i := LeavesEnrolling(m, calls, n - 1);
    }
  }

  /** From its `a`th to its `b`th step the run stays available. */
  predicate RestsAvailable(m: Provisioning, calls: seq<Step>, a: nat, b: nat)
    requires Inv(m) && b <= |calls|
  {
    forall k :: a <= k <= b ==> At(m, calls, k).current == Some(Available)
  }

  lemma RestsOneMore(m: Provisioning, calls: seq<Step>, a: nat, b: nat)
    requires Inv(m) && b < |calls|
    requires a <= b ==> RestsAvailable(m, calls, a, b)
    requires At(m, calls, b + 1).current == Some(Available)
    ensures RestsAvailable(m, calls, a, b + 1)
  {
    forall k: nat | a <= k <= b + 1 ensures At(m, calls, k).current == Some(Available) {
      if k <= b {
        assert RestsAvailable(m, calls, a, b);
      }
    }
  }

  /** The last time a run comes into AVAILABLE. */
  lemma {:induction false} LastEntry(m: Provisioning, calls: seq<Step>, n: nat) returns (j: nat)
    requires Behaves(m) && EventsOnly(calls) && n <= |calls|
    requires m.current.Some? && m.current.value != Available && At(m, calls, n).current == Some(Available)
    ensures j < n && Takes(m, calls, j, AddTransition(Cleaning, Available, Verb.Done))
    ensures RestsAvailable(m, calls, j + 1, n)
  {
    assert calls[..0] == [];
    j := n - 1;
    if At(m, calls, j).current == Some(Available) {
      j := LastEntry(m, calls, n - 1);
    } else {
      EntersAvailable(m, calls, j);
    }
    RestsOneMore(m, calls, j + 1, n - 1);
  }

  lemma EntersAvailable(m: Provisioning, calls: seq<Step>, j: nat)
    requires Behaves(m) && EventsOnly(calls) && j < |calls|
    requires At(m, calls, j).current != Some(Available) && At(m, calls, j + 1).current == Some(Available)
    ensures Takes(m, calls, j, AddTransition(Cleaning, Available, Verb.Done))
  {
    MoveAt(m, calls, j);
  }

  /** However long the run: a node that was active is torn down and cleaned before it is available. */
  lemma ActiveToAvailable(m: Provisioning, calls: seq<Step>) returns (i: nat, j: nat)
    requires IsProvisioning(m) && EventsOnly(calls)
    requires m.current == Some(Active) && RunCalls(m, calls).current == Some(Available)
    ensures i < j < |calls|
    ensures Takes(m, calls, i, AddTransition(Deleting, Cleaning, Verb.Clean))
    ensures Takes(m, calls, j, AddTransition(Cleaning, Available, Verb.Done))
    ensures RestsAvailable(m, calls, j + 1, |calls|)
  {
    ProvisioningBehaves(m);
    assert calls[..|calls|] == calls;
    i := LeavesOccupied(m, calls, |calls|);
    j := LastEntry(m, calls, |calls|);
    assert At(m, calls, i + 1).current == Some(Cleaning);
    assert At(m, calls, i).current == Some(Deleting);
  }

  lemma {:induction false} StaysStarted(m: Provisioning, calls: seq<Step>, n: nat)
    requires Behaves(m) && EventsOnly(calls) && n <= |calls| && m.current.Some?
    ensures At(m, calls, n).current.Some?
  {
    if n == 0 {
      assert calls[..0] == [];
    } else {
      StaysStarted(m, calls, n - 1);
      MoveAt(m, calls, n - 1);
    }
  }

  /** A node gets out of enrolment only by being verified. */
  lemma EnrollIsVerified(m: Provisioning, calls: seq<Step>) returns (i: nat)
    requires IsProvisioning(m) && EventsOnly(calls) && m.current == Some(Enroll)
    requires RunCalls(m, calls).current != Some(Enroll) && RunCalls(m, calls).current != Some(Verifying)
    ensures i < |calls| && Takes(m, calls, i, AddTransition(Verifying, Manageable, Verb.Done))
  {
    ProvisioningBehaves(m);
    assert calls[..|calls|] == calls;
    StaysStarted(m, calls, |calls|);
    i := LeavesEnrolling(m, calls, |calls|);
  }

  // ---------------------------------------------------------------------------
  // Targets
  // ---------------------------------------------------------------------------

  /** With explicit targets that `initialize` accepts, an unstable node always knows a stable target. */
  lemma UnstableIsGuided(calls: seq<Step>)
    requires Runs(calls) && Careful(Built(), calls)
    ensures var m := RunCalls(Built(), calls);
            m.current.Some? && m.current.value !in STABLE_STATES ==>
              m.target.Some? && m.target.value in STABLE_STATES
  {
    TableRespects();
    CarefulRunsAreGuided(Built(), calls);
    RunsKeepTable(Built(), calls);
    var m := RunCalls(Built(), calls);
    if m.current.Some? {
      StableListed(m.current.value);
      if m.target.Some? {
        StableListed(m.target.value);
      }
    }
  }

  lemma DeletionMayFail()
    ensures (Deleting, Verb.Fail) in Built().transitions
    ensures Built().transitions[(Deleting, Verb.Fail)] == Error
  {
    assert AfterFail(Deleting) == To(Error);
    TableExactly(Deleting, Verb.Fail);
  }

  lemma ErrorHasNoTarget()
    ensures Error in Built().states && Built().states[Error].target.None?
  {
    assert Default(Error) == None;
    AllRegistered(Error);
  }

  /** A failed tear-down: the node is in ERROR and still bound for AVAILABLE. */
  lemma FailedDeletionKeepsTarget(m: Provisioning)
    requires IsProvisioning(m) && m.current == Some(Deleting) && m.target == Some(Available)
    ensures var (m', o) := Apply(m, ProcessEvent(Verb.Fail, None));
            o == Accepted && m'.current == Some(Error) && m'.target == Some(Available)
  {
    DeletionMayFail();
    ErrorHasNoTarget();
    EventTargets(m, Verb.Fail, Error);
  }

  /** Not so with any targets: a rejected one leaves the node cleaning, bound for nowhere. */
  lemma RejectedTargetStrands()
    ensures var (m, o) := Apply(Built(), Initialize(Some(Cleaning), Some(Deploying)));
            o == InvalidState && m.current == Some(Cleaning) && m.target == None
  {
    AllRegistered(Cleaning);
    AllRegistered(Deploying);
    TableRespects();
  }

  /** The events that take a node in `s` to its target `t`. */
  function Way(s: Provision, t: Provision): seq<Step>
    decreases if Onward(s).Toward? then Onward(s).left else 0
  {
    if s == t || Onward(s).Arrived? then []
    else [ProcessEvent(Onward(s).verb, None)] + Way(Onward(s).next, t)
  }

  predicate OnTheWay(s: Provision, t: Provision) {
    s == t || Default(s) == Some(t) || (s == Manageable && t == Available)
  }

  /** How far it is from `s` to `t`. */
  function Distance(s: Provision, t: Provision): nat {
    if s == t || Onward(s).Arrived? then 0 else Onward(s).left
  }

  lemma OnwardStaysOnTheWay(s: Provision, t: Provision)
    requires OnTheWay(s, t) && s != t
    ensures Onward(s).Toward? && OnTheWay(Onward(s).next, t)
  {
    if s == Manageable {
      assert t == Available;
    } else {
      assert Default(s) == Some(t);
    }
  }

  lemma DistanceDrops(s: Provision, t: Provision)
    requires OnTheWay(s, t) && s != t && Onward(s).Toward?
    ensures Distance(Onward(s).next, t) < Distance(s, t)
  {
    if s == Manageable {
      assert t == Available;
    } else {
      assert Default(s) == Some(t);
    }
  }

  lemma WayUnfolds(s: Provision, t: Provision) returns (v: Verb, next: Provision)
    requires OnTheWay(s, t) && s != t
    ensures Onward(s).Toward? && Onward(s).verb == v && Onward(s).next == next
    ensures OnTheWay(next, t) && Distance(next, t) < Distance(s, t)
    ensures Way(s, t) == [ProcessEvent(v, None)] + Way(next, t)
  {
    OnwardStaysOnTheWay(s, t);
    DistanceDrops(s, t);
    v, next := Onward(s).verb, Onward(s).next;
  }

  lemma OneEvent(m: Provisioning, s: Provision, v: Verb, next: Provision)
    requires Inv(m) && m.current == Some(s) && (s, v) in m.transitions && m.transitions[(s, v)] == next
    ensures RunCalls(m, [ProcessEvent(v, None)]) == Apply(m, ProcessEvent(v, None)).0
    ensures Apply(m, ProcessEvent(v, None)).0.current == Some(next)
  {
    var call: Step := ProcessEvent(v, None);
    assert [call][..0] == [];
    assert RunCalls(m, [call][..0]) == m;
  }

  lemma {:induction false} WayWorks(m: Provisioning, s: Provision, t: Provision)
    requires Behaves(m) && m.current == Some(s) && OnTheWay(s, t)
    ensures RunCalls(m, Way(s, t)).current == Some(t)
    decreases Distance(s, t)
  {
    if s == t {
    } else {
      var v, next := WayUnfolds(s, t);
      assert GoesOn(m, s);
      OneEvent(m, s, v, next);
      OneMove(m, ProcessEvent(v, None));
      RunCallsConcat(m, [ProcessEvent(v, None)], Way(next, t));
      WayWorks(Apply(m, ProcessEvent(v, None)).0, next, t);
    }
  }

  /** From every unstable state some run ends in its default target. */
  lemma TargetsAreReachable(m: Provisioning)
    requires IsProvisioning(m) && m.current.Some? && m.states[m.current.value].target.Some?
    ensures var t := m.states[m.current.value].target;
            RunCalls(m, Way(m.current.value, t.value)).current == t
  {
    ProvisioningBehaves(m);
    AllRegistered(m.current.value);
    WayWorks(m, m.current.value, Default(m.current.value).value);
  }

  // ---------------------------------------------------------------------------
  // Stuck states
  // ---------------------------------------------------------------------------

  lemma StuckListed(s: Provision)
    ensures s in STUCK_STATES_TREATED_AS_FAIL <==>
              AfterFail(s).To? && AfterResume(s).Nowhere? && AfterUnhold(s).Nowhere?
  {
  }

  lemma FailTaken(s: Provision)
    ensures (s, Verb.Fail) in Built().transitions <==> AfterFail(s).To?
  {
    TableExactly(s, Verb.Fail);
  }

  lemma ResumeTaken(s: Provision)
    ensures (s, Verb.Resume) in Built().transitions <==> AfterResume(s).To?
  {
    TableExactly(s, Verb.Resume);
  }

  lemma UnholdTaken(s: Provision)
    ensures (s, Verb.Unhold) in Built().transitions <==> AfterUnhold(s).To?
  {
    TableExactly(s, Verb.Unhold);
  }

  /** The states listed as stuck are just those that can fail and cannot be resumed. */
  lemma StuckExactly(s: Provision)
    ensures s in STUCK_STATES_TREATED_AS_FAIL <==>
              && (s, Verb.Fail) in Built().transitions
              && (s, Verb.Resume) !in Built().transitions && (s, Verb.Unhold) !in Built().transitions
  {
    StuckListed(s);
    FailTaken(s);
    ResumeTaken(s);
    UnholdTaken(s);
  }

  /** A node stuck when its conductor died can be failed, and ends up in a state of failure. */
  lemma StuckStatesFail(s: Provision)
    requires s in STUCK_STATES_TREATED_AS_FAIL
    ensures (s, Verb.Fail) in Built().transitions
    ensures var end := Built().transitions[(s, Verb.Fail)];
            end in FAILURE_STATES || (s == Verifying && end == Enroll) || (s == Deleting && end == Error)
  {
    StuckExactly(s);
    VerbLaws(s, Verb.Fail);
  }
}
