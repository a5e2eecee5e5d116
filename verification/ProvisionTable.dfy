/**
 What the calls of the provisioning machine build: the default target of every state, and the
 table of transitions, verb by verb.
 */
module ProvisionTable {
  import opened Wrappers
  import opened Fsm
  import opened ProvisionStates

  /** The default target of each state; the stable ones have none. */
  function Default(s: Provision): Option<Provision> {
    match s
    case Verifying | Inspecting | InspectFail | InspectWait => Some(Manageable)
    case Deploying | DeployWait | DeployFail | DeployHold | Adopting | AdoptFail => Some(Active)
    case Unrescuing | UnrescueFail | Servicing | ServiceWait | ServiceFail | ServiceHold => Some(Active)
    case Cleaning | CleanWait | CleanFail | CleanHold | Deleting => Some(Available)
    case Rescuing | RescueWait | RescueFail => Some(Provision.Rescue)
    case _ => None
  }

  // ---------------------------------------------------------------------------
  // The table, verb by verb
  // ---------------------------------------------------------------------------

  /** Where an event leads, if anywhere. */
  datatype Destination = To(state: Provision) | Nowhere

  function AfterDeploy(s: Provision): (d: Destination)
    ensures d.To? ==> d.state == Deploying
  {
    match s
    case Available | DeployFail => To(Deploying)
    case _ => Nowhere
  }

  function AfterRebuild(s: Provision): (d: Destination)
    ensures d.To? ==> d.state == Deploying
  {
    match s
    case DeployFail | Active | Error => To(Deploying)
    case _ => Nowhere
  }

  function AfterDelete(s: Provision): (d: Destination)
    ensures d.To? ==> d.state == Deleting
  {
    match s
    case Active | DeployWait | DeployFail | Error | Rescue | RescueFail | RescueWait => To(Deleting)
    case UnrescueFail | ServiceFail | ServiceWait => To(Deleting)
    case _ => Nowhere
  }

  function AfterClean(s: Provision): (d: Destination)
    ensures d.To? ==> d.state == Cleaning
  {
    match s
    case Deleting | Manageable => To(Cleaning)
    case _ => Nowhere
  }

  function AfterProvide(s: Provision): (d: Destination)
    ensures d.To? ==> d.state == Cleaning
  {
    match s
    case Manageable => To(Cleaning)
    case _ => Nowhere
  }

  function AfterManage(s: Provision): (d: Destination)
    ensures d.To? ==> d.state == if s == Enroll then Verifying else Manageable
  {
    match s
    case CleanFail | Cleaning | Available | InspectFail | AdoptFail => To(Manageable)
    case Enroll => To(Verifying)
    case _ => Nowhere
  }

  function AfterInspect(s: Provision): (d: Destination)
    ensures d.To? ==> d.state == Inspecting
  {
    match s
    case Manageable | InspectFail => To(Inspecting)
    case _ => Nowhere
  }

  function AfterAdopt(s: Provision): (d: Destination)
    ensures d.To? ==> d.state == Adopting
  {
    match s
    case Manageable | AdoptFail => To(Adopting)
    case _ => Nowhere
  }

  function AfterRescue(s: Provision): (d: Destination)
    ensures d.To? ==> d.state == Rescuing
  {
    match s
    case Active | Rescue | RescueFail | UnrescueFail | ServiceFail => To(Rescuing)
    case _ => Nowhere
  }

  function AfterUnrescue(s: Provision): (d: Destination)
    ensures d.To? ==> d.state == Unrescuing
  {
    match s
    case RescueFail | Rescue | UnrescueFail => To(Unrescuing)
    case _ => Nowhere
  }

  function AfterService(s: Provision): (d: Destination)
    ensures d.To? ==> d.state == Servicing
  {
    match s
    case Active | ServiceHold | ServiceFail => To(Servicing)
    case _ => Nowhere
  }

  function AfterDone(s: Provision): (d: Destination)
    ensures d.To? ==> d.state != Available || s == Cleaning
  {
    match s
    case Deploying | Unrescuing | Adopting | Servicing => To(Active)
    case Cleaning => To(Available)
    case Inspecting | InspectWait | Verifying => To(Manageable)
    case Rescuing => To(Provision.Rescue)
    case _ => Nowhere
  }

  function AfterFail(s: Provision): (d: Destination)
    ensures d.To? ==> d.state != Available
  {
    match s
    case Deploying | DeployWait => To(DeployFail)
    case Deleting => To(Error)
    case Cleaning | CleanWait => To(CleanFail)
    case Inspecting | InspectWait => To(InspectFail)
    case RescueWait | Rescuing => To(RescueFail)
    case Unrescuing => To(UnrescueFail)
    case Verifying => To(Enroll)
    case Adopting => To(AdoptFail)
    case Servicing | ServiceWait | ServiceHold => To(ServiceFail)
    case _ => Nowhere
  }

  function AfterAbort(s: Provision): (d: Destination)
    ensures d.To? ==> d.state != Available
  {
    match s
    case DeployHold | DeployWait => To(DeployFail)
    case CleanWait | CleanHold => To(CleanFail)
    case InspectWait => To(InspectFail)
    case RescueWait => To(RescueFail)
    case ServiceWait | ServiceHold => To(ServiceFail)
    case ServiceFail => To(Active)
    case _ => Nowhere
  }

  function AfterWait(s: Provision): (d: Destination)
    ensures d.To? ==> d.state != Available
  {
    match s
    case Deploying => To(DeployWait)
    case Cleaning => To(CleanWait)
    case Inspecting => To(InspectWait)
    case Rescuing => To(RescueWait)
    case Servicing | ServiceFail => To(ServiceWait)
    case _ => Nowhere
  }

  function AfterResume(s: Provision): (d: Destination)
    ensures d.To? ==> d.state != Available
  {
    match s
    case DeployWait => To(Deploying)
    case CleanWait => To(Cleaning)
    case InspectWait => To(Inspecting)
    case RescueWait => To(Rescuing)
    case ServiceWait => To(Servicing)
    case _ => Nowhere
  }

  function AfterHold(s: Provision): (d: Destination)
    ensures d.To? ==> d.state != Available
  {
    match s
    case Deploying | DeployWait => To(DeployHold)
    case Cleaning | CleanWait => To(CleanHold)
    case Servicing | ServiceWait | ServiceFail => To(ServiceHold)
    case _ => Nowhere
  }

  function AfterUnhold(s: Provision): (d: Destination)
    ensures d.To? ==> d.state != Available
  {
    match s
    case DeployHold => To(DeployWait)
    case CleanHold => To(CleanWait)
    case ServiceHold => To(ServiceWait)
    case _ => Nowhere
  }

  /** The table, verb by verb. */
  function Next(s: Provision, v: Verb): Destination {
    match v
    case Deploy => AfterDeploy(s)
    case Rebuild => AfterRebuild(s)
    case Delete => AfterDelete(s)
    case Clean => AfterClean(s)
    case Provide => AfterProvide(s)
    case Manage => AfterManage(s)
    case Inspect => AfterInspect(s)
    case Adopt => AfterAdopt(s)
    case Rescue => AfterRescue(s)
    case Unrescue => AfterUnrescue(s)
    case Service => AfterService(s)
    case Done => AfterDone(s)
    case Fail => AfterFail(s)
    case Abort => AfterAbort(s)
    case Wait => AfterWait(s)
    case Resume => AfterResume(s)
    case Hold => AfterHold(s)
    case Unhold => AfterUnhold(s)
  }

  /** What each call has to respect: the default targets, none for stable states, and the table. */
  predicate Respects(c: Step) {
    match c
    case AddState(s, stable, default) => default == Default(s) && (stable <==> default.None?)
    case AddTransition(_, _, _) => Next(c.start, c.event) == To(c.end)
    case _ => false
  }

  predicate Service(s: Provision) {
    s == Servicing || s == ServiceWait || s == ServiceFail || s == ServiceHold
  }

  /** A transition that needs none of the states registered last. */
  predicate BeforeService(c: Step) {
    c.AddTransition? && !Service(c.start) && !Service(c.end)
  }

  /** A list of states, of transitions between early states, and of transitions. */
  predicate StatesRespect(steps: seq<Step>) {
    forall c :: c in steps ==> c.AddState? && Respects(c)
  }

  predicate EarlyEdgesRespect(steps: seq<Step>) {
    forall c :: c in steps ==> BeforeService(c) && Respects(c)
  }

  predicate EdgesRespect(steps: seq<Step>) {
    forall c :: c in steps ==> c.AddTransition? && Respects(c)
  }

  lemma DeployStatesRespect()
    ensures StatesRespect(DEPLOY_STATES)
  {
  }

  lemma CleanStatesRespect()
    ensures StatesRespect(CLEAN_STATES)
  {
  }

  lemma InspectAndAdoptStatesRespect()
    ensures StatesRespect(INSPECT_AND_ADOPT_STATES)
  {
  }

  lemma RescueStatesRespect()
    ensures StatesRespect(RESCUE_STATES)
  {
  }

  lemma ServiceStatesRespect()
    ensures StatesRespect(SERVICE_STATES)
  {
  }

  lemma FirstDeployRespect()
    ensures EarlyEdgesRespect(FIRST_DEPLOY)
  {
  }

  lemma DeployEdgesRespect()
    ensures EarlyEdgesRespect(DEPLOY_EDGES)
  {
  }

  lemma DeployWaitEdgesRespect()
    ensures EarlyEdgesRespect(DEPLOY_WAIT_EDGES)
  {
  }

  lemma DeployedEdgesRespect()
    ensures EarlyEdgesRespect(DEPLOYED_EDGES)
  {
  }

  lemma CleanEdgesRespect()
    ensures EarlyEdgesRespect(CLEAN_EDGES)
  {
  }

  lemma CleanWaitEdgesRespect()
    ensures EarlyEdgesRespect(CLEAN_WAIT_EDGES)
  {
  }

  lemma ManageEdgesRespect()
    ensures EarlyEdgesRespect(MANAGE_EDGES)
  {
  }

  lemma ErrorEdgesRespect()
    ensures EarlyEdgesRespect(ERROR_EDGES)
  {
  }

  lemma InspectEdgesRespect()
    ensures EarlyEdgesRespect(INSPECT_EDGES)
  {
  }

  lemma InspectWaitEdgesRespect()
    ensures EarlyEdgesRespect(INSPECT_WAIT_EDGES)
  {
  }

  lemma RescueEdgesRespect()
    ensures EarlyEdgesRespect(RESCUE_EDGES)
  {
  }

  lemma RescuedEdgesRespect()
    ensures EarlyEdgesRespect(RESCUED_EDGES)
  {
  }

  lemma RescueFailEdgesRespect()
    ensures EarlyEdgesRespect(RESCUE_FAIL_EDGES)
  {
  }

  lemma UnrescueEdgesRespect()
    ensures EarlyEdgesRespect(UNRESCUE_EDGES)
  {
  }

  lemma EnrollEdgesRespect()
    ensures EarlyEdgesRespect(ENROLL_EDGES)
  {
  }

  lemma AdoptEdgesRespect()
    ensures EarlyEdgesRespect(ADOPT_EDGES)
  {
  }

  lemma InspectFailEdgesRespect()
    ensures EarlyEdgesRespect(INSPECT_FAIL_EDGES)
  {
  }

  lemma RescueWaitEdgesRespect()
    ensures EarlyEdgesRespect(RESCUE_WAIT_EDGES)
  {
  }

  lemma UnrescueFailEdgesRespect()
    ensures EarlyEdgesRespect(UNRESCUE_FAIL_EDGES)
  {
  }

  lemma ServiceEdgesRespect()
    ensures EdgesRespect(SERVICE_EDGES)
  {
  }

  lemma ServiceWaitEdgesRespect()
    ensures EdgesRespect(SERVICE_WAIT_EDGES)
  {
  }

  lemma ServiceAbortEdgesRespect()
    ensures EdgesRespect(SERVICE_ABORT_EDGES)
  {
  }

  lemma ServiceFailEdgesRespect()
    ensures EdgesRespect(SERVICE_FAIL_EDGES)
  {
  }

  lemma ServiceEndEdgesRespect()
    ensures EdgesRespect(SERVICE_END_EDGES)
  {
  }

  lemma FirstStepsRespect(c: Step)
    requires c in FIRST_STEPS
    ensures Respects(c) && (c.AddTransition? ==> c in FIRST_DEPLOY)
  {
    DeployStatesRespect();
    CleanStatesRespect();
    InspectAndAdoptStatesRespect();
    RescueStatesRespect();
    FirstDeployRespect();
  }

  lemma MiddleStepsRespect(c: Step)
    requires c in MIDDLE_STEPS
    ensures Respects(c) && (c.AddTransition? ==> BeforeService(c))
  {
    DeployEdgesRespect();
    DeployWaitEdgesRespect();
    DeployedEdgesRespect();
    CleanEdgesRespect();
    CleanWaitEdgesRespect();
    ManageEdgesRespect();
    ErrorEdgesRespect();
    InspectEdgesRespect();
    InspectWaitEdgesRespect();
    InspectFailEdgesRespect();
    RescueEdgesRespect();
    RescuedEdgesRespect();
    RescueWaitEdgesRespect();
    RescueFailEdgesRespect();
    UnrescueEdgesRespect();
    UnrescueFailEdgesRespect();
    EnrollEdgesRespect();
    AdoptEdgesRespect();
    ServiceStatesRespect();
  }

  lemma LastStepsRespect(c: Step)
    requires c in LAST_STEPS
    ensures Respects(c) && c.AddTransition?
  {
    ServiceEdgesRespect();
    ServiceWaitEdgesRespect();
    ServiceAbortEdgesRespect();
    ServiceFailEdgesRespect();
    ServiceEndEdgesRespect();
  }

  lemma LoopRespects(c: Step)
    requires c in StableSteps(STABLE_STATES)
    ensures Respects(c)
  {
    var i :| 0 <= i < |STABLE_STATES| && c == StableSteps(STABLE_STATES)[i];
    StableListed(STABLE_STATES[i]);
  }

  lemma BuildRespects(c: Step)
    requires c in BUILD
    ensures Respects(c)
  {
    if c in StableSteps(STABLE_STATES) {
      LoopRespects(c);
    } else if c in FIRST_STEPS {
      FirstStepsRespect(c);
    } else if c in MIDDLE_STEPS {
      MiddleStepsRespect(c);
    } else {
      LastStepsRespect(c);
    }
  }

  lemma BuildBuilds()
    ensures Builds(BUILD)
  {
    forall c | c in BUILD ensures Respects(c) {
      BuildRespects(c);
    }
  }

  // ---------------------------------------------------------------------------
  // The table that results
  // ---------------------------------------------------------------------------

  lemma TableRespects()
    ensures UnstableHaveDefaults(Built())
    ensures forall s :: s in Built().states ==> Built().states[s] == StateInfo(Default(s).None?, Default(s))
    ensures forall k :: k in Built().transitions ==>
              Call.AddTransition(k.0, Built().transitions[k], k.1) in BUILD
    ensures Built().current.None? && Built().target.None?
  {
    BuildBuilds();
    BuiltFromCalls(BUILD);
    var m := Built();
    forall s | s in m.states ensures Respects(AddState(s, m.states[s].stable, m.states[s].target)) {
      BuildRespects(AddState(s, m.states[s].stable, m.states[s].target));
    }
  }

  // ---------------------------------------------------------------------------
  // Every call has its effect
  // ---------------------------------------------------------------------------

  lemma EarlyStateListed(s: Provision)
    requires Default(s).Some?
    ensures s.Verifying? || s.Deploying? || s.DeployWait? || s.DeployFail? || s.DeployHold? ==>
              AddState(s, false, Default(s)) in DEPLOY_STATES
    ensures s.Cleaning? || s.CleanWait? || s.CleanFail? || s.CleanHold? || s.Deleting? ==>
              AddState(s, false, Default(s)) in CLEAN_STATES
  {
  }

  lemma MoreStateListed(s: Provision)
    requires Default(s).Some?
    ensures s.Inspecting? || s.InspectFail? || s.InspectWait? || s.Adopting? || s.AdoptFail? ==>
              AddState(s, false, Default(s)) in INSPECT_AND_ADOPT_STATES
    ensures s.Rescuing? || s.RescueWait? || s.RescueFail? || s.Unrescuing? || s.UnrescueFail? ==>
              AddState(s, false, Default(s)) in RESCUE_STATES
  {
  }

  lemma ServiceStateListed(s: Provision)
    requires Service(s)
    ensures AddState(s, false, Default(s)) in SERVICE_STATES
  {
  }

  lemma UnstableListed(s: Provision)
    requires Default(s).Some?
    ensures AddState(s, false, Default(s)) in (if Service(s) then MIDDLE_STEPS else FIRST_STEPS)
  {
    if Service(s) {
      ServiceStateListed(s);
    } else {
      EarlyStateListed(s);
      MoreStateListed(s);
    }
  }

  lemma DefaultIsStable(s: Provision)
    ensures Default(s).Some? ==> Default(s).value in STABLE_STATES
  {
  }

  lemma StableListed(s: Provision)
    ensures s in STABLE_STATES <==> Default(s).None?
  {
  }

  function AfterLoop(): (m: Provisioning)
    ensures Inv(m)
  {
    RunCalls(Empty(), StableSteps(STABLE_STATES))
  }

  lemma LoopBuilds(states: seq<Provision>)
    ensures Builds(StableSteps(states))
    ensures forall c :: c in StableSteps(states) ==> c.AddState? && c.stable
  {
    forall c | c in StableSteps(states) ensures c.AddState? && c.stable {
      var i :| 0 <= i < |states| && StableSteps(states)[i] == c;
    }
  }

  lemma BuiltStable(m: Provisioning, steps: seq<Step>, s: Provision)
    requires Traced(m, steps) && s in m.states && forall c :: c in steps ==> c.AddState? && c.stable
    ensures m.IsStableState(s)
  {
    assert Call.AddState(s, m.states[s].stable, m.states[s].target) in steps;
  }

  lemma LoopRegisters(states: seq<Provision>, i: nat)
    requires i < |states|
    ensures RunCalls(Empty<Provision, Verb>(), StableSteps(states)).IsStableState(states[i])
  {
    var steps := StableSteps(states);
    CallTakesEffect(Empty<Provision, Verb>(), steps, i);
    LoopBuilds(states);
    BuiltFromCalls(steps);
    BuiltStable(RunCalls(Empty<Provision, Verb>(), steps), steps, states[i]);
  }

  lemma StableRegistered(s: Provision)
    requires s in STABLE_STATES
    ensures AfterLoop().IsStableState(s)
  {
    var i :| 0 <= i < |STABLE_STATES| && STABLE_STATES[i] == s;
    LoopRegisters(STABLE_STATES, i);
  }

  /** A state is there after any stretch of calls that adds it. */
  lemma RegisteredAfter(s: Provision, steps: seq<Step>)
    requires Default(s).Some? ==> AddState(s, false, Default(s)) in steps
    ensures s in RunCalls(AfterLoop(), steps).states
  {
    BuildingGrows(AfterLoop(), steps);
    StableListed(s);
    if Default(s).None? {
      StableRegistered(s);
    } else {
      DefaultIsStable(s);
      StableRegistered(Default(s).value);
      var i :| 0 <= i < |steps| && steps[i] == AddState(s, false, Default(s));
      CallTakesEffect(AfterLoop(), steps, i);
    }
  }

  lemma BuiltInParts(a: seq<Step>, b: seq<Step>)
    requires LATER_STEPS == a + b
    ensures Built() == RunCalls(RunCalls(AfterLoop(), a), b)
  {
    RunCallsConcat(Empty<Provision, Verb>(), StableSteps(STABLE_STATES), LATER_STEPS);
    RunCallsConcat(AfterLoop(), a, b);
  }

  lemma AllRegistered(s: Provision)
    ensures s in Built().states && Built().states[s] == StateInfo(Default(s).None?, Default(s))
  {
    if Default(s).Some? {
      UnstableListed(s);
    }
    assert LATER_STEPS == LATER_STEPS + [];
    BuiltInParts(LATER_STEPS, []);
    RegisteredAfter(s, LATER_STEPS);
    TableRespects();
  }

  /** A listed transition whose states are there in time ends up in the table. */
  lemma TransitionAdded(c: Step, a: seq<Step>, b: seq<Step>)
    requires LATER_STEPS == a + b && c in b && c.AddTransition?
    requires Default(c.start).Some? ==> AddState(c.start, false, Default(c.start)) in a
    requires Default(c.end).Some? ==> AddState(c.end, false, Default(c.end)) in a
    ensures (c.start, c.event) in Built().transitions
  {
    BuiltInParts(a, b);
    RegisteredAfter(c.start, a);
    RegisteredAfter(c.end, a);
    var i :| 0 <= i < |b| && b[i] == c;
    CallTakesEffect(RunCalls(AfterLoop(), a), b, i);
  }

  lemma Reassociated(a: seq<Step>, b: seq<Step>, c: seq<Step>, d: seq<Step>, e: seq<Step>)
    ensures a + b + c + d + e == a + (b + c + d + e)
    ensures a + b + c + d + e == (a + b + c) + (d + e)
  {
  }

  lemma DeployingIsEarly()
    ensures AddState(Deploying, false, Default(Deploying)) in EARLY_STATES
  {
    assert AddState(Deploying, false, Default(Deploying)) in DEPLOY_STATES;
  }

  lemma FirstTransition()
    ensures FIRST_DEPLOY == [AddTransition(Available, Deploying, Verb.Deploy)]
    ensures (Available, Verb.Deploy) in Built().transitions
  {
    var c := AddTransition(Available, Deploying, Verb.Deploy);
    assert c in FIRST_DEPLOY;
    DeployingIsEarly();
    Reassociated(EARLY_STATES, FIRST_DEPLOY, MORE_STATES, MIDDLE_STEPS, LAST_STEPS);
    TransitionAdded(c, EARLY_STATES, FIRST_DEPLOY + MORE_STATES + MIDDLE_STEPS + LAST_STEPS);
  }

  /** No transition is listed before its states: each ends up in the table, under its event. */
  lemma ListedIsTaken(c: Step)
    requires c in LATER_STEPS && c.AddTransition?
    ensures (c.start, c.event) in Built().transitions
  {
    if Default(c.start).Some? {
      UnstableListed(c.start);
    }
    if Default(c.end).Some? {
      UnstableListed(c.end);
    }
    if c in LAST_STEPS {
      TransitionAdded(c, FIRST_STEPS + MIDDLE_STEPS, LAST_STEPS);
    } else if c in MIDDLE_STEPS {
      MiddleStepsRespect(c);
      Reassociated(EARLY_STATES, FIRST_DEPLOY, MORE_STATES, MIDDLE_STEPS, LAST_STEPS);
      TransitionAdded(c, FIRST_STEPS, MIDDLE_STEPS + LAST_STEPS);
    } else {
      FirstStepsRespect(c);
      FirstTransition();
    }
  }

  /** Each list is part of the whole. */
  lemma AllListed()
    ensures forall c :: c in FIRST_DEPLOY ==> c in LATER_STEPS
    ensures forall c :: c in DEPLOY_EDGES ==> c in LATER_STEPS
    ensures forall c :: c in DEPLOY_WAIT_EDGES ==> c in LATER_STEPS
    ensures forall c :: c in DEPLOYED_EDGES ==> c in LATER_STEPS
    ensures forall c :: c in CLEAN_EDGES ==> c in LATER_STEPS
    ensures forall c :: c in CLEAN_WAIT_EDGES ==> c in LATER_STEPS
    ensures forall c :: c in MANAGE_EDGES ==> c in LATER_STEPS
    ensures forall c :: c in ERROR_EDGES ==> c in LATER_STEPS
    ensures forall c :: c in INSPECT_EDGES ==> c in LATER_STEPS
    ensures forall c :: c in INSPECT_WAIT_EDGES ==> c in LATER_STEPS
    ensures forall c :: c in INSPECT_FAIL_EDGES ==> c in LATER_STEPS
    ensures forall c :: c in RESCUE_EDGES ==> c in LATER_STEPS
    ensures forall c :: c in RESCUED_EDGES ==> c in LATER_STEPS
    ensures forall c :: c in RESCUE_WAIT_EDGES ==> c in LATER_STEPS
    ensures forall c :: c in RESCUE_FAIL_EDGES ==> c in LATER_STEPS
    ensures forall c :: c in UNRESCUE_EDGES ==> c in LATER_STEPS
    ensures forall c :: c in UNRESCUE_FAIL_EDGES ==> c in LATER_STEPS
    ensures forall c :: c in ENROLL_EDGES ==> c in LATER_STEPS
    ensures forall c :: c in ADOPT_EDGES ==> c in LATER_STEPS
    ensures forall c :: c in SERVICE_EDGES ==> c in LATER_STEPS
    ensures forall c :: c in SERVICE_WAIT_EDGES ==> c in LATER_STEPS
    ensures forall c :: c in SERVICE_ABORT_EDGES ==> c in LATER_STEPS
    ensures forall c :: c in SERVICE_FAIL_EDGES ==> c in LATER_STEPS
    ensures forall c :: c in SERVICE_END_EDGES ==> c in LATER_STEPS
  {
  }

  lemma DeployWritten()
    ensures AddTransition(Available, Deploying, Verb.Deploy) in LATER_STEPS
    ensures AddTransition(DeployFail, Deploying, Verb.Deploy) in LATER_STEPS
  {
    AllListed();
    assert AddTransition(Available, Deploying, Verb.Deploy) in FIRST_DEPLOY;
    assert AddTransition(DeployFail, Deploying, Verb.Deploy) in DEPLOY_EDGES;
  }

  lemma RebuildWritten()
    ensures AddTransition(DeployFail, Deploying, Verb.Rebuild) in LATER_STEPS
    ensures AddTransition(Active, Deploying, Verb.Rebuild) in LATER_STEPS
    ensures AddTransition(Error, Deploying, Verb.Rebuild) in LATER_STEPS
  {
    AllListed();
    assert AddTransition(DeployFail, Deploying, Verb.Rebuild) in DEPLOY_EDGES;
    assert AddTransition(Active, Deploying, Verb.Rebuild) in DEPLOYED_EDGES;
    assert AddTransition(Error, Deploying, Verb.Rebuild) in ERROR_EDGES;
  }

  lemma DeleteWritten1()
    ensures AddTransition(Active, Deleting, Verb.Delete) in LATER_STEPS
    ensures AddTransition(DeployWait, Deleting, Verb.Delete) in LATER_STEPS
    ensures AddTransition(DeployFail, Deleting, Verb.Delete) in LATER_STEPS
    ensures AddTransition(Error, Deleting, Verb.Delete) in LATER_STEPS
    ensures AddTransition(Provision.Rescue, Deleting, Verb.Delete) in LATER_STEPS
  {
    AllListed();
    assert AddTransition(Active, Deleting, Verb.Delete) in DEPLOYED_EDGES;
    assert AddTransition(DeployWait, Deleting, Verb.Delete) in DEPLOYED_EDGES;
    assert AddTransition(DeployFail, Deleting, Verb.Delete) in DEPLOYED_EDGES;
    assert AddTransition(Error, Deleting, Verb.Delete) in ERROR_EDGES;
    assert AddTransition(Provision.Rescue, Deleting, Verb.Delete) in RESCUED_EDGES;
  }

  lemma DeleteWritten2()
    ensures AddTransition(RescueFail, Deleting, Verb.Delete) in LATER_STEPS
    ensures AddTransition(RescueWait, Deleting, Verb.Delete) in LATER_STEPS
    ensures AddTransition(UnrescueFail, Deleting, Verb.Delete) in LATER_STEPS
    ensures AddTransition(ServiceFail, Deleting, Verb.Delete) in LATER_STEPS
    ensures AddTransition(ServiceWait, Deleting, Verb.Delete) in LATER_STEPS
  {
    AllListed();
    assert AddTransition(RescueFail, Deleting, Verb.Delete) in RESCUE_FAIL_EDGES;
    assert AddTransition(RescueWait, Deleting, Verb.Delete) in RESCUE_FAIL_EDGES;
    assert AddTransition(UnrescueFail, Deleting, Verb.Delete) in UNRESCUE_FAIL_EDGES;
    assert AddTransition(ServiceFail, Deleting, Verb.Delete) in SERVICE_END_EDGES;
    assert AddTransition(ServiceWait, Deleting, Verb.Delete) in SERVICE_END_EDGES;
  }

  lemma CleanWritten()
    ensures AddTransition(Deleting, Cleaning, Verb.Clean) in LATER_STEPS
    ensures AddTransition(Manageable, Cleaning, Verb.Clean) in LATER_STEPS
  {
    AllListed();
    assert AddTransition(Deleting, Cleaning, Verb.Clean) in CLEAN_EDGES;
    assert AddTransition(Manageable, Cleaning, Verb.Clean) in MANAGE_EDGES;
  }

  lemma ProvideWritten()
    ensures AddTransition(Manageable, Cleaning, Verb.Provide) in LATER_STEPS
  {
    AllListed();
    assert AddTransition(Manageable, Cleaning, Verb.Provide) in MANAGE_EDGES;
  }

  lemma ManageWritten1()
    ensures AddTransition(CleanFail, Manageable, Verb.Manage) in LATER_STEPS
    ensures AddTransition(Cleaning, Manageable, Verb.Manage) in LATER_STEPS
    ensures AddTransition(Available, Manageable, Verb.Manage) in LATER_STEPS
    ensures AddTransition(InspectFail, Manageable, Verb.Manage) in LATER_STEPS
    ensures AddTransition(Enroll, Verifying, Verb.Manage) in LATER_STEPS
  {
    AllListed();
    assert AddTransition(CleanFail, Manageable, Verb.Manage) in MANAGE_EDGES;
    assert AddTransition(Cleaning, Manageable, Verb.Manage) in MANAGE_EDGES;
    assert AddTransition(Available, Manageable, Verb.Manage) in MANAGE_EDGES;
    assert AddTransition(InspectFail, Manageable, Verb.Manage) in INSPECT_FAIL_EDGES;
    assert AddTransition(Enroll, Verifying, Verb.Manage) in ENROLL_EDGES;
  }

  lemma ManageWritten2()
    ensures AddTransition(AdoptFail, Manageable, Verb.Manage) in LATER_STEPS
  {
    AllListed();
    assert AddTransition(AdoptFail, Manageable, Verb.Manage) in ADOPT_EDGES;
  }

  lemma InspectWritten()
    ensures AddTransition(Manageable, Inspecting, Verb.Inspect) in LATER_STEPS
    ensures AddTransition(InspectFail, Inspecting, Verb.Inspect) in LATER_STEPS
  {
    AllListed();
    assert AddTransition(Manageable, Inspecting, Verb.Inspect) in INSPECT_EDGES;
    assert AddTransition(InspectFail, Inspecting, Verb.Inspect) in INSPECT_FAIL_EDGES;
  }

  lemma AdoptWritten()
    ensures AddTransition(Manageable, Adopting, Verb.Adopt) in LATER_STEPS
    ensures AddTransition(AdoptFail, Adopting, Verb.Adopt) in LATER_STEPS
  {
    AllListed();
    assert AddTransition(Manageable, Adopting, Verb.Adopt) in ADOPT_EDGES;
    assert AddTransition(AdoptFail, Adopting, Verb.Adopt) in ADOPT_EDGES;
  }

  lemma RescueWritten()
    ensures AddTransition(Active, Rescuing, Verb.Rescue) in LATER_STEPS
    ensures AddTransition(Provision.Rescue, Rescuing, Verb.Rescue) in LATER_STEPS
    ensures AddTransition(RescueFail, Rescuing, Verb.Rescue) in LATER_STEPS
    ensures AddTransition(UnrescueFail, Rescuing, Verb.Rescue) in LATER_STEPS
    ensures AddTransition(ServiceFail, Rescuing, Verb.Rescue) in LATER_STEPS
  {
    AllListed();
    assert AddTransition(Active, Rescuing, Verb.Rescue) in RESCUE_EDGES;
    assert AddTransition(Provision.Rescue, Rescuing, Verb.Rescue) in RESCUED_EDGES;
    assert AddTransition(RescueFail, Rescuing, Verb.Rescue) in RESCUE_FAIL_EDGES;
    assert AddTransition(UnrescueFail, Rescuing, Verb.Rescue) in UNRESCUE_FAIL_EDGES;
    assert AddTransition(ServiceFail, Rescuing, Verb.Rescue) in SERVICE_FAIL_EDGES;
  }

  lemma UnrescueWritten()
    ensures AddTransition(RescueFail, Unrescuing, Verb.Unrescue) in LATER_STEPS
    ensures AddTransition(Provision.Rescue, Unrescuing, Verb.Unrescue) in LATER_STEPS
    ensures AddTransition(UnrescueFail, Unrescuing, Verb.Unrescue) in LATER_STEPS
  {
    AllListed();
    assert AddTransition(RescueFail, Unrescuing, Verb.Unrescue) in RESCUE_FAIL_EDGES;
    assert AddTransition(Provision.Rescue, Unrescuing, Verb.Unrescue) in UNRESCUE_EDGES;
    assert AddTransition(UnrescueFail, Unrescuing, Verb.Unrescue) in UNRESCUE_FAIL_EDGES;
  }

  lemma ServiceWritten()
    ensures AddTransition(Active, Servicing, Verb.Service) in LATER_STEPS
    ensures AddTransition(ServiceHold, Servicing, Verb.Service) in LATER_STEPS
    ensures AddTransition(ServiceFail, Servicing, Verb.Service) in LATER_STEPS
  {
    AllListed();
    assert AddTransition(Active, Servicing, Verb.Service) in SERVICE_EDGES;
    assert AddTransition(ServiceHold, Servicing, Verb.Service) in SERVICE_WAIT_EDGES;
    assert AddTransition(ServiceFail, Servicing, Verb.Service) in SERVICE_FAIL_EDGES;
  }

  lemma DoneWritten1()
    ensures AddTransition(Deploying, Active, Verb.Done) in LATER_STEPS
    ensures AddTransition(Cleaning, Available, Verb.Done) in LATER_STEPS
    ensures AddTransition(Inspecting, Manageable, Verb.Done) in LATER_STEPS
    ensures AddTransition(InspectWait, Manageable, Verb.Done) in LATER_STEPS
    ensures AddTransition(Rescuing, Provision.Rescue, Verb.Done) in LATER_STEPS
  {
    AllListed();
    assert AddTransition(Deploying, Active, Verb.Done) in DEPLOYED_EDGES;
    assert AddTransition(Cleaning, Available, Verb.Done) in CLEAN_EDGES;
    assert AddTransition(Inspecting, Manageable, Verb.Done) in INSPECT_EDGES;
    assert AddTransition(InspectWait, Manageable, Verb.Done) in INSPECT_WAIT_EDGES;
    assert AddTransition(Rescuing, Provision.Rescue, Verb.Done) in RESCUE_EDGES;
  }

  lemma DoneWritten2()
    ensures AddTransition(Unrescuing, Active, Verb.Done) in LATER_STEPS
    ensures AddTransition(Verifying, Manageable, Verb.Done) in LATER_STEPS
    ensures AddTransition(Adopting, Active, Verb.Done) in LATER_STEPS
    ensures AddTransition(Servicing, Active, Verb.Done) in LATER_STEPS
  {
    AllListed();
    assert AddTransition(Unrescuing, Active, Verb.Done) in UNRESCUE_EDGES;
    assert AddTransition(Verifying, Manageable, Verb.Done) in ENROLL_EDGES;
    assert AddTransition(Adopting, Active, Verb.Done) in ADOPT_EDGES;
    assert AddTransition(Servicing, Active, Verb.Done) in SERVICE_EDGES;
  }

  lemma FailWritten1()
    ensures AddTransition(Deploying, DeployFail, Verb.Fail) in LATER_STEPS
    ensures AddTransition(DeployWait, DeployFail, Verb.Fail) in LATER_STEPS
    ensures AddTransition(Deleting, Error, Verb.Fail) in LATER_STEPS
    ensures AddTransition(Cleaning, CleanFail, Verb.Fail) in LATER_STEPS
    ensures AddTransition(CleanWait, CleanFail, Verb.Fail) in LATER_STEPS
  {
    AllListed();
    assert AddTransition(Deploying, DeployFail, Verb.Fail) in DEPLOY_EDGES;
    assert AddTransition(DeployWait, DeployFail, Verb.Fail) in DEPLOY_WAIT_EDGES;
    assert AddTransition(Deleting, Error, Verb.Fail) in DEPLOYED_EDGES;
    assert AddTransition(Cleaning, CleanFail, Verb.Fail) in CLEAN_EDGES;
    assert AddTransition(CleanWait, CleanFail, Verb.Fail) in CLEAN_EDGES;
  }

  lemma FailWritten2()
    ensures AddTransition(Inspecting, InspectFail, Verb.Fail) in LATER_STEPS
    ensures AddTransition(InspectWait, InspectFail, Verb.Fail) in LATER_STEPS
    ensures AddTransition(RescueWait, RescueFail, Verb.Fail) in LATER_STEPS
    ensures AddTransition(Rescuing, RescueFail, Verb.Fail) in LATER_STEPS
    ensures AddTransition(Unrescuing, UnrescueFail, Verb.Fail) in LATER_STEPS
  {
    AllListed();
    assert AddTransition(Inspecting, InspectFail, Verb.Fail) in INSPECT_EDGES;
    assert AddTransition(InspectWait, InspectFail, Verb.Fail) in INSPECT_WAIT_EDGES;
    assert AddTransition(RescueWait, RescueFail, Verb.Fail) in RESCUE_WAIT_EDGES;
    assert AddTransition(Rescuing, RescueFail, Verb.Fail) in RESCUE_WAIT_EDGES;
    assert AddTransition(Unrescuing, UnrescueFail, Verb.Fail) in UNRESCUE_EDGES;
  }

  lemma FailWritten3()
    ensures AddTransition(Verifying, Enroll, Verb.Fail) in LATER_STEPS
    ensures AddTransition(Adopting, AdoptFail, Verb.Fail) in LATER_STEPS
    ensures AddTransition(Servicing, ServiceFail, Verb.Fail) in LATER_STEPS
    ensures AddTransition(ServiceWait, ServiceFail, Verb.Fail) in LATER_STEPS
    ensures AddTransition(ServiceHold, ServiceFail, Verb.Fail) in LATER_STEPS
  {
    AllListed();
    assert AddTransition(Verifying, Enroll, Verb.Fail) in ENROLL_EDGES;
    assert AddTransition(Adopting, AdoptFail, Verb.Fail) in ADOPT_EDGES;
    assert AddTransition(Servicing, ServiceFail, Verb.Fail) in SERVICE_EDGES;
    assert AddTransition(ServiceWait, ServiceFail, Verb.Fail) in SERVICE_ABORT_EDGES;
    assert AddTransition(ServiceHold, ServiceFail, Verb.Fail) in SERVICE_ABORT_EDGES;
  }

  lemma AbortWritten1()
    ensures AddTransition(DeployHold, DeployFail, Verb.Abort) in LATER_STEPS
    ensures AddTransition(DeployWait, DeployFail, Verb.Abort) in LATER_STEPS
    ensures AddTransition(CleanWait, CleanFail, Verb.Abort) in LATER_STEPS
    ensures AddTransition(CleanHold, CleanFail, Verb.Abort) in LATER_STEPS
    ensures AddTransition(InspectWait, InspectFail, Verb.Abort) in LATER_STEPS
  {
    AllListed();
    assert AddTransition(DeployHold, DeployFail, Verb.Abort) in DEPLOY_WAIT_EDGES;
    assert AddTransition(DeployWait, DeployFail, Verb.Abort) in DEPLOY_WAIT_EDGES;
    assert AddTransition(CleanWait, CleanFail, Verb.Abort) in CLEAN_EDGES;
    assert AddTransition(CleanHold, CleanFail, Verb.Abort) in CLEAN_WAIT_EDGES;
    assert AddTransition(InspectWait, InspectFail, Verb.Abort) in INSPECT_WAIT_EDGES;
  }

  lemma AbortWritten2()
    ensures AddTransition(RescueWait, RescueFail, Verb.Abort) in LATER_STEPS
    ensures AddTransition(ServiceWait, ServiceFail, Verb.Abort) in LATER_STEPS
    ensures AddTransition(ServiceHold, ServiceFail, Verb.Abort) in LATER_STEPS
    ensures AddTransition(ServiceFail, Active, Verb.Abort) in LATER_STEPS
  {
    AllListed();
    assert AddTransition(RescueWait, RescueFail, Verb.Abort) in RESCUE_WAIT_EDGES;
    assert AddTransition(ServiceWait, ServiceFail, Verb.Abort) in SERVICE_ABORT_EDGES;
    assert AddTransition(ServiceHold, ServiceFail, Verb.Abort) in SERVICE_ABORT_EDGES;
    assert AddTransition(ServiceFail, Active, Verb.Abort) in SERVICE_END_EDGES;
  }

  lemma WaitWritten1()
    ensures AddTransition(Deploying, DeployWait, Verb.Wait) in LATER_STEPS
    ensures AddTransition(Cleaning, CleanWait, Verb.Wait) in LATER_STEPS
    ensures AddTransition(Inspecting, InspectWait, Verb.Wait) in LATER_STEPS
    ensures AddTransition(Rescuing, RescueWait, Verb.Wait) in LATER_STEPS
    ensures AddTransition(Servicing, ServiceWait, Verb.Wait) in LATER_STEPS
  {
    AllListed();
    assert AddTransition(Deploying, DeployWait, Verb.Wait) in DEPLOY_EDGES;
    assert AddTransition(Cleaning, CleanWait, Verb.Wait) in CLEAN_WAIT_EDGES;
    assert AddTransition(Inspecting, InspectWait, Verb.Wait) in INSPECT_EDGES;
    assert AddTransition(Rescuing, RescueWait, Verb.Wait) in RESCUE_EDGES;
    assert AddTransition(Servicing, ServiceWait, Verb.Wait) in SERVICE_EDGES;
  }

  lemma WaitWritten2()
    ensures AddTransition(ServiceFail, ServiceWait, Verb.Wait) in LATER_STEPS
  {
    AllListed();
    assert AddTransition(ServiceFail, ServiceWait, Verb.Wait) in SERVICE_FAIL_EDGES;
  }

  lemma ResumeWritten()
    ensures AddTransition(DeployWait, Deploying, Verb.Resume) in LATER_STEPS
    ensures AddTransition(CleanWait, Cleaning, Verb.Resume) in LATER_STEPS
    ensures AddTransition(InspectWait, Inspecting, Verb.Resume) in LATER_STEPS
    ensures AddTransition(RescueWait, Rescuing, Verb.Resume) in LATER_STEPS
    ensures AddTransition(ServiceWait, Servicing, Verb.Resume) in LATER_STEPS
  {
    AllListed();
    assert AddTransition(DeployWait, Deploying, Verb.Resume) in DEPLOY_WAIT_EDGES;
    assert AddTransition(CleanWait, Cleaning, Verb.Resume) in CLEAN_WAIT_EDGES;
    assert AddTransition(InspectWait, Inspecting, Verb.Resume) in INSPECT_WAIT_EDGES;
    assert AddTransition(RescueWait, Rescuing, Verb.Resume) in RESCUE_EDGES;
    assert AddTransition(ServiceWait, Servicing, Verb.Resume) in SERVICE_WAIT_EDGES;
  }

  lemma HoldWritten1()
    ensures AddTransition(Deploying, DeployHold, Verb.Hold) in LATER_STEPS
    ensures AddTransition(DeployWait, DeployHold, Verb.Hold) in LATER_STEPS
    ensures AddTransition(Cleaning, CleanHold, Verb.Hold) in LATER_STEPS
    ensures AddTransition(CleanWait, CleanHold, Verb.Hold) in LATER_STEPS
    ensures AddTransition(Servicing, ServiceHold, Verb.Hold) in LATER_STEPS
  {
    AllListed();
    assert AddTransition(Deploying, DeployHold, Verb.Hold) in DEPLOY_EDGES;
    assert AddTransition(DeployWait, DeployHold, Verb.Hold) in DEPLOY_WAIT_EDGES;
    assert AddTransition(Cleaning, CleanHold, Verb.Hold) in CLEAN_WAIT_EDGES;
    assert AddTransition(CleanWait, CleanHold, Verb.Hold) in CLEAN_WAIT_EDGES;
    assert AddTransition(Servicing, ServiceHold, Verb.Hold) in SERVICE_EDGES;
  }

  lemma HoldWritten2()
    ensures AddTransition(ServiceWait, ServiceHold, Verb.Hold) in LATER_STEPS
    ensures AddTransition(ServiceFail, ServiceHold, Verb.Hold) in LATER_STEPS
  {
    AllListed();
    assert AddTransition(ServiceWait, ServiceHold, Verb.Hold) in SERVICE_WAIT_EDGES;
    assert AddTransition(ServiceFail, ServiceHold, Verb.Hold) in SERVICE_FAIL_EDGES;
  }

  lemma UnholdWritten()
    ensures AddTransition(DeployHold, DeployWait, Verb.Unhold) in LATER_STEPS
    ensures AddTransition(CleanHold, CleanWait, Verb.Unhold) in LATER_STEPS
    ensures AddTransition(ServiceHold, ServiceWait, Verb.Unhold) in LATER_STEPS
  {
    AllListed();
    assert AddTransition(DeployHold, DeployWait, Verb.Unhold) in DEPLOY_WAIT_EDGES;
    assert AddTransition(CleanHold, CleanWait, Verb.Unhold) in CLEAN_WAIT_EDGES;
    assert AddTransition(ServiceHold, ServiceWait, Verb.Unhold) in SERVICE_WAIT_EDGES;
  }

  lemma DeployListed(s: Provision)
    requires AfterDeploy(s).To?
    ensures AddTransition(s, AfterDeploy(s).state, Verb.Deploy) in LATER_STEPS
  {
    DeployWritten();
  }

  lemma RebuildListed(s: Provision)
    requires AfterRebuild(s).To?
    ensures AddTransition(s, AfterRebuild(s).state, Verb.Rebuild) in LATER_STEPS
  {
    RebuildWritten();
  }

  lemma DeleteListed(s: Provision)
    requires AfterDelete(s).To?
    ensures AddTransition(s, AfterDelete(s).state, Verb.Delete) in LATER_STEPS
  {
    DeleteWritten1();
    DeleteWritten2();
  }

  lemma CleanListed(s: Provision)
    requires AfterClean(s).To?
    ensures AddTransition(s, AfterClean(s).state, Verb.Clean) in LATER_STEPS
  {
    CleanWritten();
  }

  lemma ProvideListed(s: Provision)
    requires AfterProvide(s).To?
    ensures AddTransition(s, AfterProvide(s).state, Verb.Provide) in LATER_STEPS
  {
    ProvideWritten();
  }

  lemma ManageListed(s: Provision)
    requires AfterManage(s).To?
    ensures AddTransition(s, AfterManage(s).state, Verb.Manage) in LATER_STEPS
  {
    ManageWritten1();
    ManageWritten2();
  }

  lemma InspectListed(s: Provision)
    requires AfterInspect(s).To?
    ensures AddTransition(s, AfterInspect(s).state, Verb.Inspect) in LATER_STEPS
  {
    InspectWritten();
  }

  lemma AdoptListed(s: Provision)
    requires AfterAdopt(s).To?
    ensures AddTransition(s, AfterAdopt(s).state, Verb.Adopt) in LATER_STEPS
  {
    AdoptWritten();
  }

  lemma RescueListed(s: Provision)
    requires AfterRescue(s).To?
    ensures AddTransition(s, AfterRescue(s).state, Verb.Rescue) in LATER_STEPS
  {
    RescueWritten();
  }

  lemma UnrescueListed(s: Provision)
    requires AfterUnrescue(s).To?
    ensures AddTransition(s, AfterUnrescue(s).state, Verb.Unrescue) in LATER_STEPS
  {
    UnrescueWritten();
  }

  lemma ServiceListed(s: Provision)
    requires AfterService(s).To?
    ensures AddTransition(s, AfterService(s).state, Verb.Service) in LATER_STEPS
  {
    ServiceWritten();
  }

  lemma DoneListed(s: Provision)
    requires AfterDone(s).To?
    ensures AddTransition(s, AfterDone(s).state, Verb.Done) in LATER_STEPS
  {
    DoneWritten1();
    DoneWritten2();
  }

  lemma FailListed(s: Provision)
    requires AfterFail(s).To?
    ensures AddTransition(s, AfterFail(s).state, Verb.Fail) in LATER_STEPS
  {
    if s.Deploying? || s.DeployWait? || s.Deleting? || s.Cleaning? || s.CleanWait? {
      FailWritten1();
    } else if s.Inspecting? || s.InspectWait? || s.RescueWait? || s.Rescuing? || s.Unrescuing? {
      FailWritten2();
    } else {
      FailWritten3();
    }
  }

  lemma AbortListed(s: Provision)
    requires AfterAbort(s).To?
    ensures AddTransition(s, AfterAbort(s).state, Verb.Abort) in LATER_STEPS
  {
    AbortWritten1();
    AbortWritten2();
  }

  lemma WaitListed(s: Provision)
    requires AfterWait(s).To?
    ensures AddTransition(s, AfterWait(s).state, Verb.Wait) in LATER_STEPS
  {
    WaitWritten1();
    WaitWritten2();
  }

  lemma ResumeListed(s: Provision)
    requires AfterResume(s).To?
    ensures AddTransition(s, AfterResume(s).state, Verb.Resume) in LATER_STEPS
  {
    ResumeWritten();
  }

  lemma HoldListed(s: Provision)
    requires AfterHold(s).To?
    ensures AddTransition(s, AfterHold(s).state, Verb.Hold) in LATER_STEPS
  {
    if s.ServiceWait? || s.ServiceFail? {
      HoldWritten2();
    } else {
      HoldWritten1();
    }
  }

  lemma UnholdListed(s: Provision)
    requires AfterUnhold(s).To?
    ensures AddTransition(s, AfterUnhold(s).state, Verb.Unhold) in LATER_STEPS
  {
    UnholdWritten();
  }

  /** Every transition of the table is written down. */
  lemma NextIsListed(s: Provision, v: Verb)
    requires Next(s, v).To?
    ensures AddTransition(s, Next(s, v).state, v) in LATER_STEPS
  {
    match v {
      case Deploy => DeployListed(s);
      case Rebuild => RebuildListed(s);
      case Delete => DeleteListed(s);
      case Clean => CleanListed(s);
      case Provide => ProvideListed(s);
      case Manage => ManageListed(s);
      case Inspect => InspectListed(s);
      case Adopt => AdoptListed(s);
      case Rescue => RescueListed(s);
      case Unrescue => UnrescueListed(s);
      case Service => ServiceListed(s);
      case Done => DoneListed(s);
      case Fail => FailListed(s);
      case Abort => AbortListed(s);
      case Wait => WaitListed(s);
      case Resume => ResumeListed(s);
      case Hold => HoldListed(s);
      case Unhold => UnholdListed(s);
    }
  }

  /** The table holds exactly the transitions listed verb by verb. */
  lemma TableExactly(s: Provision, v: Verb)
    ensures (s, v) in Built().transitions <==> Next(s, v).To?
    ensures Next(s, v).To? ==> Built().transitions[(s, v)] == Next(s, v).state
  {
    if Next(s, v).To? {
      NextIsListed(s, v);
      ListedIsTaken(AddTransition(s, Next(s, v).state, v));
    }
    if (s, v) in Built().transitions {
      TableRespects();
      BuildRespects(Call.AddTransition(s, Built().transitions[(s, v)], v));
    }
  }

  lemma FailLaw(s: Provision)
    requires AfterFail(s).To?
    ensures var end := AfterFail(s).state;
            end in FAILURE_STATES || (s == Verifying && end == Enroll) || (s == Deleting && end == Error)
  {
  }

  lemma DoneLaw(s: Provision)
    requires AfterDone(s).To?
    ensures Default(s) == Some(AfterDone(s).state)
  {
  }

  /** What the verbs mean, wherever they are taken. */
  lemma VerbLaws(s: Provision, v: Verb)
    requires (s, v) in Built().transitions
    ensures var end := Built().transitions[(s, v)];
            && (v.Deploy? || v.Rebuild? ==> end == Deploying)
            && (v.Delete? ==> end == Deleting)
            && (v.Clean? || v.Provide? ==> end == Cleaning)
            && (v.Manage? ==> end == if s == Enroll then Verifying else Manageable)
            && (v.Inspect? ==> end == Inspecting)
            && (v.Adopt? ==> end == Adopting)
            && (v.Rescue? ==> end == Rescuing)
            && (v.Unrescue? ==> end == Unrescuing)
            && (v.Service? ==> end == Servicing)
            && (v.Fail? ==>
                  end in FAILURE_STATES || (s == Verifying && end == Enroll) || (s == Deleting && end == Error))
            && (v.Done? ==> s in Built().states && Built().states[s].target == Some(end))
  {
    TableExactly(s, v);
    if v.Fail? {
      FailLaw(s);
    } else if v.Done? {
      DoneLaw(s);
      AllRegistered(s);
    }
  }
}
