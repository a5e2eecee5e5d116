/**
 The provisioning machine: the calls of `ironic/common/state_machine.py`, in their order,
 with the states of `ironic/common/states.py`.
 */
module ProvisionStates {
  import opened Wrappers
  import opened Fsm

  datatype Provision =
    | Enroll | Verifying | Manageable | Available | Active | Error | Rescue
    | Deploying | DeployWait | DeployFail | DeployHold | Cleaning | CleanWait | CleanFail
    | CleanHold | Deleting | Inspecting | InspectFail | InspectWait | Adopting | AdoptFail
    | Rescuing | RescueWait | RescueFail | Unrescuing | UnrescueFail | Servicing | ServiceWait
    | ServiceFail | ServiceHold

  datatype Verb =
    | Abort | Adopt | Clean | Delete | Deploy | Done | Fail | Hold | Inspect
    | Manage | Provide | Rebuild | Rescue | Resume | Service | Unhold | Unrescue | Wait

  type Step = Call<Provision, Verb>

  type Provisioning = Machine<Provision, Verb>

  const STABLE_STATES: seq<Provision> := [Enroll, Manageable, Available, Active, Error, Provision.Rescue]

  const STUCK_STATES_TREATED_AS_FAIL: seq<Provision> :=
    [Deploying, Cleaning, Verifying, Inspecting, Adopting, Rescuing, Unrescuing, Deleting, Servicing]

  const FAILURE_STATES: seq<Provision> :=
    [DeployFail, CleanFail, InspectFail, RescueFail, UnrescueFail, AdoptFail, ServiceFail]

  /** The loop over the stable states. */
  function StableSteps(states: seq<Provision>): (steps: seq<Step>)
    ensures |steps| == |states|
    ensures forall i :: 0 <= i < |states| ==> steps[i] == AddState(states[i], true, None)
  {
    if states == [] then [] else StableSteps(states[..|states| - 1]) + [AddState(states[|states| - 1], true, None)]
  }

  const DEPLOY_STATES: seq<Step> := [
    AddState(Verifying, false, Some(Manageable)),
    AddState(Deploying, false, Some(Active)),
    AddState(DeployWait, false, Some(Active)),
    AddState(DeployFail, false, Some(Active)),
    AddState(DeployHold, false, Some(Active))]

  const CLEAN_STATES: seq<Step> := [
    AddState(Cleaning, false, Some(Available)),
    AddState(CleanWait, false, Some(Available)),
    AddState(CleanFail, false, Some(Available)),
    AddState(CleanHold, false, Some(Available)),
    AddState(Deleting, false, Some(Available))]

  const FIRST_DEPLOY: seq<Step> := [
    AddTransition(Available, Deploying, Verb.Deploy)]

  const INSPECT_AND_ADOPT_STATES: seq<Step> := [
    AddState(Inspecting, false, Some(Manageable)),
    AddState(InspectFail, false, Some(Manageable)),
    AddState(InspectWait, false, Some(Manageable)),
    AddState(Adopting, false, Some(Active)),
    AddState(AdoptFail, false, Some(Active))]

  const RESCUE_STATES: seq<Step> := [
    AddState(Rescuing, false, Some(Provision.Rescue)),
    AddState(RescueWait, false, Some(Provision.Rescue)),
    AddState(RescueFail, false, Some(Provision.Rescue)),
    AddState(Unrescuing, false, Some(Active)),
    AddState(UnrescueFail, false, Some(Active))]

  const DEPLOY_EDGES: seq<Step> := [
    AddTransition(Deploying, DeployFail, Verb.Fail),
    AddTransition(DeployFail, Deploying, Verb.Rebuild),
    AddTransition(DeployFail, Deploying, Verb.Deploy),
    AddTransition(Deploying, DeployWait, Verb.Wait),
    AddTransition(Deploying, DeployHold, Verb.Hold)]

  const DEPLOY_WAIT_EDGES: seq<Step> := [
    AddTransition(DeployWait, DeployHold, Verb.Hold),
    AddTransition(DeployWait, Deploying, Verb.Resume),
    AddTransition(DeployWait, DeployFail, Verb.Fail),
    AddTransition(DeployHold, DeployWait, Verb.Unhold),
    AddTransition(DeployHold, DeployFail, Verb.Abort),
    AddTransition(DeployWait, DeployFail, Verb.Abort)]

  const DEPLOYED_EDGES: seq<Step> := [
    AddTransition(Deploying, Active, Verb.Done),
    AddTransition(Active, Deploying, Verb.Rebuild),
    AddTransition(Active, Deleting, Verb.Delete),
    AddTransition(DeployWait, Deleting, Verb.Delete),
    AddTransition(DeployFail, Deleting, Verb.Delete),
    AddTransition(Deleting, Error, Verb.Fail)]

  const CLEAN_EDGES: seq<Step> := [
    AddTransition(Deleting, Cleaning, Verb.Clean),
    AddTransition(Cleaning, Available, Verb.Done),
    AddTransition(Cleaning, CleanFail, Verb.Fail),
    AddTransition(CleanWait, CleanFail, Verb.Fail),
    AddTransition(CleanWait, CleanFail, Verb.Abort)]

  const CLEAN_WAIT_EDGES: seq<Step> := [
    AddTransition(Cleaning, CleanWait, Verb.Wait),
    AddTransition(Cleaning, CleanHold, Verb.Hold),
    AddTransition(CleanWait, CleanHold, Verb.Hold),
    AddTransition(CleanWait, Cleaning, Verb.Resume),
    AddTransition(CleanHold, CleanFail, Verb.Abort),
    AddTransition(CleanHold, CleanWait, Verb.Unhold)]

  const MANAGE_EDGES: seq<Step> := [
    AddTransition(CleanFail, Manageable, Verb.Manage),
    AddTransition(Manageable, Cleaning, Verb.Provide),
    AddTransition(Manageable, Cleaning, Verb.Clean),
    AddTransition(Cleaning, Manageable, Verb.Manage),
    AddTransition(Available, Manageable, Verb.Manage)]

  const ERROR_EDGES: seq<Step> := [
    AddTransition(Error, Deploying, Verb.Rebuild),
    AddTransition(Error, Deleting, Verb.Delete)]

  const INSPECT_EDGES: seq<Step> := [
    AddTransition(Manageable, Inspecting, Verb.Inspect),
    AddTransition(Inspecting, Manageable, Verb.Done),
    AddTransition(Inspecting, InspectFail, Verb.Fail),
    AddTransition(Inspecting, InspectWait, Verb.Wait)]

  const INSPECT_WAIT_EDGES: seq<Step> := [
    AddTransition(InspectWait, Manageable, Verb.Done),
    AddTransition(InspectWait, InspectFail, Verb.Fail),
    AddTransition(InspectWait, InspectFail, Verb.Abort),
    AddTransition(InspectWait, Inspecting, Verb.Resume)]

  const INSPECT_FAIL_EDGES: seq<Step> := [
    AddTransition(InspectFail, Manageable, Verb.Manage),
    AddTransition(InspectFail, Inspecting, Verb.Inspect)]

  const RESCUE_EDGES: seq<Step> := [
    AddTransition(Active, Rescuing, Verb.Rescue),
    AddTransition(Rescuing, Provision.Rescue, Verb.Done),
    AddTransition(Rescuing, RescueWait, Verb.Wait),
    AddTransition(RescueWait, Rescuing, Verb.Resume)]

  const RESCUED_EDGES: seq<Step> := [
    AddTransition(Provision.Rescue, Rescuing, Verb.Rescue),
    AddTransition(Provision.Rescue, Deleting, Verb.Delete)]

  const RESCUE_WAIT_EDGES: seq<Step> := [
    AddTransition(RescueWait, RescueFail, Verb.Fail),
    AddTransition(Rescuing, RescueFail, Verb.Fail),
    AddTransition(RescueWait, RescueFail, Verb.Abort)]

  const RESCUE_FAIL_EDGES: seq<Step> := [
    AddTransition(RescueFail, Rescuing, Verb.Rescue),
    AddTransition(RescueFail, Unrescuing, Verb.Unrescue),
    AddTransition(RescueFail, Deleting, Verb.Delete),
    AddTransition(RescueWait, Deleting, Verb.Delete)]

  const UNRESCUE_EDGES: seq<Step> := [
    AddTransition(Provision.Rescue, Unrescuing, Verb.Unrescue),
    AddTransition(Unrescuing, Active, Verb.Done),
    AddTransition(Unrescuing, UnrescueFail, Verb.Fail)]

  const UNRESCUE_FAIL_EDGES: seq<Step> := [
    AddTransition(UnrescueFail, Rescuing, Verb.Rescue),
    AddTransition(UnrescueFail, Unrescuing, Verb.Unrescue),
    AddTransition(UnrescueFail, Deleting, Verb.Delete)]

  const ENROLL_EDGES: seq<Step> := [
    AddTransition(Enroll, Verifying, Verb.Manage),
    AddTransition(Verifying, Manageable, Verb.Done),
    AddTransition(Verifying, Enroll, Verb.Fail)]

  const ADOPT_EDGES: seq<Step> := [
    AddTransition(Manageable, Adopting, Verb.Adopt),
    AddTransition(Adopting, Active, Verb.Done),
    AddTransition(Adopting, AdoptFail, Verb.Fail),
    AddTransition(AdoptFail, Adopting, Verb.Adopt),
    AddTransition(AdoptFail, Manageable, Verb.Manage)]

  const SERVICE_STATES: seq<Step> := [
    AddState(Servicing, false, Some(Active)),
    AddState(ServiceWait, false, Some(Active)),
    AddState(ServiceFail, false, Some(Active)),
    AddState(ServiceHold, false, Some(Active))]

  const SERVICE_EDGES: seq<Step> := [
    AddTransition(Servicing, Active, Verb.Done),
    AddTransition(Active, Servicing, Verb.Service),
    AddTransition(Servicing, ServiceFail, Verb.Fail),
    AddTransition(Servicing, ServiceWait, Verb.Wait),
    AddTransition(Servicing, ServiceHold, Verb.Hold)]

  const SERVICE_WAIT_EDGES: seq<Step> := [
    AddTransition(ServiceWait, ServiceHold, Verb.Hold),
    AddTransition(ServiceHold, Servicing, Verb.Service),
    AddTransition(ServiceHold, ServiceWait, Verb.Unhold),
    AddTransition(ServiceWait, Servicing, Verb.Resume)]

  const SERVICE_ABORT_EDGES: seq<Step> := [
    AddTransition(ServiceWait, ServiceFail, Verb.Fail),
    AddTransition(ServiceHold, ServiceFail, Verb.Fail),
    AddTransition(ServiceWait, ServiceFail, Verb.Abort),
    AddTransition(ServiceHold, ServiceFail, Verb.Abort)]

  const SERVICE_FAIL_EDGES: seq<Step> := [
    AddTransition(ServiceFail, Servicing, Verb.Service),
    AddTransition(ServiceFail, Rescuing, Verb.Rescue),
    AddTransition(ServiceFail, ServiceWait, Verb.Wait),
    AddTransition(ServiceFail, ServiceHold, Verb.Hold)]

  const SERVICE_END_EDGES: seq<Step> := [
    AddTransition(ServiceFail, Deleting, Verb.Delete),
    AddTransition(ServiceFail, Active, Verb.Abort),
    AddTransition(ServiceWait, Deleting, Verb.Delete)]

  /** Everything after the loop over the stable states, in three parts. */
  const EARLY_STATES: seq<Step> := DEPLOY_STATES + CLEAN_STATES

  const MORE_STATES: seq<Step> := INSPECT_AND_ADOPT_STATES + RESCUE_STATES

  const FIRST_STEPS: seq<Step> := EARLY_STATES + FIRST_DEPLOY + MORE_STATES

  const MIDDLE_STEPS: seq<Step> :=
    DEPLOY_EDGES + DEPLOY_WAIT_EDGES + DEPLOYED_EDGES + CLEAN_EDGES + CLEAN_WAIT_EDGES + MANAGE_EDGES + ERROR_EDGES
    + INSPECT_EDGES + INSPECT_WAIT_EDGES + INSPECT_FAIL_EDGES
    + RESCUE_EDGES + RESCUED_EDGES + RESCUE_WAIT_EDGES + RESCUE_FAIL_EDGES + UNRESCUE_EDGES + UNRESCUE_FAIL_EDGES
    + ENROLL_EDGES + ADOPT_EDGES + SERVICE_STATES

  const LAST_STEPS: seq<Step> :=
    SERVICE_EDGES + SERVICE_WAIT_EDGES + SERVICE_ABORT_EDGES + SERVICE_FAIL_EDGES + SERVICE_END_EDGES

  const LATER_STEPS: seq<Step> := FIRST_STEPS + MIDDLE_STEPS + LAST_STEPS

  const BUILD: seq<Step> := StableSteps(STABLE_STATES) + LATER_STEPS

  /** The module-level `machine`. */
  function Built(): (m: Provisioning)
    ensures Inv(m)
  {
    RunCalls(Empty(), BUILD)
  }

  method AddStableStates(machine: FSM<Provision, Verb>, states: seq<Provision>)
    requires Inv(machine.View())
    modifies machine
    ensures machine.View() == RunCalls(old(machine.View()), StableSteps(states))
  {
    ghost var steps := StableSteps(states);
    for i := 0 to |states|
      invariant Inv(machine.View())
      invariant machine.View() == RunCalls(old(machine.View()), steps[..i])
    {
      assert steps[..i + 1][..i] == steps[..i];
      var o := machine.AddState(states[i], true, None);
    }
    assert steps[..|states|] == steps;
  }

  /** Building it the way the module does: a loop, then one call after the other. */
  method BuildMachine() returns (machine: FSM<Provision, Verb>)
    ensures fresh(machine) && machine.View() == Built()
  {
    machine := new FSM();
    AddStableStates(machine, STABLE_STATES);
    RunCallsConcat(Empty<Provision, Verb>(), StableSteps(STABLE_STATES), LATER_STEPS);
    machine.PerformAll(LATER_STEPS);
  }
}
