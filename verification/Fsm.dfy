/**
 The state machine with targets of `ironic/common/fsm.py`, on top of what automaton's
 `FiniteMachine` is taken to do: adding a known state, an unknown transition or an unknown
 start state is an error with no effect.
 */
module Fsm {
  import opened Wrappers

  datatype StateInfo<S> = StateInfo(stable: bool, target: Option<S>)

  datatype Call<S, E> =
    | AddState(state: S, stable: bool, default: Option<S>)
    | AddTransition(start: S, end: S, event: E)
    | Initialize(from: Option<S>, explicit: Option<S>)
    | ProcessEvent(event: E, explicit: Option<S>)

  datatype Outcome = Accepted | InvalidState | Duplicate

  /** The fields of an `FSM`; `order` is the insertion order of `_states`. */
  datatype Machine<S(==), E(==)> = Machine(order: seq<S>, states: map<S, StateInfo<S>>,
                                           transitions: map<(S, E), S>,
                                           current: Option<S>, target: Option<S>)
  {
    predicate IsStableState(s: S) {
      s in states && states[s].stable
    }

    predicate ValidTarget(t: Option<S>) {
      t.None? || IsStableState(t.value)
    }

    /** The target after entering `next`: a reached target is dropped, a default one taken up. */
    function TargetOnEntry(next: S): Option<S>
      requires next in states
    {
      if states[next].target.Some? then states[next].target
      else if target == Some(next) then None
      else target
    }
  }

  function Empty<S, E>(): Machine<S, E> {
    Machine([], map[], map[], None, None)
  }

  function Apply<S, E>(m: Machine<S, E>, call: Call<S, E>): (Machine<S, E>, Outcome)
    requires m.current.Some? ==> m.current.value in m.states
    requires forall k :: k in m.transitions ==> m.transitions[k] in m.states
  {
    match call
    case AddState(state, stable, default) =>
      if !m.ValidTarget(default) then (m, InvalidState)
      else if state in m.states then (m, Duplicate)
      else (m.(order := m.order + [state], states := m.states[state := StateInfo(stable, default)]), Accepted)
    case AddTransition(start, end, event) =>
      if start !in m.states || end !in m.states then (m, InvalidState)
      else if (start, event) in m.transitions then
        (m, if m.transitions[(start, event)] == end then Accepted else Duplicate)
      else (m.(transitions := m.transitions[(start, event) := end]), Accepted)
    case Initialize(from, explicit) =>
      if from.None? || from.value !in m.states then (m, InvalidState)
      else
        var m' := m.(current := from);
        if !m.ValidTarget(explicit) then (m', InvalidState)
        else (m'.(target := if explicit.Some? then explicit else m.states[from.value].target), Accepted)
    case ProcessEvent(event, explicit) =>
      if m.current.None? || (m.current.value, event) !in m.transitions then (m, InvalidState)
      else
        var next := m.transitions[(m.current.value, event)];
        var m' := m.(current := Some(next), target := m.TargetOnEntry(next));
        if explicit.None? then (m', Accepted)
        else if !m.ValidTarget(explicit) then (m', InvalidState)
        else (m'.(target := explicit), Accepted)
  }

  // ---------------------------------------------------------------------------
  // What every sequence of calls keeps
  // ---------------------------------------------------------------------------

  predicate RegisteredEarlier<S(==)>(order: seq<S>, states: map<S, StateInfo<S>>, i: nat)
    requires i < |order|
  {
    order[i] in states &&
    var t := states[order[i]].target;
    t.Some? ==> t.value in order[..i] && t.value in states && states[t.value].stable
  }

  predicate TableInv<S(==)>(order: seq<S>, states: map<S, StateInfo<S>>) {
    && (forall i, j :: 0 <= i < j < |order| ==> order[i] != order[j])
    && (forall s :: s in states ==> s in order)
    && (forall i :: 0 <= i < |order| ==> RegisteredEarlier(order, states, i))
  }

  predicate LiveInv<S(==), E(==)>(m: Machine<S, E>) {
    && (forall k :: k in m.transitions ==> k.0 in m.states && m.transitions[k] in m.states)
    && (m.current.Some? ==> m.current.value in m.states)
    && m.ValidTarget(m.target)
  }

  predicate Inv<S(==), E(==)>(m: Machine<S, E>) {
    TableInv(m.order, m.states) && LiveInv(m)
  }

  lemma AddStateKeeps<S>(order: seq<S>, states: map<S, StateInfo<S>>, state: S, info: StateInfo<S>)
    requires TableInv(order, states) && state !in states
    requires info.target.Some? ==> info.target.value in states && states[info.target.value].stable
    ensures TableInv(order + [state], states[state := info])
  {
    var order', states' := order + [state], states[state := info];
    forall i | 0 <= i < |order| ensures order[i] != state && RegisteredEarlier(order', states', i) {
      assert RegisteredEarlier(order, states, i) && order'[..i] == order[..i];
    }
    assert order'[..|order|] == order;
    assert RegisteredEarlier(order', states', |order|);
  }

  lemma DefaultIsValid<S, E>(m: Machine<S, E>, s: S)
    requires Inv(m) && s in m.states
    ensures m.ValidTarget(m.states[s].target)
  {
    var i :| 0 <= i < |m.order| && m.order[i] == s;
    assert RegisteredEarlier(m.order, m.states, i);
  }

  lemma InitializeKeepsLive<S, E>(m: Machine<S, E>, from: Option<S>, explicit: Option<S>)
    requires Inv(m)
    ensures LiveInv(Apply(m, Initialize(from, explicit)).0)
  {
    if from.Some? && from.value in m.states {
      DefaultIsValid(m, from.value);
    }
  }

  lemma ProcessKeepsLive<S, E>(m: Machine<S, E>, event: E, explicit: Option<S>)
    requires Inv(m)
    ensures LiveInv(Apply(m, ProcessEvent(event, explicit)).0)
  {
    if m.current.Some? && (m.current.value, event) in m.transitions {
      DefaultIsValid(m, m.transitions[(m.current.value, event)]);
    }
  }

  lemma BuildingKeepsLive<S, E>(m: Machine<S, E>, call: Call<S, E>)
    requires LiveInv(m) && (call.AddState? || call.AddTransition?)
    ensures LiveInv(Apply(m, call).0)
  {
  }

  lemma ApplyKeeps<S, E>(m: Machine<S, E>, call: Call<S, E>)
    requires Inv(m)
    ensures Inv(Apply(m, call).0)
  {
    match call {
      case Initialize(from, explicit) => InitializeKeepsLive(m, from, explicit);
      case ProcessEvent(event, explicit) => ProcessKeepsLive(m, event, explicit);
      case _ => BuildingKeepsLive(m, call);
    }
    if call.AddState? && call.state !in m.states && m.ValidTarget(call.default) {
      AddStateKeeps(m.order, m.states, call.state, StateInfo(call.stable, call.default));
    }
  }

  /** The machine after a sequence of calls, failed ones included. */
  function RunCalls<S, E>(m: Machine<S, E>, calls: seq<Call<S, E>>): (m': Machine<S, E>)
    requires Inv(m)
    ensures Inv(m')
  {
    if calls == [] then m
    else
      var before := RunCalls(m, calls[..|calls| - 1]);
      ApplyKeeps(before, calls[|calls| - 1]);
      Apply(before, calls[|calls| - 1]).0
  }

  lemma {:induction false} RunCallsConcat<S, E>(m: Machine<S, E>, a: seq<Call<S, E>>, b: seq<Call<S, E>>)
    requires Inv(m)
    ensures RunCalls(m, a + b) == RunCalls(RunCalls(m, a), b)
  {
    if b == [] {
      assert a + b == a;
    } else {
      assert (a + b)[..|a + b| - 1] == a + b[..|b| - 1];
      RunCallsConcat(m, a, b[..|b| - 1]);
    }
  }

  /** Registered targets and the live one are stable, and each default target was registered before its state. */
  lemma EveryMachineIsSound<S, E>(calls: seq<Call<S, E>>)
    ensures var m := RunCalls(Empty<S, E>(), calls);
            && m.ValidTarget(m.target)
            && forall s :: s in m.states ==>
                 && m.ValidTarget(m.states[s].target)
                 && (m.states[s].target.Some? ==>
                       (exists i, j :: 0 <= i < j < |m.order|
                          && m.order[i] == m.states[s].target.value && m.order[j] == s))
  {
    var m := RunCalls(Empty<S, E>(), calls);
    forall s | s in m.states && m.states[s].target.Some?
      ensures exists i, j :: 0 <= i < j < |m.order| && m.order[i] == m.states[s].target.value && m.order[j] == s
      ensures m.ValidTarget(m.states[s].target)
    {
      var j :| 0 <= j < |m.order| && m.order[j] == s;
      assert RegisteredEarlier(m.order, m.states, j);
      var i :| 0 <= i < j && m.order[..j][i] == m.states[s].target.value;
      assert m.order[i] == m.states[s].target.value;
    }
  }

  function IndexOf<S(==)>(order: seq<S>, s: S): (i: nat)
    requires s in order
    ensures i < |order| && order[i] == s
    ensures forall j :: 0 <= j < i ==> order[j] != s
  {
    if order[0] == s then 0 else 1 + IndexOf(order[1..], s)
  }

  lemma TargetIsEarlier<S, E>(m: Machine<S, E>, s: S)
    requires Inv(m) && s in m.states && m.states[s].target.Some?
    ensures m.states[s].target.value in m.states
    ensures IndexOf(m.order, m.states[s].target.value) < IndexOf(m.order, s)
  {
    var j := IndexOf(m.order, s);
    assert RegisteredEarlier(m.order, m.states, j);
    var i :| 0 <= i < j && m.order[..j][i] == m.states[s].target.value;
    assert m.order[i] == m.states[s].target.value;
  }

  /** A state, its default target, that one's default target, and so on: this always ends. */
  function DefaultChain<S, E>(m: Machine<S, E>, s: S): (chain: seq<S>)
    requires Inv(m) && s in m.states
    decreases IndexOf(m.order, s)
  {
    if m.states[s].target.None? then [s]
    else
      TargetIsEarlier(m, s);
      [s] + DefaultChain(m, m.states[s].target.value)
  }

  /** The state after the `i`th of the chain is that one's default target, and stable. */
  predicate Linked<S(==), E(==)>(m: Machine<S, E>, chain: seq<S>, i: nat)
    requires i + 1 < |chain|
  {
    && chain[i] in m.states && m.states[chain[i]].target == Some(chain[i + 1])
    && chain[i + 1] in m.states && m.states[chain[i + 1]].stable
  }

  lemma LinkedCons<S, E>(m: Machine<S, E>, s: S, chain: seq<S>)
    requires forall i: nat :: i + 1 < |chain| ==> Linked(m, chain, i)
    requires chain != [] && s in m.states && m.states[s].target == Some(chain[0])
    requires chain[0] in m.states && m.states[chain[0]].stable
    ensures forall i: nat :: i + 1 < |[s] + chain| ==> Linked(m, [s] + chain, i)
  {
    forall i: nat | i + 1 < |[s] + chain| ensures Linked(m, [s] + chain, i) {
      assert i > 0 ==> Linked(m, chain, i - 1);
    }
  }

  lemma {:induction false} ChainsEnd<S, E>(m: Machine<S, E>, s: S)
    requires Inv(m) && s in m.states
    ensures var chain := DefaultChain(m, s);
            && 1 <= |chain| <= IndexOf(m.order, s) + 1 && chain[0] == s
            && (forall i: nat :: i + 1 < |chain| ==> Linked(m, chain, i))
            && chain[|chain| - 1] in m.states && m.states[chain[|chain| - 1]].target.None?
    decreases IndexOf(m.order, s)
  {
    if m.states[s].target.None? {
    } else {
      TargetIsEarlier(m, s);
      assert RegisteredEarlier(m.order, m.states, IndexOf(m.order, s));
      ChainsEnd(m, m.states[s].target.value);
      LinkedCons(m, s, DefaultChain(m, m.states[s].target.value));
    }
  }

  // ---------------------------------------------------------------------------
  // What a building sequence leaves behind
  // ---------------------------------------------------------------------------

  predicate Builds<S(==), E(==)>(calls: seq<Call<S, E>>) {
    forall c :: c in calls ==> c.AddState? || c.AddTransition?
  }

  /** The states and transitions of `m` are ones that `calls` asked for. */
  predicate Traced<S(==), E(==)>(m: Machine<S, E>, calls: seq<Call<S, E>>) {
    && m.current.None? && m.target.None?
    && (forall s :: s in m.states ==> Call.AddState(s, m.states[s].stable, m.states[s].target) in calls)
    && (forall k :: k in m.transitions ==> Call.AddTransition(k.0, m.transitions[k], k.1) in calls)
  }

  lemma TracedStep<S, E>(m: Machine<S, E>, calls: seq<Call<S, E>>, c: Call<S, E>)
    requires Inv(m) && Traced(m, calls) && (c.AddState? || c.AddTransition?)
    ensures Traced(Apply(m, c).0, calls + [c])
  {
  }

  /** Every state and every transition comes from a call that asked for just that. */
  lemma {:induction false} BuiltFromCalls<S, E>(calls: seq<Call<S, E>>)
    requires Builds(calls)
    ensures Traced(RunCalls(Empty<S, E>(), calls), calls)
  {
    if calls == [] {
    } else {
      var front, last := calls[..|calls| - 1], calls[|calls| - 1];
      assert calls == front + [last];
      BuiltFromCalls(front);
      TracedStep(RunCalls(Empty<S, E>(), front), front, last);
    }
  }

  predicate Grows<S(==), E(==)>(m: Machine<S, E>, m': Machine<S, E>) {
    && (forall s :: s in m.states ==> s in m'.states && m'.states[s] == m.states[s])
    && (forall k :: k in m.transitions ==> k in m'.transitions && m'.transitions[k] == m.transitions[k])
  }

  lemma BuildStepGrows<S, E>(m: Machine<S, E>, c: Call<S, E>)
    requires LiveInv(m)
    ensures Grows(m, Apply(m, c).0)
  {
  }

  lemma {:induction false} BuildingGrows<S, E>(m: Machine<S, E>, calls: seq<Call<S, E>>)
    requires Inv(m)
    ensures Grows(m, RunCalls(m, calls))
  {
    if calls == [] {
    } else {
      var front := calls[..|calls| - 1];
      BuildingGrows(m, front);
      BuildStepGrows(RunCalls(m, front), calls[|calls| - 1]);
    }
  }

  /** A call that may be made now has its effect by the end. */
  lemma CallTakesEffect<S, E>(m: Machine<S, E>, calls: seq<Call<S, E>>, i: nat)
    requires Inv(m) && i < |calls|
    ensures calls[i].AddState? && m.ValidTarget(calls[i].default) ==> calls[i].state in RunCalls(m, calls).states
    ensures calls[i].AddTransition? && calls[i].start in m.states && calls[i].end in m.states ==>
              (calls[i].start, calls[i].event) in RunCalls(m, calls).transitions
  {
    var done := calls[..i] + [calls[i]];
    assert calls == done + calls[i + 1..] && done[..i] == calls[..i];
    BuildingGrows(m, calls[..i]);
    RunCallsConcat(m, done, calls[i + 1..]);
    BuildingGrows(RunCalls(m, done), calls[i + 1..]);
  }

  // ---------------------------------------------------------------------------
  // What the calls leave behind
  // ---------------------------------------------------------------------------

  /** An event without a target: the old target stays until it is reached or a default one takes over. */
  lemma EventTargets<S, E>(m: Machine<S, E>, event: E, next: S)
    requires Inv(m) && m.current.Some? && (m.current.value, event) in m.transitions
    requires next == m.transitions[(m.current.value, event)]
    ensures var (m', o) := Apply(m, ProcessEvent(event, None));
            && o == Accepted && m'.current == Some(next)
            && (m.states[next].target.Some? ==> m'.target == m.states[next].target)
            && (m.states[next].target.None? && m.target != Some(next) ==> m'.target == m.target)
            && (m.states[next].target.None? && m.target == Some(next) ==> m'.target == None)
  {
  }

  /** An event with a target: one that is registered and stable is taken, any other is an error after the move. */
  lemma EventExplicitTargets<S, E>(m: Machine<S, E>, event: E, t: S)
    requires Inv(m) && m.current.Some? && (m.current.value, event) in m.transitions
    ensures var (m', o) := Apply(m, ProcessEvent(event, Some(t)));
            if t in m.states && m.states[t].stable then
              o == Accepted && m' == Apply(m, ProcessEvent(event, None)).0.(target := Some(t))
            else
              o == InvalidState && m' == Apply(m, ProcessEvent(event, None)).0
  {
  }

  /** Starting: the target given, or else that of the state; a target that is refused is too late. */
  lemma InitializeTargets<S, E>(m: Machine<S, E>, s: S, t: Option<S>)
    requires Inv(m) && s in m.states
    ensures var (m', o) := Apply(m, Initialize(Some(s), t));
            && m'.current == Some(s) && m'.states == m.states && m'.transitions == m.transitions
            && (t.None? ==> o == Accepted && m'.target == m.states[s].target)
            && (t.Some? && t.value in m.states && m.states[t.value].stable ==> o == Accepted && m'.target == t)
            && (t.Some? && (t.value !in m.states || !m.states[t.value].stable) ==>
                  o == InvalidState && m'.target == m.target)
  {
  }

  /** The calls that have no effect at all, with their errors. */
  lemma OutcomesExactly<S, E>(m: Machine<S, E>, call: Call<S, E>)
    requires Inv(m)
    ensures call.AddState? ==>
              (Apply(m, call).1 == Accepted <==>
                 && call.state !in m.states
                 && (call.default.Some? ==>
                       call.default.value in m.states && m.states[call.default.value].stable))
    ensures call.AddTransition? ==>
              && (Apply(m, call).1 == InvalidState <==> call.start !in m.states || call.end !in m.states)
              && (Apply(m, call).1 == Duplicate <==>
                    && call.start in m.states && call.end in m.states
                    && (call.start, call.event) in m.transitions
                    && m.transitions[(call.start, call.event)] != call.end)
              && (Apply(m, call).1 == Accepted ==>
                    Apply(m, call).0 == m.(transitions := m.transitions[(call.start, call.event) := call.end]))
    ensures call.Initialize? && (call.from.None? || call.from.value !in m.states) ==>
              Apply(m, call) == (m, InvalidState)
    ensures call.ProcessEvent? && (m.current.None? || (m.current.value, call.event) !in m.transitions) ==>
              Apply(m, call) == (m, InvalidState)
    ensures (call.AddState? || call.AddTransition?) && Apply(m, call).1 != Accepted ==> Apply(m, call).0 == m
  {
  }

  // ---------------------------------------------------------------------------
  // A machine is not on its way to where it is
  // ---------------------------------------------------------------------------

  predicate AtTarget<S(==), E(==)>(m: Machine<S, E>) {
    m.current.Some? && m.target == m.current
  }

  predicate Implicit<S(==), E(==)>(call: Call<S, E>) {
    (call.Initialize? || call.ProcessEvent?) ==> call.explicit.None?
  }

  lemma NotItsOwnTarget<S, E>(m: Machine<S, E>, s: S)
    requires Inv(m) && s in m.states
    ensures m.states[s].target != Some(s)
  {
    if m.states[s].target == Some(s) {
      TargetIsEarlier(m, s);
      assert false;
    }
  }

  /** When a call leaves the machine at its own target. */
  lemma AtTargetExactly<S, E>(m: Machine<S, E>, call: Call<S, E>)
    requires Inv(m)
    ensures AtTarget(Apply(m, call).0) <==>
              match call
              case ProcessEvent(event, explicit) =>
                if m.current.None? || (m.current.value, event) !in m.transitions then AtTarget(m)
                else explicit == Some(m.transitions[(m.current.value, event)]) && m.ValidTarget(explicit)
              case Initialize(from, explicit) =>
                if from.None? || from.value !in m.states then AtTarget(m)
                else if m.ValidTarget(explicit) then explicit == from
                else m.target == from
              case _ => AtTarget(m)
  {
    if call.Initialize? && call.from.Some? && call.from.value in m.states {
      NotItsOwnTarget(m, call.from.value);
    }
    if call.ProcessEvent? && m.current.Some? && (m.current.value, call.event) in m.transitions {
      NotItsOwnTarget(m, m.transitions[(m.current.value, call.event)]);
    }
  }

  lemma {:induction false} ImplicitRunsNeverAtTarget<S, E>(m: Machine<S, E>, calls: seq<Call<S, E>>)
    requires Inv(m) && !AtTarget(m) && forall c :: c in calls ==> Implicit(c)
    ensures !AtTarget(RunCalls(m, calls))
  {
    if calls == [] {
    } else {
      var front := calls[..|calls| - 1];
      assert forall c :: c in front ==> c in calls;
      ImplicitRunsNeverAtTarget(m, front);
      assert Implicit(calls[|calls| - 1]);
      AtTargetExactly(RunCalls(m, front), calls[|calls| - 1]);
    }
  }

  // ---------------------------------------------------------------------------
  // Unstable states know where they are going
  // ---------------------------------------------------------------------------

  /** An unstable current state comes with a target (which `Inv` makes stable). */
  predicate Guided<S(==), E(==)>(m: Machine<S, E>) {
    m.current.Some? && !m.IsStableState(m.current.value) ==> m.target.Some?
  }

  predicate UnstableHaveDefaults<S(==), E(==)>(m: Machine<S, E>) {
    forall s :: s in m.states && !m.states[s].stable ==> m.states[s].target.Some?
  }

  /**
   `initialize` moves to the start state before it looks at the target, so a rejected target
   leaves the machine in a state it has no target for.
   */
  lemma GuidedExactly<S, E>(m: Machine<S, E>, call: Call<S, E>)
    requires Inv(m) && UnstableHaveDefaults(m) && Guided(m) && (call.Initialize? || call.ProcessEvent?)
    ensures !Guided(Apply(m, call).0) <==>
              && call.Initialize? && call.from.Some? && call.from.value in m.states
              && !m.IsStableState(call.from.value) && !m.ValidTarget(call.explicit) && m.target.None?
    ensures UnstableHaveDefaults(Apply(m, call).0)
  {
  }

  predicate Runs<S(==), E(==)>(calls: seq<Call<S, E>>) {
    forall c :: c in calls ==> c.Initialize? || c.ProcessEvent?
  }

  /** Calls whose explicit target `initialize` accepts. */
  predicate Careful<S(==), E(==)>(m: Machine<S, E>, calls: seq<Call<S, E>>) {
    forall c :: c in calls && c.Initialize? ==> m.ValidTarget(c.explicit)
  }

  lemma RunKeepsTable<S, E>(m: Machine<S, E>, call: Call<S, E>)
    requires Inv(m) && (call.Initialize? || call.ProcessEvent?)
    ensures Apply(m, call).0.states == m.states && Apply(m, call).0.transitions == m.transitions
    ensures Apply(m, call).0.order == m.order
  {
  }

  lemma {:induction false} RunsKeepTable<S, E>(m: Machine<S, E>, calls: seq<Call<S, E>>)
    requires Inv(m) && Runs(calls)
    ensures RunCalls(m, calls).states == m.states && RunCalls(m, calls).transitions == m.transitions
  {
    if calls == [] {
    } else {
      var front := calls[..|calls| - 1];
      assert forall c :: c in front ==> c in calls;
      RunsKeepTable(m, front);
      assert calls[|calls| - 1] in calls;
      RunKeepsTable(RunCalls(m, front), calls[|calls| - 1]);
    }
  }

  lemma {:induction false} CarefulRunsAreGuided<S, E>(m: Machine<S, E>, calls: seq<Call<S, E>>)
    requires Inv(m) && UnstableHaveDefaults(m) && Guided(m) && Runs(calls) && Careful(m, calls)
    ensures Guided(RunCalls(m, calls))
  {
    if calls == [] {
    } else {
      var front, last := calls[..|calls| - 1], calls[|calls| - 1];
      assert forall c :: c in front ==> c in calls;
      assert last in calls;
      CarefulRunsAreGuided(m, front);
      RunsKeepTable(m, front);
      GuidedExactly(RunCalls(m, front), last);
    }
  }

  // ---------------------------------------------------------------------------
  // The class
  // ---------------------------------------------------------------------------

  class FSM<S(==), E(==)> {
    var order: seq<S>
    var states: map<S, StateInfo<S>>
    var transitions: map<(S, E), S>
    var current: Option<S>
    var targetState: Option<S>

    function View(): Machine<S, E>
      reads this
    {
      Machine(order, states, transitions, current, targetState)
    }

    constructor ()
      ensures View() == Empty<S, E>()
    {
      order, states, transitions, current, targetState := [], map[], map[], None, None;
    }

    method IsStable(state: S) returns (r: Result<bool, Outcome>)
      ensures r == if state in states then Ok(View().IsStableState(state)) else Err(InvalidState)
    {
      if state in states {
        r := Ok(states[state].stable);
      } else {
        r := Err(InvalidState);
      }
    }

    method ValidateTargetState(target: Option<S>) returns (o: Outcome)
      ensures o == if View().ValidTarget(target) then Accepted else InvalidState
    {
      if target.None? {
        return Accepted;
      }
      var stable := IsStable(target.value);
      return if stable == Ok(true) then Accepted else InvalidState;
    }

    method AddState(state: S, stable: bool, target: Option<S>) returns (o: Outcome)
      requires Inv(View())
      modifies this
      ensures (View(), o) == Apply(old(View()), Call.AddState(state, stable, target))
      ensures Inv(View())
    {
      ApplyKeeps(View(), Call.AddState(state, stable, target));
      o := ValidateTargetState(target);
      if o != Accepted {
        return;
      }
      if state in states {
        return Duplicate;
      }
      order := order + [state];
      states := states[state := StateInfo(stable, target)];
    }

    method AddTransition(start: S, end: S, event: E) returns (o: Outcome)
      requires Inv(View())
      modifies this
      ensures (View(), o) == Apply(old(View()), Call.AddTransition(start, end, event))
      ensures Inv(View())
    {
      ApplyKeeps(View(), Call.AddTransition(start, end, event));
      if start !in states || end !in states {
        return InvalidState;
      }
      if (start, event) in transitions {
        return if transitions[(start, event)] == end then Accepted else Duplicate;
      }
      transitions := transitions[(start, event) := end];
      return Accepted;
    }

    method PostProcessEvent()
      requires current.Some? && current.value in states
      modifies this`targetState
      ensures targetState ==
                if states[current.value].target.Some? then states[current.value].target
                else if old(targetState) == current then None
                else old(targetState)
    {
      if targetState.Some? && targetState == current {
        targetState := None;
      }
      if states[current.value].target.Some? {
        targetState := states[current.value].target;
      }
    }

    method Initialize(start: Option<S>, target: Option<S>) returns (o: Outcome)
      requires Inv(View())
      modifies this
      ensures (View(), o) == Apply(old(View()), Call.Initialize(start, target))
      ensures Inv(View())
    {
      ApplyKeeps(View(), Call.Initialize(start, target));
      if start.None? || start.value !in states {
        return InvalidState;
      }
      current := start;
      o := ValidateTargetState(target);
      if o == Accepted {
        targetState := if target.Some? then target else states[start.value].target;
      }
    }

    method ProcessEvent(event: E, target: Option<S>) returns (o: Outcome)
      requires Inv(View())
      modifies this
      ensures (View(), o) == Apply(old(View()), Call.ProcessEvent(event, target))
      ensures Inv(View())
    {
      ApplyKeeps(View(), Call.ProcessEvent(event, target));
      if current.None? || (current.value, event) !in transitions {
        return InvalidState;
      }
      current := Some(transitions[(current.value, event)]);
      PostProcessEvent();
      if target.None? {
        return Accepted;
      }
      o := ValidateTargetState(target);
      if o == Accepted {
        targetState := target;
      }
    }

    /** Any one call. */
    method Perform(call: Call<S, E>) returns (o: Outcome)
      requires Inv(View())
      modifies this
      ensures (View(), o) == Apply(old(View()), call)
      ensures Inv(View())
    {
      match call
      case AddState(state, stable, default) => o := AddState(state, stable, default);
      case AddTransition(start, end, event) => o := AddTransition(start, end, event);
      case Initialize(from, explicit) => o := Initialize(from, explicit);
      case ProcessEvent(event, explicit) => o := ProcessEvent(event, explicit);
    }

    method PerformAll(calls: seq<Call<S, E>>)
      requires Inv(View())
      modifies this
      ensures View() == RunCalls(old(View()), calls)
    {
      for i := 0 to |calls|
        invariant Inv(View()) && View() == RunCalls(old(View()), calls[..i])
      {
        assert calls[..i + 1][..i] == calls[..i];
        var o := Perform(calls[i]);
      }
      assert calls[..|calls|] == calls;
    }
  }
}
