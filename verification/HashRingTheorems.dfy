/** The promises of the hash-ring cache, for every schedule of every set of threads. */
module HashRingTheorems {
  import opened Wrappers
  import opened HashRing
  import opened HashRingSafety

  // ---------------------------------------------------------------------------
  // The history variables mean what they say
  // ---------------------------------------------------------------------------

  /** The state after the first `i` steps of a schedule. */
  function At(cfg: Config, table: Table, schedule: seq<Choice>, i: nat): (s: State)
    requires i <= |schedule|
    ensures s.sh.hist != []
  {
    Run(cfg, table, schedule[..i])
  }

  lemma StepRecords(cfg: Config, s: State, c: Choice)
    requires s.sh.hist != []
    ensures var sh := Step(cfg, s, c).sh;
            sh.hist == s.sh.hist + [Instant(sh.now, sh.table, sh.lock)]
  {
  }

  lemma {:induction false} HistoryIsTheRun(cfg: Config, table: Table, schedule: seq<Choice>, i: nat)
    requires i <= |schedule|
    ensures |Run(cfg, table, schedule).sh.hist| == |schedule| + 1
    ensures var s := At(cfg, table, schedule, i);
            Run(cfg, table, schedule).sh.hist[i] == Instant(s.sh.now, s.sh.table, s.sh.lock)
  {
    if schedule == [] {
    } else {
      var front := schedule[..|schedule| - 1];
      StepRecords(cfg, Run(cfg, table, front), schedule[|schedule| - 1]);
      HistoryIsTheRun(cfg, table, front, if i == |schedule| then 0 else i);
      assert schedule[..|schedule|] == schedule;
      assert i < |schedule| ==> front[..i] == schedule[..i];
    }
  }

  /** At the instant `failedAt` the thread's first look-up really failed. */
  ghost predicate FailsFirstLookup(s: State, t: ThreadId) {
    && t in s.threads && s.threads[t].pc.Lookup? && s.threads[t].failedAt.None?
    && s.threads[t].copy.Some? && Raises(Answer(s.threads[t].call, s.threads[t].copy.value.rings))
  }

  lemma FailureIsSetOnce(cfg: Config, s: State, c: Choice, t: ThreadId)
    requires s.sh.hist != [] && t in Step(cfg, s, c).threads
    requires Step(cfg, s, c).threads[t].failedAt.Some?
    ensures t in s.threads && s.threads[t].call == Step(cfg, s, c).threads[t].call
    ensures var f := Step(cfg, s, c).threads[t].failedAt;
            f == s.threads[t].failedAt || (f == Some(Here(s.sh)) && FailsFirstLookup(s, t))
  {
  }

  lemma AtNext(cfg: Config, table: Table, schedule: seq<Choice>, i: nat)
    requires i < |schedule|
    ensures At(cfg, table, schedule, i + 1) == Step(cfg, At(cfg, table, schedule, i), schedule[i])
  {
    assert schedule[..i + 1][..i] == schedule[..i];
  }

  lemma {:induction false} FailedAtIsTheFailure(cfg: Config, table: Table, schedule: seq<Choice>, t: ThreadId, i: nat)
    requires i <= |schedule| && t in At(cfg, table, schedule, i).threads
    requires At(cfg, table, schedule, i).threads[t].failedAt.Some?
    ensures var th := At(cfg, table, schedule, i).threads[t];
            var f := th.failedAt.value;
            && f < i && FailsFirstLookup(At(cfg, table, schedule, f), t)
            && At(cfg, table, schedule, f).threads[t].call == th.call
  {
    if i == 0 {
    } else {
      var s := At(cfg, table, schedule, i - 1);
      AtNext(cfg, table, schedule, i - 1);
      HistoryIsTheRun(cfg, table, schedule[..i - 1], 0);
      FailureIsSetOnce(cfg, s, schedule[i - 1], t);
      if s.threads[t].failedAt.Some? {
        FailedAtIsTheFailure(cfg, table, schedule, t, i - 1);
      }
    }
  }

  // ---------------------------------------------------------------------------
  // get_ring gives up only for a reason
  // ---------------------------------------------------------------------------

  /** The hosts that the table lists for a driver: with groups, under `group:driver`. */
  predicate Lists(table: Table, useGroups: bool, driver: string, group: string) {
    if useGroups then group + ":" + driver in table.grouped else driver in table.plain
  }

  function HostsOf(table: Table, useGroups: bool, driver: string, group: string): set<string>
    requires Lists(table, useGroups, driver, group)
  {
    if useGroups then table.grouped[group + ":" + driver] else table.plain[driver]
  }

  predicate IsEmpty(table: Table, useGroups: bool) {
    if useGroups then table.grouped == map[] else table.plain == map[]
  }

  /** The conductor table itself calls for error `o`. */
  predicate Lacks(table: Table, call: Call, o: Outcome)
    requires call.GetRing?
  {
    match o
    case TemporaryFailure => IsEmpty(table, call.mgr.useGroups)
    case DriverNotFound =>
      !IsEmpty(table, call.mgr.useGroups) && !Lists(table, call.mgr.useGroups, call.driver, call.group)
    case _ => false
  }

  lemma EmptyRings(d2c: map<string, set<string>>)
    ensures RingsOf(d2c).Keys == d2c.Keys
    ensures RingsOf(d2c) == map[] <==> d2c == map[]
  {
    if RingsOf(d2c) == map[] {
      assert d2c.Keys == RingsOf(d2c).Keys == {};
    }
  }

  /** Whatever the others do meanwhile, a raise is backed by the table after the first failure. */
  lemma RaiseMeansMissing(cfg: Config, g: bool, table: Table, schedule: seq<Choice>, t: ThreadId)
    returns (failed: nat, i: nat)
    requires AllAgree(schedule, g)
    requires t in Run(cfg, table, schedule).threads
    requires Run(cfg, table, schedule).threads[t].outcome in {TemporaryFailure, DriverNotFound}
    ensures var th := Run(cfg, table, schedule).threads[t];
            && failed < i <= |schedule|
            && FailsFirstLookup(At(cfg, table, schedule, failed), t)
            && At(cfg, table, schedule, failed).threads[t].call == th.call
            && th.call.GetRing? && Lacks(At(cfg, table, schedule, i).sh.table, th.call, th.outcome)
  {
    RunKeeps(cfg, g, table, schedule);
    var s := Run(cfg, table, schedule);
    var th := s.threads[t];
    assert ThreadInv(cfg, g, s.sh, t, th);
    failed, i := th.failedAt.value, th.copy.value.loadedAt;
    HistoryIsTheRun(cfg, table, schedule, 0);
    HistoryIsTheRun(cfg, table, schedule, i);
    assert schedule[..|schedule|] == schedule;
    FailedAtIsTheFailure(cfg, table, schedule, t, |schedule|);
    EmptyRings(s.sh.hist[i].table.Active(th.call.mgr.useGroups));
  }

  /**
   The dual: an entry handed out was in the table, whole, at one instant.  For an uncached manager
   that is after the call began; for a cached one its publisher held the lock then, and outside
   SQLite the stamp is fresh.
   */
  lemma FoundMeansPresent(cfg: Config, g: bool, table: Table, schedule: seq<Choice>, t: ThreadId)
    returns (i: nat)
    requires AllAgree(schedule, g)
    requires t in Run(cfg, table, schedule).threads
    requires Run(cfg, table, schedule).threads[t].outcome.Found?
    ensures var th := Run(cfg, table, schedule).threads[t];
            && i <= |schedule| && th.call.GetRing?
            && (var now, groups := At(cfg, table, schedule, i).sh.table, th.call.mgr.useGroups;
                && Lists(now, groups, th.call.driver, th.call.group)
                && th.outcome.ring.hosts == HostsOf(now, groups, th.call.driver, th.call.group))
            && th.copy.Some? && th.copy.value.loadedAt == i
            && if th.call.mgr.cached then
                 && At(cfg, table, schedule, i).sh.lock == Some(th.copy.value.loader)
                 && At(cfg, table, schedule, i).sh.now <= th.copy.value.stamp
                 && (!cfg.sqlite ==>
                       th.copy.value.stamp >= th.start || th.copy.value.stamp >= th.start - cfg.interval)
               else
                 At(cfg, table, schedule, i).sh.now >= th.start
  {
    RunKeeps(cfg, g, table, schedule);
    var s := Run(cfg, table, schedule);
    assert ThreadInv(cfg, g, s.sh, t, s.threads[t]);
    i := s.threads[t].copy.value.loadedAt;
    HistoryIsTheRun(cfg, table, schedule, 0);
    HistoryIsTheRun(cfg, table, schedule, i);
  }

  // ---------------------------------------------------------------------------
  // A cached ring is fresh and whole
  // ---------------------------------------------------------------------------

  ghost predicate ReturnsCachedRing(s: State, t: ThreadId) {
    && t in s.threads && s.threads[t].outcome.Returned? && s.threads[t].call.RingAccess?
    && s.threads[t].call.mgr.cached && s.threads[t].copy.Some?
  }

  /** One whole table, read by the thread holding the lock, and stamped after that; fresh outside SQLite. */
  lemma CachedRingIsWhole(cfg: Config, g: bool, table: Table, schedule: seq<Choice>, t: ThreadId)
    requires AllAgree(schedule, g)
    requires ReturnsCachedRing(Run(cfg, table, schedule), t)
    ensures var th := Run(cfg, table, schedule).threads[t];
            var c := th.copy.value;
            && th.outcome.rings == c.rings && c.loadedAt <= |schedule|
            && At(cfg, table, schedule, c.loadedAt).sh.lock == Some(c.loader)
            && At(cfg, table, schedule, c.loadedAt).sh.now <= c.stamp
            && (var now := At(cfg, table, schedule, c.loadedAt).sh.table;
                var d2c := if th.call.mgr.useGroups then now.grouped else now.plain;
                c.rings.Keys == d2c.Keys && forall k :: k in d2c ==> c.rings[k].hosts == d2c[k])
            && (!cfg.sqlite ==> c.stamp >= th.start || c.stamp >= th.start - cfg.interval)
  {
    RunKeeps(cfg, g, table, schedule);
    var s := Run(cfg, table, schedule);
    assert ThreadInv(cfg, g, s.sh, t, s.threads[t]);
    HistoryIsTheRun(cfg, table, schedule, 0);
    HistoryIsTheRun(cfg, table, schedule, s.threads[t].copy.value.loadedAt);
  }

  /** No caller of a cached manager ever gets a ring published before its call less the interval. */
  ghost predicate NeverStale(cfg: Config) {
    forall table: Table, schedule: seq<Choice>, g: bool, t: ThreadId
      {:trigger AllAgree(schedule, g), ReturnsCachedRing(Run(cfg, table, schedule), t)} ::
      AllAgree(schedule, g) && ReturnsCachedRing(Run(cfg, table, schedule), t) ==>
        Run(cfg, table, schedule).threads[t].copy.value.stamp
          >= Run(cfg, table, schedule).threads[t].start - cfg.interval
  }

  /** The state after `schedule` and one more step. */
  lemma RunExtends(cfg: Config, table: Table, schedule: seq<Choice>, c: Choice)
    ensures Run(cfg, table, schedule + [c]) == Step(cfg, Run(cfg, table, schedule), c)
  {
    assert (schedule + [c])[..|schedule|] == schedule;
  }

  const SHARED := Manager(false, true)
  const EMPTY := Table(map[], map[])
  const LONE_PATH: seq<Pc> :=
    [ReadClock, HotRead, AwaitLock, Recheck, Load, Stamp, Publish, Unlock, Lookup, Finished]

  /** Thread 0 alone, `k` steps into its first access. */
  function LoneSchedule(k: nat): seq<Choice>
    requires k >= 1
  {
    if k == 1 then [Begin(0, RingAccess(SHARED))] else LoneSchedule(k - 1) + [Advance(0)]
  }

  predicate LonePhase(s: State, k: nat)
    requires 1 <= k <= 10
  {
    && s.sh.hist != [] && s.sh.now == 0.0 && s.threads.Keys == {0}
    && s.sh.lock == (if 4 <= k <= 8 then Some(0) else None)
    && var th := s.threads[0];
       && th.call == RingAccess(SHARED) && th.pc == LONE_PATH[k - 1]
       && th.start == 0.0 && th.failedAt == None
       && s.sh.cache == (if k >= 8 then th.copy else None)
       && (k >= 6 ==> th.copy.Some? && th.copy.value.stamp == 0.0)
       && (k == 10 ==> th.outcome == Returned(th.copy.value.rings))
  }

  lemma LoneStep(cfg: Config, s: State, k: nat)
    requires 1 <= k < 10 && LonePhase(s, k)
    ensures LonePhase(Step(cfg, s, Advance(0)), k + 1)
  {
  }

  lemma LoneStart(cfg: Config)
    ensures LonePhase(Run(cfg, EMPTY, LoneSchedule(1)), 1)
  {
    RunExtends(cfg, EMPTY, [], Begin(0, RingAccess(SHARED)));
    assert [] + [Begin(0, RingAccess(SHARED))] == LoneSchedule(1);
  }

  lemma LoneExtends(cfg: Config, schedule: seq<Choice>, k: nat)
    requires 1 <= k < 10 && LonePhase(Run(cfg, EMPTY, schedule), k)
    ensures LonePhase(Run(cfg, EMPTY, schedule + [Advance(0)]), k + 1)
  {
    RunExtends(cfg, EMPTY, schedule, Advance(0));
    LoneStep(cfg, Run(cfg, EMPTY, schedule), k);
  }

  lemma {:induction false} LoneRun(cfg: Config, k: nat)
    requires 1 <= k <= 10
    ensures AllAgree(LoneSchedule(k), false) && LonePhase(Run(cfg, EMPTY, LoneSchedule(k)), k)
  {
    if k == 1 {
      LoneStart(cfg);
    } else {
      LoneRun(cfg, k - 1);
      LoneExtends(cfg, LoneSchedule(k - 1), k - 1);
    }
  }

  /** Under SQLite a second access, however late, gets the first one's ring. */
  lemma LateSteps(cfg: Config, s: State, delay: real)
    requires cfg.sqlite && delay > 0.0 && LonePhase(s, 10)
    ensures var s1 := Step(cfg, s, Tick(delay));
            var s2 := Step(cfg, s1, Begin(0, RingAccess(SHARED)));
            var s3 := Step(cfg, s2, Advance(0));
            var s4 := Step(cfg, s3, Advance(0));
            var s5 := Step(cfg, s4, Advance(0));
            ReturnsCachedRing(s5, 0) && s5.threads[0].start == delay && s5.threads[0].copy.value.stamp == 0.0
  {
    var s1 := Step(cfg, s, Tick(delay));
    var s2 := Step(cfg, s1, Begin(0, RingAccess(SHARED)));
    assert s2.threads[0] == NewThread(RingAccess(SHARED));
  }

  lemma TwoMore(cfg: Config, schedule: seq<Choice>, c: Choice, d: Choice)
    requires AllAgree(schedule, false)
    requires (c.Begin? ==> Agrees(c.call, false)) && (d.Begin? ==> Agrees(d.call, false))
    ensures AllAgree(schedule + [c] + [d], false)
    ensures Run(cfg, EMPTY, schedule + [c] + [d]) == Step(cfg, Step(cfg, Run(cfg, EMPTY, schedule), c), d)
  {
    RunExtends(cfg, EMPTY, schedule, c);
    RunExtends(cfg, EMPTY, schedule + [c], d);
  }

  lemma LateAccess(cfg: Config, delay: real) returns (schedule: seq<Choice>)
    requires cfg.sqlite && delay > 0.0
    ensures AllAgree(schedule, false)
    ensures var s := Run(cfg, EMPTY, schedule);
            && ReturnsCachedRing(s, 0)
            && s.threads[0].start == delay && s.threads[0].copy.value.stamp == 0.0
  {
    LoneRun(cfg, 10);
    var lone := LoneSchedule(10);
    LateSteps(cfg, Run(cfg, EMPTY, lone), delay);
    TwoMore(cfg, lone, Tick(delay), Begin(0, RingAccess(SHARED)));
    var late := lone + [Tick(delay)] + [Begin(0, RingAccess(SHARED))];
    TwoMore(cfg, late, Advance(0), Advance(0));
    var later := late + [Advance(0)] + [Advance(0)];
    RunExtends(cfg, EMPTY, later, Advance(0));
    schedule := later + [Advance(0)];
  }

  /** The configurations that keep the promise: a non-negative interval, and not SQLite. */
  lemma FreshExactly(cfg: Config)
    ensures NeverStale(cfg) <==> cfg.interval >= 0.0 && !cfg.sqlite
  {
    if cfg.interval < 0.0 {
      LoneRun(cfg, 10);
      assert AllAgree(LoneSchedule(10), false) && ReturnsCachedRing(Run(cfg, EMPTY, LoneSchedule(10)), 0);
    } else if cfg.sqlite {
      var schedule := LateAccess(cfg, cfg.interval + 1.0);
      assert AllAgree(schedule, false) && ReturnsCachedRing(Run(cfg, EMPTY, schedule), 0);
    } else {
      forall table: Table, schedule: seq<Choice>, g: bool, t: ThreadId
        | AllAgree(schedule, g) && ReturnsCachedRing(Run(cfg, table, schedule), t)
        ensures Run(cfg, table, schedule).threads[t].copy.value.stamp
                >= Run(cfg, table, schedule).threads[t].start - cfg.interval
      {
        CachedRingIsWhole(cfg, g, table, schedule, t);
      }
    }
  }

  // ---------------------------------------------------------------------------
  // Rebuilds are rationed
  // ---------------------------------------------------------------------------

  lemma {:induction false} SpacedApart(cfg: Config, pubs: seq<Publication>, i: nat, j: nat)
    requires SpacedPubs(cfg, pubs) && i <= j < |pubs|
    ensures pubs[i].epoch <= pubs[j].epoch
    ensures pubs[i].epoch == pubs[j].epoch && i < j ==>
              pubs[j].stamp - pubs[i].stamp > (j - i) as real * cfg.interval
    decreases j - i
  {
    if i == j {
    } else {
      SpacedApart(cfg, pubs, i, j - 1);
      assert (j - i) as real * cfg.interval == (j - 1 - i) as real * cfg.interval + cfg.interval;
    }
  }

  /** Between resets, publications `i` and `j` of a run are more than `j - i` intervals apart. */
  lemma PublicationsApart(cfg: Config, g: bool, table: Table, schedule: seq<Choice>, i: nat, j: nat)
    requires AllAgree(schedule, g) && i < j < |Run(cfg, table, schedule).sh.pubs|
    ensures var pubs := Run(cfg, table, schedule).sh.pubs;
            && pubs[i].epoch <= pubs[j].epoch
            && (pubs[i].epoch == pubs[j].epoch ==>
                  pubs[j].stamp - pubs[i].stamp > (j - i) as real * cfg.interval)
  {
    RunKeeps(cfg, g, table, schedule);
    SpacedApart(cfg, Run(cfg, table, schedule).sh.pubs, i, j);
  }

  lemma Monotone(x: real, x': real, y: real)
    requires y > 0.0 && x < x'
    ensures x * y < x' * y
  {
  }

  lemma AtMostQuotient(x: real, y: real, z: real)
    requires y > 0.0 && x * y <= z
    ensures x <= z / y
  {
    var q := z / y;
    assert q * y == z;
    if x > q {
      Monotone(q, x, y);
      assert false;
    }
  }

  lemma RationedPublications(cfg: Config, pubs: seq<Publication>, i: nat, n: nat, w: real)
    requires SpacedPubs(cfg, pubs) && cfg.interval > 0.0 && w >= 0.0 && n >= 1 && i + n <= |pubs|
    requires pubs[i].epoch == pubs[i + n - 1].epoch && pubs[i + n - 1].stamp - pubs[i].stamp <= w
    ensures n as real <= w / cfg.interval + 1.0
  {
    SpacedApart(cfg, pubs, i, i + n - 1);
    AtMostQuotient((n - 1) as real, cfg.interval, w);
  }

  /** Between two resets, `n` rebuilds published in a window of length `w` need `n <= w / interval + 1`. */
  lemma RebuildsRationed(cfg: Config, g: bool, table: Table, schedule: seq<Choice>, i: nat, n: nat, w: real)
    requires AllAgree(schedule, g) && cfg.interval > 0.0 && w >= 0.0
    requires n >= 1 && i + n <= |Run(cfg, table, schedule).sh.pubs|
    requires var pubs := Run(cfg, table, schedule).sh.pubs;
             pubs[i].epoch == pubs[i + n - 1].epoch && pubs[i + n - 1].stamp - pubs[i].stamp <= w
    ensures n as real <= w / cfg.interval + 1.0
  {
    RunKeeps(cfg, g, table, schedule);
    RationedPublications(cfg, Run(cfg, table, schedule).sh.pubs, i, n, w);
  }

  // ---------------------------------------------------------------------------
  // Every call gets through
  // ---------------------------------------------------------------------------

  predicate Blocked(sh: Shared, th: Thread) {
    (th.pc.AwaitLock? || th.pc.AwaitReset?) && sh.lock.Some?
  }

  /** At most one thread is inside a critical section, and some unfinished thread can always move. */
  lemma NoDeadlock(cfg: Config, g: bool, table: Table, schedule: seq<Choice>)
    requires AllAgree(schedule, g)
    ensures var s := Run(cfg, table, schedule);
            && (forall t, u :: t in s.threads && u in s.threads ==>
                  HoldsLock(s.threads[t].pc) && HoldsLock(s.threads[u].pc) ==> t == u)
            && ((exists t :: t in s.threads && !s.threads[t].pc.Finished?) ==>
                  exists u :: u in s.threads && !s.threads[u].pc.Finished? && !Blocked(s.sh, s.threads[u]))
  {
    RunKeeps(cfg, g, table, schedule);
    var s := Run(cfg, table, schedule);
    forall t | t in s.threads ensures HoldsLock(s.threads[t].pc) <==> s.sh.lock == Some(t) {
      assert ThreadInv(cfg, g, s.sh, t, s.threads[t]);
    }
    if s.sh.lock.Some? {
      assert HoldsLock(s.threads[s.sh.lock.value].pc);
    }
  }

  /** The steps a thread still has to take, counting the retry it may need. */
  function Remaining(th: Thread): nat {
    if th.pc.Finished? then 0 else
      (if th.failedAt.None? then 12 else 0) +
      match th.pc
      case ReadClock => 9
      case LoadUncached => 8
      case HotRead => 8
      case AwaitLock => 7
      case Recheck => 6
      case Load => 5
      case Stamp => 4
      case Publish => 3
      case Unlock => 2
      case UnlockFailed => 2
      case Lookup => 1
      case AwaitReset => 12
      case ClearCache => 11
      case UnlockReset => 10
      case Finished => 0
  }

  /** Every step of an unblocked thread brings it closer to its end. */
  lemma EveryStepCounts(cfg: Config, g: bool, sh: Shared, t: ThreadId, th: Thread)
    requires SharedInv(cfg, g, sh) && ThreadInv(cfg, g, sh, t, th)
    requires !th.pc.Finished? && !Blocked(sh, th)
    ensures Remaining(AdvanceThread(cfg, sh, t, th).1) < Remaining(th) <= 24
  {
  }

  predicate Begins(s: State, c: Choice, t: ThreadId) {
    c.Begin? && c.tid == t && (t in s.threads ==> s.threads[t].pc.Finished?)
  }

  predicate Moves(s: State, c: Choice, t: ThreadId) {
    c == Advance(t) && t in s.threads && !s.threads[t].pc.Finished? && !Blocked(s.sh, s.threads[t])
  }

  /** How many steps of its own thread `t` has taken, unblocked, in its latest call. */
  function OwnSteps(cfg: Config, table: Table, schedule: seq<Choice>, t: ThreadId): nat {
    if schedule == [] then 0
    else
      var front, last := schedule[..|schedule| - 1], schedule[|schedule| - 1];
      var s := Run(cfg, table, front);
      if Begins(s, last, t) then 0
      else OwnSteps(cfg, table, front, t) + if Moves(s, last, t) then 1 else 0
  }

  lemma RemainingAfter(cfg: Config, g: bool, s: State, c: Choice, t: ThreadId)
    requires Inv(cfg, g, s) && t in Step(cfg, s, c).threads && !Begins(s, c, t)
    ensures t in s.threads
    ensures Remaining(Step(cfg, s, c).threads[t]) + (if Moves(s, c, t) then 1 else 0) <= Remaining(s.threads[t])
  {
    assert ThreadInv(cfg, g, s.sh, t, s.threads[t]);
    if Moves(s, c, t) {
      EveryStepCounts(cfg, g, s.sh, t, s.threads[t]);
    } else if c == Advance(t) {
      assert AdvanceThread(cfg, s.sh, t, s.threads[t]).1 == s.threads[t];
    }
  }

  /** The bound on the steps of thread `t`, before and after any choice. */
  predicate WithinBound(s: State, t: ThreadId, steps: nat) {
    if t in s.threads then steps + Remaining(s.threads[t]) <= 24 else steps == 0
  }

  lemma StepWithinBound(cfg: Config, g: bool, s: State, c: Choice, t: ThreadId, steps: nat)
    requires Inv(cfg, g, s) && WithinBound(s, t, steps)
    ensures WithinBound(Step(cfg, s, c), t,
                        if Begins(s, c, t) then 0 else steps + if Moves(s, c, t) then 1 else 0)
  {
    if Begins(s, c, t) {
      assert Step(cfg, s, c).threads[t] == NewThread(c.call);
    } else if t in Step(cfg, s, c).threads {
      RemainingAfter(cfg, g, s, c, t);
    }
  }

  lemma {:induction false} StepsAndRemaining(cfg: Config, g: bool, table: Table, schedule: seq<Choice>, t: ThreadId)
    requires AllAgree(schedule, g)
    ensures WithinBound(Run(cfg, table, schedule), t, OwnSteps(cfg, table, schedule, t))
  {
    if schedule == [] {
    } else {
      var front, last := schedule[..|schedule| - 1], schedule[|schedule| - 1];
      RunKeeps(cfg, g, table, front);
      StepsAndRemaining(cfg, g, table, front, t);
      StepWithinBound(cfg, g, Run(cfg, table, front), last, t, OwnSteps(cfg, table, front, t));
    }
  }

  /** Over every run, no call takes more than 24 steps of its own, its retry included. */
  lemma CallsAreShort(cfg: Config, g: bool, table: Table, schedule: seq<Choice>, t: ThreadId)
    requires AllAgree(schedule, g)
    ensures OwnSteps(cfg, table, schedule, t) <= 24
  {
    StepsAndRemaining(cfg, g, table, schedule, t);
  }
}
