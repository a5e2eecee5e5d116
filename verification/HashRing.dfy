/**
 The hash-ring cache of `ironic/common/hash_ring.py` as a step machine.

 Any number of threads run `ring`, `get_ring` and `reset`.  Every read or write of
 something another thread can see (the clock, the conductor table, the cached pair, the
 lock) is a step of its own, and a schedule interleaves the steps in any order.

 `hist`, `clearedAt`, `pubs` and `epoch` are history: no step branches on them.
 */
module HashRing {
  import opened Wrappers

  type ThreadId = nat

  /** A tooz ring is opaque: all that is known of it is the hosts it was built from. */
  datatype Ring = Ring(hosts: set<string>)

  type Rings = map<string, Ring>

  /** What the database answers with and without conductor groups. */
  datatype Table = Table(plain: map<string, set<string>>, grouped: map<string, set<string>>)
  {
    function Active(useGroups: bool): map<string, set<string>> {
      if useGroups then grouped else plain
    }
  }

  function RingsOf(d2c: map<string, set<string>>): Rings {
    map driver | driver in d2c :: Ring(d2c[driver])
  }

  datatype Config = Config(interval: real, sqlite: bool)

  datatype Manager = Manager(useGroups: bool, cached: bool)

  datatype Call =
    | RingAccess(mgr: Manager)
    | GetRing(mgr: Manager, driver: string, group: string)
    | Reset

  function KeyOf(mgr: Manager, driver: string, group: string): string {
    if mgr.useGroups then group + ":" + driver else driver
  }

  /** A dictionary of rings and where it came from. */
  datatype Copy = Copy(rings: Rings, useGroups: bool, loadedAt: nat, loader: ThreadId, stamp: real)

  datatype Outcome =
    | Pending
    | Returned(rings: Rings)
    | Found(ring: Ring)
    | TemporaryFailure
    | DriverNotFound
    | LoadError
    | Cleared

  /** What a caller holding `rings` gets: the dictionary itself, one entry, or an error. */
  function Answer(call: Call, rings: Rings): Outcome {
    match call
    case RingAccess(_) => Returned(rings)
    case GetRing(mgr, driver, group) =>
      if rings == map[] then TemporaryFailure
      else if KeyOf(mgr, driver, group) in rings then Found(rings[KeyOf(mgr, driver, group)])
      else DriverNotFound
    case Reset => Cleared
  }

  predicate Raises(o: Outcome) {
    o.TemporaryFailure? || o.DriverNotFound?
  }

  datatype Pc =
    | ReadClock | LoadUncached | HotRead | AwaitLock | Recheck | Load | Stamp | Publish
    | Unlock | UnlockFailed | Lookup | AwaitReset | ClearCache | UnlockReset | Finished

  datatype Thread = Thread(call: Call, pc: Pc, start: real, copy: Option<Copy>,
                           failedAt: Option<nat>, outcome: Outcome)

  datatype Instant = Instant(now: real, table: Table, lock: Option<ThreadId>)

  datatype Publication = Publication(stamp: real, epoch: nat)

  datatype Shared = Shared(now: real, table: Table, cache: Option<Copy>, lock: Option<ThreadId>,
                           hist: seq<Instant>, clearedAt: nat,
                           pubs: seq<Publication>, epoch: nat)

  datatype State = State(sh: Shared, threads: map<ThreadId, Thread>)

  datatype Choice =
    | Tick(elapsed: real)
    | ChangeTable(table: Table)
    | Begin(tid: ThreadId, call: Call)
    | Advance(tid: ThreadId)
    | FailLoad(tid: ThreadId)

  // ---------------------------------------------------------------------------
  // Steps
  // ---------------------------------------------------------------------------

  function NewThread(call: Call): Thread {
    Thread(call, if call.Reset? then AwaitReset else ReadClock, 0.0, None, None, Pending)
  }

  function Limit(cfg: Config, th: Thread): real {
    th.start - cfg.interval
  }

  /** The index of the present instant. */
  function Here(sh: Shared): int {
    |sh.hist| - 1
  }

  function Snapshot(sh: Shared, t: ThreadId, mgr: Manager): Copy
    requires sh.hist != []
  {
    Copy(RingsOf(sh.table.Active(mgr.useGroups)), mgr.useGroups, Here(sh), t, 0.0)
  }

  predicate Stale(cfg: Config, th: Thread, cache: Option<Copy>) {
    cache.None? || cache.value.stamp < Limit(cfg, th)
  }

  /** The look-up in `_get_ring`, and the one retry of `get_ring`. */
  function LookupStep(sh: Shared, th: Thread): Thread
    requires sh.hist != []
  {
    if th.copy.None? then th else
      var o := Answer(th.call, th.copy.value.rings);
      if Raises(o) && th.failedAt.None? then
        th.(pc := AwaitReset, copy := None, failedAt := Some(Here(sh)))
      else
        th.(pc := Finished, outcome := o)
  }

  /** One step of thread `t`; the thread stays put when it waits for the lock. */
  function AdvanceThread(cfg: Config, sh: Shared, t: ThreadId, th: Thread): (Shared, Thread)
    requires sh.hist != []
  {
    if th.call.Reset? then ResetStep(sh, t, th)
    else
      match th.pc
      case ReadClock =>
        (sh, th.(start := sh.now, pc := if th.call.mgr.cached then HotRead else LoadUncached))
      case LoadUncached =>
        (sh, th.(copy := Some(Snapshot(sh, t, th.call.mgr)), pc := Lookup))
      case HotRead =>
        if sh.cache.Some? && (sh.cache.value.stamp >= Limit(cfg, th) || cfg.sqlite)
        then (sh, th.(copy := sh.cache, pc := Lookup))
        else (sh, th.(pc := AwaitLock))
      case AwaitLock =>
        if sh.lock.None? then (sh.(lock := Some(t)), th.(pc := Recheck)) else (sh, th)
      case Recheck =>
        if Stale(cfg, th, sh.cache) then (sh, th.(pc := Load))
        else (sh, th.(copy := sh.cache, pc := Unlock))
      case Load =>
        (sh, th.(copy := Some(Snapshot(sh, t, th.call.mgr)), pc := Stamp))
      case Stamp =>
        if th.copy.None? then (sh, th)
        else (sh, th.(copy := Some(th.copy.value.(stamp := sh.now)), pc := Publish))
      case Publish =>
        if th.copy.None? then (sh, th)
        else (sh.(cache := th.copy,
                  pubs := sh.pubs + [Publication(th.copy.value.stamp, sh.epoch)]),
              th.(pc := Unlock))
      case Unlock => (sh.(lock := None), th.(pc := Lookup))
      case UnlockFailed => (sh.(lock := None), th.(pc := Finished, outcome := LoadError))
      case Lookup => (sh, LookupStep(sh, th))
      case _ => ResetStep(sh, t, th)
  }

  /** `reset`, on its own or between the two look-ups of `get_ring`. */
  function ResetStep(sh: Shared, t: ThreadId, th: Thread): (Shared, Thread)
    requires sh.hist != []
  {
    match th.pc
    case AwaitReset =>
      if sh.lock.None? then (sh.(lock := Some(t)), th.(pc := ClearCache)) else (sh, th)
    case ClearCache =>
      (sh.(cache := None, clearedAt := |sh.hist|, epoch := sh.epoch + 1),
       th.(pc := UnlockReset))
    case UnlockReset =>
      (sh.(lock := None),
       if th.call.Reset? then th.(pc := Finished, outcome := Cleared) else th.(pc := ReadClock))
    case _ => (sh, th)
  }

  /** The database raises inside `_load_hash_rings`; `with` releases the lock. */
  function FailThread(th: Thread): Thread {
    match th.pc
    case LoadUncached => th.(pc := Finished, outcome := LoadError)
    case Load => th.(pc := UnlockFailed)
    case _ => th
  }

  function Record(sh: Shared): Shared {
    sh.(hist := sh.hist + [Instant(sh.now, sh.table, sh.lock)])
  }

  function Step(cfg: Config, s: State, c: Choice): State
    requires s.sh.hist != []
  {
    match c
    case Tick(elapsed) =>
      State(Record(if elapsed > 0.0 then s.sh.(now := s.sh.now + elapsed) else s.sh), s.threads)
    case ChangeTable(table) => State(Record(s.sh.(table := table)), s.threads)
    case Begin(t, call) =>
      if t in s.threads && !s.threads[t].pc.Finished? then State(Record(s.sh), s.threads)
      else State(Record(s.sh), s.threads[t := NewThread(call)])
    case Advance(t) =>
      if t !in s.threads then State(Record(s.sh), s.threads)
      else
        var (sh, th) := AdvanceThread(cfg, s.sh, t, s.threads[t]);
        State(Record(sh), s.threads[t := th])
    case FailLoad(t) =>
      if t !in s.threads then State(Record(s.sh), s.threads)
      else State(Record(s.sh), s.threads[t := FailThread(s.threads[t])])
  }

  function Initial(table: Table): State {
    State(Shared(0.0, table, None, None, [Instant(0.0, table, None)], 0, [], 0), map[])
  }

  /** The state after a schedule. */
  function Run(cfg: Config, table: Table, schedule: seq<Choice>): (s: State)
    ensures s.sh.hist != []
  {
    if schedule == [] then Initial(table)
    else Step(cfg, Run(cfg, table, schedule[..|schedule| - 1]), schedule[|schedule| - 1])
  }

  /** The cached pair belongs to the class, so its users must agree on `use_groups`. */
  predicate Agrees(call: Call, g: bool) {
    call.Reset? || !call.mgr.cached || call.mgr.useGroups == g
  }

  predicate AllAgree(schedule: seq<Choice>, g: bool) {
    forall c | c in schedule && c.Begin? :: Agrees(c.call, g)
  }
}
