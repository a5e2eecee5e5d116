/** What every interleaving of the hash-ring machine keeps. */
module HashRingSafety {
  import opened Wrappers
  import opened HashRing

  // ---------------------------------------------------------------------------
  // The invariant
  // ---------------------------------------------------------------------------

  predicate HoldsLock(pc: Pc) {
    pc.Recheck? || pc.Load? || pc.Stamp? || pc.Publish? || pc.Unlock? || pc.UnlockFailed? || Resetting(pc)
  }

  predicate Resetting(pc: Pc) {
    pc.ClearCache? || pc.UnlockReset?
  }

  /** The steps between deciding to rebuild and having published. */
  predicate Rebuilding(pc: Pc) {
    pc.Load? || pc.Stamp? || pc.Publish?
  }

  predicate HasCopy(pc: Pc) {
    pc.Stamp? || pc.Publish? || pc.Unlock? || pc.Lookup?
  }

  /** The copy is one whole table, as it stood at instant `loadedAt`. */
  predicate Genuine(sh: Shared, c: Copy) {
    c.loadedAt < |sh.hist| &&
    c.rings == RingsOf(sh.hist[c.loadedAt].table.Active(c.useGroups))
  }

  /** Moreover whoever loaded it held the lock at that instant. */
  predicate LoadedUnderLock(sh: Shared, c: Copy) {
    Genuine(sh, c) && sh.hist[c.loadedAt].lock == Some(c.loader)
  }

  predicate SpacedPubs(cfg: Config, pubs: seq<Publication>) {
    forall i :: 0 < i < |pubs| ==>
      pubs[i-1].epoch <= pubs[i].epoch &&
      (pubs[i-1].epoch == pubs[i].epoch ==> pubs[i].stamp > pubs[i-1].stamp + cfg.interval)
  }

  predicate SharedInv(cfg: Config, g: bool, sh: Shared) {
    && sh.hist != []
    && sh.hist[|sh.hist| - 1] == Instant(sh.now, sh.table, sh.lock)
    && sh.clearedAt < |sh.hist|
    && CacheInv(cfg, g, sh)
  }

  predicate CacheInv(cfg: Config, g: bool, sh: Shared) {
    && sh.now >= 0.0 && sh.clearedAt <= |sh.hist|
    && SpacedPubs(cfg, sh.pubs)
    && (sh.pubs != [] ==> sh.pubs[|sh.pubs| - 1].epoch <= sh.epoch)
    && match sh.cache
       case None => sh.pubs != [] ==> sh.pubs[|sh.pubs| - 1].epoch < sh.epoch
       case Some(c) =>
         && LoadedUnderLock(sh, c) && c.useGroups == g
         && c.loadedAt >= sh.clearedAt && sh.hist[c.loadedAt].now <= c.stamp <= sh.now
         && sh.pubs != [] && sh.pubs[|sh.pubs| - 1] == Publication(c.stamp, sh.epoch)
  }

  /** Fresh for a caller that came in at `th.start`. */
  predicate Fresh(cfg: Config, th: Thread, c: Copy) {
    c.stamp >= Limit(cfg, th) || c.stamp >= th.start
  }

  predicate CopyInv(cfg: Config, g: bool, sh: Shared, t: ThreadId, th: Thread, c: Copy) {
    && !th.call.Reset?
    && Genuine(sh, c) && c.useGroups == th.call.mgr.useGroups && c.stamp <= sh.now
    && (if th.call.mgr.cached then LoadedUnderLock(sh, c) else sh.hist[c.loadedAt].now >= th.start)
    && (th.failedAt.Some? ==> c.loadedAt > th.failedAt.value)
    && (th.pc.Stamp? || th.pc.Publish? ==> c.loadedAt >= sh.clearedAt && c.loader == t)
    && (th.pc.Publish? ==> c.stamp >= th.start)
    && sh.hist[c.loadedAt].now <= sh.now
    && (th.call.mgr.cached && !th.pc.Stamp? ==> sh.hist[c.loadedAt].now <= c.stamp)
    && ((th.pc.Unlock? || th.pc.Lookup? || th.pc.Finished?) && th.call.mgr.cached && !cfg.sqlite ==> Fresh(cfg, th, c))
  }

  predicate ThreadInv(cfg: Config, g: bool, sh: Shared, t: ThreadId, th: Thread) {
    && Agrees(th.call, g)
    && th.start <= sh.now
    && (HoldsLock(th.pc) <==> sh.lock == Some(t))
    && (th.call.Reset? ==> (th.pc.AwaitReset? || Resetting(th.pc) || th.pc.Finished?) && th.failedAt.None?)
    && (th.pc.HotRead? || th.pc.AwaitLock? || (HoldsLock(th.pc) && !Resetting(th.pc)) ==> th.call.mgr.cached)
    && (th.pc.LoadUncached? ==> !th.call.mgr.cached)
    && (HasCopy(th.pc) ==> th.copy.Some?) && (th.copy.Some? ==> HasCopy(th.pc) || th.pc.Finished?)
    && ((th.pc.AwaitReset? || Resetting(th.pc)) && !th.call.Reset? ==> th.failedAt.Some?)
    && (th.copy.Some? ==> CopyInv(cfg, g, sh, t, th, th.copy.value))
    && (th.failedAt.Some? ==>
          th.failedAt.value < |sh.hist| &&
          (!th.pc.AwaitReset? && !th.pc.ClearCache? ==> th.failedAt.value < sh.clearedAt))
    && (Rebuilding(th.pc) ==> Stale(cfg, th, sh.cache))
    && (th.pc.Finished? <==> !th.outcome.Pending?)
    && (th.pc.Finished? && !th.outcome.LoadError? && !th.outcome.Cleared? ==>
          th.copy.Some? && th.outcome == Answer(th.call, th.copy.value.rings) &&
          (Raises(th.outcome) ==> th.failedAt.Some?))
  }

  predicate Inv(cfg: Config, g: bool, s: State) {
    && SharedInv(cfg, g, s.sh)
    && (s.sh.lock.Some? ==> s.sh.lock.value in s.threads)
    && forall t :: t in s.threads ==> ThreadInv(cfg, g, s.sh, t, s.threads[t])
  }

  // ---------------------------------------------------------------------------
  // One thread's step, seen by itself and by the others
  // ---------------------------------------------------------------------------

  /** How the shared part may change while thread `t` stands still. */
  predicate Undisturbed(sh: Shared, sh': Shared, t: ThreadId) {
    && sh.hist <= sh'.hist && sh.now <= sh'.now && sh.clearedAt <= sh'.clearedAt
    && (sh.lock == Some(t) <==> sh'.lock == Some(t))
    && (sh.lock == Some(t) ==> sh'.cache == sh.cache && sh'.clearedAt == sh.clearedAt)
  }

  lemma OthersStand(cfg: Config, g: bool, sh: Shared, sh': Shared, t: ThreadId, th: Thread)
    requires ThreadInv(cfg, g, sh, t, th) && Undisturbed(sh, sh', t)
    ensures ThreadInv(cfg, g, sh', t, th)
  {
  }

  lemma RecordKeeps(cfg: Config, g: bool, sh: Shared, t: ThreadId, th: Thread)
    requires CacheInv(cfg, g, sh) && ThreadInv(cfg, g, sh, t, th)
    ensures SharedInv(cfg, g, Record(sh)) && ThreadInv(cfg, g, Record(sh), t, th)
  {
    OthersStand(cfg, g, sh, Record(sh), t, th);
  }

  /** Thread `t` steps: the cache and `t` keep their invariants, the rest is undisturbed. */
  predicate StepsSafely(cfg: Config, g: bool, sh: Shared, t: ThreadId, th: Thread)
    requires sh.hist != []
  {
    var (sh', th') := AdvanceThread(cfg, sh, t, th);
    CacheInv(cfg, g, sh') && ThreadInv(cfg, g, sh', t, th')
  }

  lemma ArrivalStep(cfg: Config, g: bool, sh: Shared, t: ThreadId, th: Thread)
    requires SharedInv(cfg, g, sh) && ThreadInv(cfg, g, sh, t, th)
    requires th.pc.ReadClock? || th.pc.LoadUncached?
    ensures StepsSafely(cfg, g, sh, t, th)
  {
  }

  predicate IsHot(cfg: Config, sh: Shared, th: Thread) {
    sh.cache.Some? && (sh.cache.value.stamp >= Limit(cfg, th) || cfg.sqlite)
  }

  lemma HotHitStep(cfg: Config, g: bool, sh: Shared, t: ThreadId, th: Thread)
    requires SharedInv(cfg, g, sh) && ThreadInv(cfg, g, sh, t, th)
    requires th.pc.HotRead? && IsHot(cfg, sh, th)
    ensures StepsSafely(cfg, g, sh, t, th)
  {
    var th' := AdvanceThread(cfg, sh, t, th).1;
    assert th' == th.(copy := sh.cache, pc := Lookup);
    assert CopyInv(cfg, g, sh, t, th', sh.cache.value);
  }

  lemma HotMissStep(cfg: Config, g: bool, sh: Shared, t: ThreadId, th: Thread)
    requires SharedInv(cfg, g, sh) && ThreadInv(cfg, g, sh, t, th)
    requires th.pc.HotRead? && !IsHot(cfg, sh, th)
    ensures StepsSafely(cfg, g, sh, t, th)
  {
  }

  /** Taking the lock for the second look. */
  lemma EntersStep(cfg: Config, g: bool, sh: Shared, t: ThreadId, th: Thread)
    requires SharedInv(cfg, g, sh) && ThreadInv(cfg, g, sh, t, th)
    requires th.pc.AwaitLock? && sh.lock.None?
    ensures StepsSafely(cfg, g, sh, t, th)
  {
    assert th.copy.None?;
  }

  lemma RecheckStep(cfg: Config, g: bool, sh: Shared, t: ThreadId, th: Thread)
    requires SharedInv(cfg, g, sh) && ThreadInv(cfg, g, sh, t, th)
    requires th.pc.Recheck?
    ensures StepsSafely(cfg, g, sh, t, th)
  {
    if !Stale(cfg, th, sh.cache) {
      assert CopyInv(cfg, g, sh, t, th.(copy := sh.cache, pc := Unlock), sh.cache.value);
    }
  }

  lemma LoadingStep(cfg: Config, g: bool, sh: Shared, t: ThreadId, th: Thread)
    requires SharedInv(cfg, g, sh) && ThreadInv(cfg, g, sh, t, th)
    requires th.pc.Load?
    ensures StepsSafely(cfg, g, sh, t, th)
  {
  }

  lemma StampingStep(cfg: Config, g: bool, sh: Shared, t: ThreadId, th: Thread)
    requires SharedInv(cfg, g, sh) && ThreadInv(cfg, g, sh, t, th)
    requires th.pc.Stamp?
    ensures StepsSafely(cfg, g, sh, t, th)
  {
  }

  /** A publication keeps its distance from the last one, if no reset came between. */
  lemma SpacedAppend(cfg: Config, pubs: seq<Publication>, pub: Publication)
    requires SpacedPubs(cfg, pubs)
    requires pubs != [] ==>
               var last := pubs[|pubs| - 1];
               && last.epoch <= pub.epoch
               && (last.epoch == pub.epoch ==> pub.stamp > last.stamp + cfg.interval)
    ensures SpacedPubs(cfg, pubs + [pub])
  {
  }

  lemma PublicationStep(cfg: Config, g: bool, sh: Shared, t: ThreadId, th: Thread)
    requires SharedInv(cfg, g, sh) && ThreadInv(cfg, g, sh, t, th)
    requires th.pc.Publish?
    ensures StepsSafely(cfg, g, sh, t, th)
  {
    var th' := th.(pc := Unlock);
    var sh' := AdvanceThread(cfg, sh, t, th).0;
    SpacedAppend(cfg, sh.pubs, Publication(th.copy.value.stamp, sh.epoch));
    assert CacheInv(cfg, g, sh');
    assert CopyInv(cfg, g, sh', t, th', th.copy.value);
  }

  lemma ReleaseStep(cfg: Config, g: bool, sh: Shared, t: ThreadId, th: Thread)
    requires SharedInv(cfg, g, sh) && ThreadInv(cfg, g, sh, t, th)
    requires th.pc.Unlock? || th.pc.UnlockFailed?
    ensures StepsSafely(cfg, g, sh, t, th)
  {
  }

  lemma RetryStep(cfg: Config, g: bool, sh: Shared, t: ThreadId, th: Thread)
    requires SharedInv(cfg, g, sh) && ThreadInv(cfg, g, sh, t, th)
    requires th.pc.Lookup? && th.failedAt.None? && Raises(Answer(th.call, th.copy.value.rings))
    ensures StepsSafely(cfg, g, sh, t, th)
  {
  }

  lemma AnsweringStep(cfg: Config, g: bool, sh: Shared, t: ThreadId, th: Thread)
    requires SharedInv(cfg, g, sh) && ThreadInv(cfg, g, sh, t, th)
    requires th.pc.Lookup? && (Raises(Answer(th.call, th.copy.value.rings)) ==> th.failedAt.Some?)
    ensures StepsSafely(cfg, g, sh, t, th)
  {
    var th' := th.(pc := Finished, outcome := Answer(th.call, th.copy.value.rings));
    assert AdvanceThread(cfg, sh, t, th) == (sh, th');
    assert CopyInv(cfg, g, sh, t, th', th.copy.value);
  }

  lemma FinishedStep(cfg: Config, g: bool, sh: Shared, t: ThreadId, th: Thread)
    requires SharedInv(cfg, g, sh) && ThreadInv(cfg, g, sh, t, th)
    requires th.pc.Finished?
    ensures StepsSafely(cfg, g, sh, t, th)
  {
  }

  /** Taking the lock for `reset`. */
  lemma ResetEntersStep(cfg: Config, g: bool, sh: Shared, t: ThreadId, th: Thread)
    requires SharedInv(cfg, g, sh) && ThreadInv(cfg, g, sh, t, th)
    requires th.pc.AwaitReset? && sh.lock.None?
    ensures StepsSafely(cfg, g, sh, t, th)
  {
    assert th.copy.None?;
  }

  lemma BlockedStep(cfg: Config, g: bool, sh: Shared, t: ThreadId, th: Thread)
    requires SharedInv(cfg, g, sh) && ThreadInv(cfg, g, sh, t, th)
    requires (th.pc.AwaitLock? || th.pc.AwaitReset?) && sh.lock.Some?
    ensures StepsSafely(cfg, g, sh, t, th)
  {
    assert AdvanceThread(cfg, sh, t, th) == (sh, th);
  }

  lemma ResetReleaseStep(cfg: Config, g: bool, sh: Shared, t: ThreadId, th: Thread)
    requires SharedInv(cfg, g, sh) && ThreadInv(cfg, g, sh, t, th)
    requires th.pc.UnlockReset?
    ensures StepsSafely(cfg, g, sh, t, th)
  {
  }

  lemma ClearingStep(cfg: Config, g: bool, sh: Shared, t: ThreadId, th: Thread)
    requires SharedInv(cfg, g, sh) && ThreadInv(cfg, g, sh, t, th)
    requires th.pc.ClearCache?
    ensures StepsSafely(cfg, g, sh, t, th)
  {
  }

  lemma OwnStep(cfg: Config, g: bool, sh: Shared, t: ThreadId, th: Thread)
    requires SharedInv(cfg, g, sh) && ThreadInv(cfg, g, sh, t, th)
    ensures StepsSafely(cfg, g, sh, t, th)
  {
    match th.pc
    case ReadClock | LoadUncached => ArrivalStep(cfg, g, sh, t, th);
    case HotRead =>
      if IsHot(cfg, sh, th) {
        HotHitStep(cfg, g, sh, t, th);
      } else {
        HotMissStep(cfg, g, sh, t, th);
      }
    case AwaitLock =>
      if sh.lock.None? {
        EntersStep(cfg, g, sh, t, th);
      } else {
        BlockedStep(cfg, g, sh, t, th);
      }
    case Recheck => RecheckStep(cfg, g, sh, t, th);
    case Load => LoadingStep(cfg, g, sh, t, th);
    case Stamp => StampingStep(cfg, g, sh, t, th);
    case Publish => PublicationStep(cfg, g, sh, t, th);
    case Unlock | UnlockFailed => ReleaseStep(cfg, g, sh, t, th);
    case Finished => FinishedStep(cfg, g, sh, t, th);
    case Lookup =>
      if th.failedAt.None? && Raises(Answer(th.call, th.copy.value.rings)) {
        RetryStep(cfg, g, sh, t, th);
      } else {
        AnsweringStep(cfg, g, sh, t, th);
      }
    case AwaitReset =>
      if sh.lock.None? {
        ResetEntersStep(cfg, g, sh, t, th);
      } else {
        BlockedStep(cfg, g, sh, t, th);
      }
    case UnlockReset => ResetReleaseStep(cfg, g, sh, t, th);
    case ClearCache => ClearingStep(cfg, g, sh, t, th);
  }

  /** While `t` steps, the rest of the world looks almost the same to `u`. */
  lemma Bystander(cfg: Config, g: bool, sh: Shared, t: ThreadId, th: Thread, u: ThreadId)
    requires SharedInv(cfg, g, sh) && ThreadInv(cfg, g, sh, t, th) && u != t
    ensures Undisturbed(sh, Record(AdvanceThread(cfg, sh, t, th).0), u)
  {
  }

  lemma BystanderKeeps(cfg: Config, g: bool, sh: Shared, t: ThreadId, th: Thread, u: ThreadId, uth: Thread)
    requires SharedInv(cfg, g, sh) && ThreadInv(cfg, g, sh, t, th) && u != t
    requires ThreadInv(cfg, g, sh, u, uth)
    ensures ThreadInv(cfg, g, Record(AdvanceThread(cfg, sh, t, th).0), u, uth)
  {
    Bystander(cfg, g, sh, t, th, u);
    OthersStand(cfg, g, sh, Record(AdvanceThread(cfg, sh, t, th).0), u, uth);
  }

  /** Who holds the lock after `t` stepped. */
  lemma LockHolder(cfg: Config, sh: Shared, t: ThreadId, th: Thread)
    requires sh.hist != []
    ensures var sh' := AdvanceThread(cfg, sh, t, th).0; sh'.lock in {None, sh.lock, Some(t)}
  {
  }

  lemma OwnFailure(cfg: Config, g: bool, sh: Shared, t: ThreadId, th: Thread)
    requires SharedInv(cfg, g, sh) && ThreadInv(cfg, g, sh, t, th)
    ensures ThreadInv(cfg, g, sh, t, FailThread(th))
  {
  }

  /** The environment moves: time passes or conductors come and go. */
  lemma Environment(cfg: Config, g: bool, sh: Shared, sh': Shared)
    requires SharedInv(cfg, g, sh)
    requires sh' == sh.(now := sh'.now, table := sh'.table) && sh.now <= sh'.now
    ensures SharedInv(cfg, g, Record(sh'))
    ensures forall u :: Undisturbed(sh, Record(sh'), u)
  {
  }

  lemma StepKeeps(cfg: Config, g: bool, s: State, c: Choice)
    requires Inv(cfg, g, s) && (c.Begin? ==> Agrees(c.call, g))
    ensures Inv(cfg, g, Step(cfg, s, c))
  {
    if c.Advance? && c.tid in s.threads {
      AdvanceKeeps(cfg, g, s, c.tid);
    } else {
      OtherStepKeeps(cfg, g, s, c);
    }
  }

  lemma AdvanceKeeps(cfg: Config, g: bool, s: State, t: ThreadId)
    requires Inv(cfg, g, s) && t in s.threads
    ensures Inv(cfg, g, Step(cfg, s, Advance(t)))
  {
    var (sh, th) := AdvanceThread(cfg, s.sh, t, s.threads[t]);
    assert ThreadInv(cfg, g, Record(sh), t, th) && SharedInv(cfg, g, Record(sh)) by {
      OwnStep(cfg, g, s.sh, t, s.threads[t]);
      RecordKeeps(cfg, g, sh, t, th);
    }
    LockHolder(cfg, s.sh, t, s.threads[t]);
    forall u | u in s.threads && u != t
      ensures ThreadInv(cfg, g, Record(sh), u, s.threads[u])
    {
      BystanderKeeps(cfg, g, s.sh, t, s.threads[t], u, s.threads[u]);
    }
  }

  lemma EnvironmentKeepsThread(cfg: Config, g: bool, sh: Shared, sh': Shared, u: ThreadId, th: Thread)
    requires SharedInv(cfg, g, sh) && ThreadInv(cfg, g, sh, u, th)
    requires sh' == sh.(now := sh'.now, table := sh'.table) && sh.now <= sh'.now
    ensures ThreadInv(cfg, g, Record(sh'), u, th)
  {
    Environment(cfg, g, sh, sh');
    OthersStand(cfg, g, sh, Record(sh'), u, th);
  }

  lemma NewThreadInv(cfg: Config, g: bool, sh: Shared, u: ThreadId, call: Call)
    requires SharedInv(cfg, g, sh) && Agrees(call, g) && sh.lock != Some(u)
    ensures ThreadInv(cfg, g, sh, u, NewThread(call))
  {
  }

  lemma FinishedIsUnlocked(cfg: Config, g: bool, s: State, u: ThreadId)
    requires Inv(cfg, g, s) && (u in s.threads ==> s.threads[u].pc.Finished?)
    ensures s.sh.lock != Some(u)
  {
  }

  lemma OtherStepKeeps(cfg: Config, g: bool, s: State, c: Choice)
    requires Inv(cfg, g, s) && (c.Begin? ==> Agrees(c.call, g)) && !(c.Advance? && c.tid in s.threads)
    ensures Inv(cfg, g, Step(cfg, s, c))
  {
    var s' := Step(cfg, s, c);
    var sh' := s'.sh.(hist := s.sh.hist);
    Environment(cfg, g, s.sh, sh');
    forall u | u in s'.threads
      ensures ThreadInv(cfg, g, Record(sh'), u, s'.threads[u])
    {
      if c.Begin? && u == c.tid && (u in s.threads ==> s.threads[u].pc.Finished?) {
        FinishedIsUnlocked(cfg, g, s, u);
        NewThreadInv(cfg, g, s.sh, u, c.call);
      } else if c.FailLoad? && u == c.tid {
        OwnFailure(cfg, g, s.sh, u, s.threads[u]);
      }
      EnvironmentKeepsThread(cfg, g, s.sh, sh', u, s'.threads[u]);
    }
  }

  lemma {:induction false} RunKeeps(cfg: Config, g: bool, table: Table, schedule: seq<Choice>)
    requires AllAgree(schedule, g)
    ensures Inv(cfg, g, Run(cfg, table, schedule))
  {
    if schedule == [] {
    } else {
      RunKeeps(cfg, g, table, schedule[..|schedule| - 1]);
      StepKeeps(cfg, g, Run(cfg, table, schedule[..|schedule| - 1]), schedule[|schedule| - 1]);
    }
  }
}
