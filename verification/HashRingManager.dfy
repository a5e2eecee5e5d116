/**
 The methods of `HashRingManager` as one caller runs them, and the proof that undisturbed
 they do what the step machine does when only that thread is scheduled.
 */
module HashRingManager {
  import opened Wrappers
  import opened HashRing

  /** The class-level pair `_hash_rings`. */
  datatype Pair = Pair(rings: Option<Rings>, updatedAt: real)

  /**
   The clock and the database as one access of `ring` finds them, and the pair another thread
   leaves behind between the hot path and the lock, if one does.
   */
  datatype Visit = Visit(start: real, table: Table, published: real, meanwhile: Option<Pair>)

  predicate Usable(cfg: Config, pair: Pair, start: real) {
    pair.rings.Some? && (pair.updatedAt >= start - cfg.interval || cfg.sqlite)
  }

  function RingAfter(cfg: Config, mgr: Manager, pair: Pair, v: Visit): (Rings, Pair) {
    var loaded := RingsOf(v.table.Active(mgr.useGroups));
    if !mgr.cached then (loaded, pair)
    else if Usable(cfg, pair, v.start) then (pair.rings.value, pair)
    else
      var seen := if v.meanwhile.Some? then v.meanwhile.value else pair;
      if seen.rings.None? || seen.updatedAt < v.start - cfg.interval
      then (loaded, Pair(Some(loaded), v.published))
      else (seen.rings.value, seen)
  }

  /** A failed look-up clears the pair, and the second answer stands. */
  function GetRingAfter(cfg: Config, call: Call, pair: Pair, first: Visit, second: Visit): (Outcome, Pair)
    requires call.GetRing?
  {
    var (rings, pair') := RingAfter(cfg, call.mgr, pair, first);
    if !Raises(Answer(call, rings)) then (Answer(call, rings), pair')
    else
      var (rings', pair'') := RingAfter(cfg, call.mgr, Pair(None, 0.0), second);
      (Answer(call, rings'), pair'')
  }

  class SharedRings {
    var hashRings: Option<Rings>
    var updatedAt: real

    constructor ()
      ensures hashRings == None && updatedAt == 0.0
    {
      hashRings, updatedAt := None, 0.0;
    }

    function View(): Pair
      reads this
    {
      Pair(hashRings, updatedAt)
    }
  }

  class HashRingManager {
    const mgr: Manager
    const shared: SharedRings

    constructor (useGroups: bool, cached: bool, shared: SharedRings)
      ensures this.mgr == Manager(useGroups, cached) && this.shared == shared
    {
      this.mgr, this.shared := Manager(useGroups, cached), shared;
    }

    method LoadHashRings(table: Table) returns (rings: Rings)
      ensures rings == RingsOf(table.Active(mgr.useGroups))
    {
      rings := map[];
      var d2c := table.Active(mgr.useGroups);
      var pending := d2c.Keys;
      while pending != {}
        invariant pending <= d2c.Keys
        invariant rings == map driver | driver in d2c && driver !in pending :: HashRing.Ring(d2c[driver])
        decreases pending
      {
        var driver :| driver in pending;
        rings := rings[driver := HashRing.Ring(d2c[driver])];
        pending := pending - {driver};
      }
    }

    method Ring(cfg: Config, v: Visit) returns (rings: Rings)
      modifies shared
      ensures (rings, shared.View()) == RingAfter(cfg, mgr, old(shared.View()), v)
    {
      var limit := v.start - cfg.interval;
      if !mgr.cached {
        rings := LoadHashRings(v.table);
        return;
      }
      var hashRings, updatedAt := shared.hashRings, shared.updatedAt;
      if hashRings.Some? && (updatedAt >= limit || cfg.sqlite) {
        return hashRings.value;
      }
      if v.meanwhile.Some? {
        shared.hashRings, shared.updatedAt := v.meanwhile.value.rings, v.meanwhile.value.updatedAt;
      }
      hashRings, updatedAt := shared.hashRings, shared.updatedAt;
      if hashRings.None? || updatedAt < limit {
        rings := LoadHashRings(v.table);
        shared.hashRings, shared.updatedAt := Some(rings), v.published;
      } else {
        rings := hashRings.value;
      }
    }

    method Reset()
      modifies shared
      ensures shared.View() == Pair(None, 0.0)
    {
      shared.hashRings, shared.updatedAt := None, 0.0;
    }

    method GetRing(cfg: Config, driver: string, group: string, first: Visit, second: Visit)
      returns (r: Outcome)
      modifies shared
      ensures (r, shared.View())
           == GetRingAfter(cfg, HashRing.GetRing(mgr, driver, group), old(shared.View()), first, second)
    {
      var call := HashRing.GetRing(mgr, driver, group);
      var rings := Ring(cfg, first);
      r := Answer(call, rings);
      if Raises(r) {
        Reset();
        rings := Ring(cfg, second);
        r := Answer(call, rings);
      }
    }
  }

  /** What is seen under the lock is taken if it is recent enough: nobody rebuilds after somebody just did. */
  lemma NoSecondRebuild(cfg: Config, mgr: Manager, pair: Pair, v: Visit, seen: Pair)
    requires mgr.cached && v.meanwhile == Some(seen)
    requires seen.rings.Some? && seen.updatedAt >= v.start - cfg.interval
    requires pair.rings.None? || (pair.updatedAt < v.start - cfg.interval && !cfg.sqlite)
    ensures RingAfter(cfg, mgr, pair, v) == (seen.rings.value, seen)
  {
  }

  /** A rebuild takes the whole table and stamps the pair with the clock at publication. */
  lemma RebuildIsStamped(cfg: Config, mgr: Manager, pair: Pair, v: Visit)
    requires mgr.cached && v.meanwhile.None?
    requires pair.rings.None? || (pair.updatedAt < v.start - cfg.interval && !cfg.sqlite)
    ensures var (rings, pair') := RingAfter(cfg, mgr, pair, v);
            var d2c := if mgr.useGroups then v.table.grouped else v.table.plain;
            && pair' == Pair(Some(rings), v.published)
            && rings.Keys == d2c.Keys && forall k :: k in d2c ==> rings[k].hosts == d2c[k]
  {
  }

  /** The entry `get_ring` is about: with groups it is keyed `group:driver`. */
  predicate Listed(table: Table, mgr: Manager, driver: string, group: string, hosts: set<string>) {
    if mgr.useGroups then
      group + ":" + driver in table.grouped && table.grouped[group + ":" + driver] == hosts
    else
      driver in table.plain && table.plain[driver] == hosts
  }

  lemma ListedIsAnswered(table: Table, mgr: Manager, driver: string, group: string, hosts: set<string>)
    ensures Listed(table, mgr, driver, group, hosts) <==>
              Answer(HashRing.GetRing(mgr, driver, group), RingsOf(table.Active(mgr.useGroups)))
              == Found(HashRing.Ring(hosts))
  {
    var d2c := table.Active(mgr.useGroups);
    assert RingsOf(d2c).Keys == d2c.Keys;
    assert KeyOf(mgr, driver, group) in d2c ==> RingsOf(d2c) != map[];
  }

  /** A ring in the pair, before the call, that has the entry: it is handed out if the pair is recent enough. */
  lemma CachedIsFound(cfg: Config, mgr: Manager, pair: Pair, driver: string, group: string,
                      first: Visit, second: Visit)
    requires mgr.cached && pair.rings.Some? && (pair.updatedAt >= first.start - cfg.interval || cfg.sqlite)
    requires (if mgr.useGroups then group + ":" + driver else driver) in pair.rings.value
    ensures var key := if mgr.useGroups then group + ":" + driver else driver;
            GetRingAfter(cfg, HashRing.GetRing(mgr, driver, group), pair, first, second)
            == (Found(pair.rings.value[key]), pair)
  {
  }

  /**
   An undisturbed `get_ring` finds a ring whenever the table lists the entry; without a pair to go
   by, the listed one.
   */
  lemma ListedIsFound(cfg: Config, mgr: Manager, pair: Pair, driver: string, group: string, v: Visit,
                      hosts: set<string>)
    requires v.meanwhile.None? && Listed(v.table, mgr, driver, group, hosts)
    ensures var r := GetRingAfter(cfg, HashRing.GetRing(mgr, driver, group), pair, v, v).0;
            && r.Found?
            && (!mgr.cached || pair.rings.None? || (pair.updatedAt < v.start - cfg.interval && !cfg.sqlite) ==>
                  r == Found(HashRing.Ring(hosts)))
  {
    ListedIsAnswered(v.table, mgr, driver, group, hosts);
  }

  /** Undisturbed, `get_ring` raises only what a table loaded after the failure calls for. */
  lemma RetryLooksAfresh(cfg: Config, mgr: Manager, driver: string, group: string, pair: Pair,
                         first: Visit, second: Visit)
    requires second.meanwhile.None?
    requires Raises(GetRingAfter(cfg, HashRing.GetRing(mgr, driver, group), pair, first, second).0)
    ensures var r := GetRingAfter(cfg, HashRing.GetRing(mgr, driver, group), pair, first, second).0;
            var d2c := if mgr.useGroups then second.table.grouped else second.table.plain;
            && (r.TemporaryFailure? <==> d2c == map[])
            && (if mgr.useGroups then group + ":" + driver else driver) !in d2c
  {
    var d2c := second.table.Active(mgr.useGroups);
    assert RingsOf(d2c).Keys == d2c.Keys;
    if RingsOf(d2c) == map[] {
      assert d2c.Keys == {};
    }
  }

  // ---------------------------------------------------------------------------
  // The machine with one thread scheduled
  // ---------------------------------------------------------------------------

  /** `n` steps of thread `t` and of nobody else. */
  function Alone(cfg: Config, sh: Shared, t: ThreadId, th: Thread, n: nat): (r: (Shared, Thread))
    requires sh.hist != []
    ensures r.0.hist != []
    decreases n
  {
    if n == 0 then (sh, th)
    else
      var (sh', th') := AdvanceThread(cfg, sh, t, th);
      Alone(cfg, Record(sh'), t, th', n - 1)
  }

  function PairOf(cache: Option<Copy>): Pair {
    if cache.None? then Pair(None, 0.0) else Pair(Some(cache.value.rings), cache.value.stamp)
  }

  /** The second stretch of steps takes off where the first ends. */
  lemma {:induction false} AloneTwice(cfg: Config, sh: Shared, t: ThreadId, th: Thread, m: nat, n: nat)
    requires sh.hist != []
    ensures var (sh', th') := Alone(cfg, sh, t, th, m);
            Alone(cfg, sh, t, th, m + n) == Alone(cfg, sh', t, th', n)
    decreases m
  {
    if m == 0 {
    } else {
      var (sh', th') := AdvanceThread(cfg, sh, t, th);
      AloneTwice(cfg, Record(sh'), t, th', m - 1, n);
    }
  }

  /** Alone, the clock and the table stand still. */
  predicate Still(sh: Shared, sh': Shared) {
    sh'.hist != [] && sh'.now == sh.now && sh'.table == sh.table && sh'.lock.None?
  }

  /** An access of `ring` is through, and the look-up is next. */
  predicate Accessed(sh: Shared, th: Thread, sh': Shared, th': Thread, answer: (Rings, Pair)) {
    && Still(sh, sh') && th'.pc.Lookup? && th'.call == th.call && th'.failedAt == th.failedAt
    && th'.copy.Some? && th'.copy.value.rings == answer.0 && PairOf(sh'.cache) == answer.1
  }

  lemma AloneShortAccess(cfg: Config, sh: Shared, t: ThreadId, th: Thread)
    requires sh.hist != [] && sh.lock.None? && th.pc.ReadClock? && !th.call.Reset?
    requires th.call.mgr.cached ==> Usable(cfg, PairOf(sh.cache), sh.now)
    ensures var (sh', th') := Alone(cfg, sh, t, th, 2);
            Accessed(sh, th, sh', th',
                     RingAfter(cfg, th.call.mgr, PairOf(sh.cache), Visit(sh.now, sh.table, sh.now, None)))
  {
    var (sh1, th1) := AdvanceThread(cfg, sh, t, th);
    var (sh2, th2) := AdvanceThread(cfg, Record(sh1), t, th1);
    assert Alone(cfg, Record(sh1), t, th1, 1) == (Record(sh2), th2);
  }

  /** The second half of a rebuild: from the load to the look-up. */
  lemma AloneFromLoad(cfg: Config, sh: Shared, t: ThreadId, th: Thread)
    requires sh.hist != [] && th.pc.Load? && !th.call.Reset?
    ensures var (sh', th') := Alone(cfg, sh, t, th, 4);
            var loaded := RingsOf(sh.table.Active(th.call.mgr.useGroups));
            Accessed(sh, th, sh', th', (loaded, Pair(Some(loaded), sh.now)))
  {
    var (sh1, th1) := AdvanceThread(cfg, sh, t, th);
    var (sh2, th2) := AdvanceThread(cfg, Record(sh1), t, th1);
    var (sh3, th3) := AdvanceThread(cfg, Record(sh2), t, th2);
    var (sh4, th4) := AdvanceThread(cfg, Record(sh3), t, th3);
    assert Alone(cfg, Record(sh3), t, th3, 1) == (Record(sh4), th4);
    assert Alone(cfg, Record(sh1), t, th1, 3) == (Record(sh4), th4);
  }

  lemma AloneRebuild(cfg: Config, sh: Shared, t: ThreadId, th: Thread)
    requires sh.hist != [] && sh.lock.None? && th.pc.ReadClock? && !th.call.Reset?
    requires th.call.mgr.cached && !Usable(cfg, PairOf(sh.cache), sh.now)
    ensures var (sh', th') := Alone(cfg, sh, t, th, 8);
            Accessed(sh, th, sh', th',
                     RingAfter(cfg, th.call.mgr, PairOf(sh.cache), Visit(sh.now, sh.table, sh.now, None)))
  {
    var (sh1, th1) := AdvanceThread(cfg, sh, t, th);
    var (sh2, th2) := AdvanceThread(cfg, Record(sh1), t, th1);
    var (sh3, th3) := AdvanceThread(cfg, Record(sh2), t, th2);
    var (sh4, th4) := AdvanceThread(cfg, Record(sh3), t, th3);
    assert th4.pc.Load? && sh4.now == sh.now && sh4.table == sh.table;
    AloneFromLoad(cfg, Record(sh4), t, th4);
    assert Alone(cfg, Record(sh2), t, th2, 6) == Alone(cfg, Record(sh4), t, th4, 4);
  }

  /** From the clock to the look-up, as the method `Ring` has it. */
  lemma AloneAccess(cfg: Config, sh: Shared, t: ThreadId, th: Thread) returns (n: nat)
    requires sh.hist != [] && sh.lock.None? && th.pc.ReadClock? && !th.call.Reset?
    ensures n <= 8
    ensures var (sh', th') := Alone(cfg, sh, t, th, n);
            Accessed(sh, th, sh', th',
                     RingAfter(cfg, th.call.mgr, PairOf(sh.cache), Visit(sh.now, sh.table, sh.now, None)))
  {
    if th.call.mgr.cached && !Usable(cfg, PairOf(sh.cache), sh.now) {
      n := 8;
      AloneRebuild(cfg, sh, t, th);
    } else {
      n := 2;
      AloneShortAccess(cfg, sh, t, th);
    }
  }

  /** Undisturbed, the machine's `ring` is the method `Ring`. */
  lemma AloneIsSequential(cfg: Config, sh: Shared, t: ThreadId, mgr: Manager) returns (n: nat)
    requires sh.hist != [] && sh.lock.None?
    ensures n <= 9
    ensures var (sh', th') := Alone(cfg, sh, t, NewThread(RingAccess(mgr)), n);
            var (rings, pair) := RingAfter(cfg, mgr, PairOf(sh.cache), Visit(sh.now, sh.table, sh.now, None));
            && th'.outcome == Returned(rings) && PairOf(sh'.cache) == pair && sh'.lock == None
  {
    var th := NewThread(RingAccess(mgr));
    var m := AloneAccess(cfg, sh, t, th);
    var (sh1, th1) := Alone(cfg, sh, t, th, m);
    n := m + 1;
    AloneTwice(cfg, sh, t, th, m, 1);
    assert Alone(cfg, sh1, t, th1, 1) == (Record(sh1), LookupStep(sh1, th1));
  }

  /** Its `reset`, on its own or in a `get_ring`, is the method `Reset`. */
  lemma AloneReset(cfg: Config, sh: Shared, t: ThreadId, th: Thread)
    requires sh.hist != [] && sh.lock.None? && th.pc.AwaitReset?
    ensures var (sh', th') := Alone(cfg, sh, t, th, 3);
            && Still(sh, sh') && PairOf(sh'.cache) == Pair(None, 0.0) && th'.call == th.call
            && th'.failedAt == th.failedAt && th'.copy == th.copy
            && if th.call.Reset? then th'.pc.Finished? && th'.outcome.Cleared? else th'.pc.ReadClock?
  {
    var (sh1, th1) := AdvanceThread(cfg, sh, t, th);
    var (sh2, th2) := AdvanceThread(cfg, Record(sh1), t, th1);
    var (sh3, th3) := AdvanceThread(cfg, Record(sh2), t, th2);
    assert Alone(cfg, Record(sh2), t, th2, 1) == (Record(sh3), th3);
    assert Alone(cfg, Record(sh1), t, th1, 2) == (Record(sh3), th3);
  }

  /** The look-up, which ends the call unless it is the first and fails. */
  lemma AloneLookup(cfg: Config, sh: Shared, t: ThreadId, th: Thread)
    requires sh.hist != [] && sh.lock.None? && th.pc.Lookup? && th.copy.Some? && th.call.GetRing?
    ensures var (sh', th') := Alone(cfg, sh, t, th, 1);
            && Still(sh, sh') && sh'.cache == sh.cache && th'.call == th.call
            && if Raises(Answer(th.call, th.copy.value.rings)) && th.failedAt.None?
               then th'.pc.AwaitReset? && th'.failedAt.Some?
               else th'.pc.Finished? && th'.outcome == Answer(th.call, th.copy.value.rings)
  {
    assert Alone(cfg, sh, t, th, 1) == (Record(sh), LookupStep(sh, th));
  }

  /** The retry, from the reset to the end. */
  lemma AloneRetry(cfg: Config, sh: Shared, t: ThreadId, th: Thread) returns (n: nat)
    requires sh.hist != [] && sh.lock.None? && th.pc.AwaitReset? && th.call.GetRing? && th.failedAt.Some?
    ensures n <= 12
    ensures var (sh', th') := Alone(cfg, sh, t, th, n);
            var (rings, pair) :=
              RingAfter(cfg, th.call.mgr, Pair(None, 0.0), Visit(sh.now, sh.table, sh.now, None));
            th'.pc.Finished? && th'.outcome == Answer(th.call, rings) && PairOf(sh'.cache) == pair
  {
    AloneReset(cfg, sh, t, th);
    var (sh1, th1) := Alone(cfg, sh, t, th, 3);
    var m := AloneAccess(cfg, sh1, t, th1);
    AloneTwice(cfg, sh, t, th, 3, m);
    var (sh2, th2) := Alone(cfg, sh, t, th, 3 + m);
    AloneLookup(cfg, sh2, t, th2);
    n := 3 + m + 1;
    AloneTwice(cfg, sh, t, th, 3 + m, 1);
  }

  /** The first access and look-up. */
  lemma AloneFirst(cfg: Config, sh: Shared, t: ThreadId, call: Call) returns (n: nat)
    requires sh.hist != [] && sh.lock.None? && call.GetRing?
    ensures n <= 9
    ensures var (sh', th') := Alone(cfg, sh, t, NewThread(call), n);
            var (rings, pair) := RingAfter(cfg, call.mgr, PairOf(sh.cache), Visit(sh.now, sh.table, sh.now, None));
            && Still(sh, sh') && th'.call == call && PairOf(sh'.cache) == pair
            && if Raises(Answer(call, rings)) then th'.pc.AwaitReset? && th'.failedAt.Some?
               else th'.pc.Finished? && th'.outcome == Answer(call, rings)
  {
    var th := NewThread(call);
    var m := AloneAccess(cfg, sh, t, th);
    var (sh1, th1) := Alone(cfg, sh, t, th, m);
    AloneLookup(cfg, sh1, t, th1);
    AloneTwice(cfg, sh, t, th, m, 1);
    n := m + 1;
  }

  /** Undisturbed, the machine's `get_ring` is the method `GetRing`. */
  lemma AloneGetRing(cfg: Config, sh: Shared, t: ThreadId, call: Call) returns (n: nat)
    requires sh.hist != [] && sh.lock.None? && call.GetRing?
    ensures n <= 21
    ensures var (sh', th') := Alone(cfg, sh, t, NewThread(call), n);
            var v := Visit(sh.now, sh.table, sh.now, None);
            th'.pc.Finished? && (th'.outcome, PairOf(sh'.cache)) == GetRingAfter(cfg, call, PairOf(sh.cache), v, v)
  {
    n := AloneFirst(cfg, sh, t, call);
    var (sh1, th1) := Alone(cfg, sh, t, NewThread(call), n);
    if th1.pc.AwaitReset? {
      var k := AloneRetry(cfg, sh1, t, th1);
      AloneTwice(cfg, sh, t, NewThread(call), n, k);
      n := n + k;
    }
  }
}
