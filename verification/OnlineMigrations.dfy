/**
 The online data migrations of `ironic/command/dbsync.py`: a budgeted pass over an ordered
 list of migrations, run once or until done.
 */
module OnlineMigrations {
  import opened Wrappers

  /** A row of the database that a migration has to bring up to date. */
  type Row = nat

  /** One call of a migration function: which, with what limit, and what was pending then. */
  datatype Call = Call(migration: nat, limit: nat, found: seq<seq<Row>>)

  const BATCH: nat := 50

  /** All pending rows, in the order of the list of migrations. */
  function Flatten(pending: seq<seq<Row>>): seq<Row> {
    if pending == [] then [] else pending[0] + Flatten(pending[1..])
  }

  /** The queues after the first `n` rows of them all are migrated. */
  function Drain(pending: seq<seq<Row>>, n: nat): seq<seq<Row>> {
    if pending == [] then []
    else
      var k := Min(n, |pending[0]|);
      [pending[0][k..]] + Drain(pending[1..], n - k)
  }

  lemma {:induction false} DrainFlatten(pending: seq<seq<Row>>, n: nat)
    ensures |Drain(pending, n)| == |pending|
    ensures Flatten(Drain(pending, n)) == Flatten(pending)[Min(n, |Flatten(pending)|)..]
  {
    if pending == [] {
    } else {
      var k := Min(n, |pending[0]|);
      DrainFlatten(pending[1..], n - k);
    }
  }

  lemma {:induction false} DrainNothing(pending: seq<seq<Row>>)
    ensures Drain(pending, 0) == pending
  {
    if pending == [] {
    } else {
      DrainNothing(pending[1..]);
    }
  }

  /** Draining at least the first queue empties it and goes on with the rest. */
  lemma DrainPast(first: seq<Row>, rest: seq<seq<Row>>, n: nat)
    requires n >= |first|
    ensures Drain([first] + rest, n) == [[]] + Drain(rest, n - |first|)
  {
    assert ([first] + rest)[1..] == rest;
    assert first[|first|..] == [];
  }

  lemma DrainPart(first: seq<Row>, rest: seq<seq<Row>>, n: nat)
    requires n <= |first|
    ensures Drain([first] + rest, n) == [first[n..]] + rest
  {
    assert ([first] + rest)[1..] == rest;
    DrainNothing(rest);
  }

  lemma OneMoreEmptied(n: nat, queue: seq<Row>, after: seq<seq<Row>>)
    ensures [[]] + (Emptied(n) + [queue] + after) == Emptied(n + 1) + [queue] + after
  {
  }

  /** Draining past the queues in `before` and `k` rows of the next. */
  lemma {:induction false} DrainInto(before: seq<seq<Row>>, queue: seq<Row>, after: seq<seq<Row>>, k: nat)
    requires k <= |queue|
    ensures Drain(before + [queue] + after, |Flatten(before)| + k) == Emptied(|before|) + [queue[k..]] + after
  {
    if before == [] {
      assert before + [queue] + after == [queue] + after;
      DrainPart(queue, after, k);
    } else {
      var first, rest := before[0], before[1..];
      assert before + [queue] + after == [first] + (rest + [queue] + after);
      DrainPast(first, rest + [queue] + after, |Flatten(before)| + k);
      DrainInto(rest, queue, after, k);
      OneMoreEmptied(|rest|, queue[k..], after);
    }
  }

  lemma {:induction false} DrainAll(pending: seq<seq<Row>>, n: nat)
    requires n >= |Flatten(pending)|
    ensures Drain(pending, n) == Emptied(|pending|)
  {
    if pending == [] {
    } else {
      assert pending == [pending[0]] + pending[1..];
      DrainPast(pending[0], pending[1..], n);
      DrainAll(pending[1..], n - |pending[0]|);
      EmptiedSplit(|pending|);
    }
  }

  lemma EmptiedSplit(n: nat)
    requires n > 0
    ensures Emptied(n) == [[]] + Emptied(n - 1) == Emptied(n - 1) + [[]]
  {
  }

  function Emptied(n: nat): seq<seq<Row>> {
    seq(n, i => [])
  }

  lemma {:induction false} FlattenSplit(pending: seq<seq<Row>>, i: nat)
    requires i <= |pending|
    ensures Flatten(pending) == Flatten(pending[..i]) + Flatten(pending[i..])
  {
    if i > 0 {
      FlattenSplit(pending[1..], i - 1);
      assert pending[..i][1..] == pending[1..][..i - 1];
      assert pending[1..][i - 1..] == pending[i..];
    } else {
      assert pending[..0] == [] && pending[0..] == pending;
    }
  }

  lemma FlattenNext(pending: seq<seq<Row>>, i: nat)
    requires i < |pending|
    ensures Flatten(pending[..i + 1]) == Flatten(pending[..i]) + pending[i]
  {
    FlattenSplit(pending[..i + 1], i);
    assert pending[..i + 1][..i] == pending[..i];
    assert pending[..i + 1][i..] == [pending[i]];
    assert Flatten([pending[i]]) == pending[i] + Flatten([]);
  }

  lemma FirstRows(done: seq<Row>, queue: seq<Row>, rest: seq<Row>, k: nat)
    requires k <= |queue|
    ensures (done + queue + rest)[..|done| + k] == done + queue[..k]
  {
  }

  lemma QueueUpdated(start: seq<seq<Row>>, i: nat, queue: seq<Row>)
    requires i < |start|
    ensures (Emptied(i) + start[i..])[i] == start[i]
    ensures (Emptied(i) + start[i..])[i := queue] == Emptied(i) + [queue] + start[i + 1..]
    ensures queue == [] ==> (Emptied(i) + start[i..])[i := queue] == Emptied(i + 1) + start[i + 1..]
  {
  }

  /** The migration that uses up the budget, `k` rows into its queue. */
  lemma PassStops(start: seq<seq<Row>>, i: nat, k: nat)
    requires i < |start| && k <= |start[i]|
    ensures var done := Flatten(start[..i]);
            && Drain(start, |done| + k) == Emptied(i) + [start[i][k..]] + start[i + 1..]
            && |Flatten(start)| >= |done| + k && Flatten(start)[..|done| + k] == done + start[i][..k]
  {
    assert start == start[..i] + [start[i]] + start[i + 1..];
    DrainInto(start[..i], start[i], start[i + 1..], k);
    FlattenNext(start, i);
    FlattenSplit(start, i + 1);
    FirstRows(Flatten(start[..i]), start[i], Flatten(start[i + 1..]), k);
  }

  /** What one more migration does to a pass that is `|Flatten(start[..i])|` rows into its budget. */
  lemma PassStep(start: seq<seq<Row>>, i: nat, budget: nat)
    requires i < |start| && |Flatten(start[..i])| < budget
    ensures var done := Flatten(start[..i]);
            var k := Min(budget - |done|, |start[i]|);
            var pending := Emptied(i) + start[i..];
            && pending[i] == start[i]
            && if |done| + k >= budget then
                 && pending[i := start[i][k..]] == Drain(start, budget)
                 && |Flatten(start)| >= budget && Flatten(start)[..budget] == done + start[i][..k]
               else
                 && pending[i := start[i][k..]] == Emptied(i + 1) + start[i + 1..]
                 && k == |start[i]| && start[i][..k] == start[i]
                 && Flatten(start[..i + 1]) == done + start[i]
  {
    var k := Min(budget - |Flatten(start[..i])|, |start[i]|);
    QueueUpdated(start, i, start[i][k..]);
    if |Flatten(start[..i])| + k >= budget {
      PassStops(start, i, k);
    } else {
      FlattenNext(start, i);
    }
  }

  /** Never with the limit that means "all", and never ahead of an earlier migration. */
  predicate Disciplined(calls: seq<Call>) {
    forall c :: c in calls ==>
      c.limit >= 1 && c.migration < |c.found| && forall j :: 0 <= j < c.migration ==> c.found[j] == []
  }

  lemma DisciplinedCall(calls: seq<Call>, start: seq<seq<Row>>, i: nat, limit: nat)
    requires Disciplined(calls) && i < |start| && limit >= 1
    ensures Disciplined(calls + [Call(i, limit, Emptied(i) + start[i..])])
  {
  }

  lemma PassEnds(start: seq<seq<Row>>, budget: nat)
    requires |Flatten(start)| < budget
    ensures start[..|start|] == start
    ensures Emptied(|start|) + start[|start|..] == Emptied(|start|) == Drain(start, budget)
  {
    DrainAll(start, budget);
  }

  /** How many batches it takes until one is not full. */
  function PassesFor(rows: nat): nat {
    if rows < BATCH then 1 else 1 + PassesFor(rows - BATCH)
  }

  lemma {:induction false} PassesForExactly(rows: nat)
    ensures PassesFor(rows) == rows / BATCH + 1
  {
    if rows < BATCH {
    } else {
      PassesForExactly(rows - BATCH);
    }
  }

  /** After `done`, `left` is what is left of `all`. */
  lemma OneBatch(all: seq<Row>, done: seq<Row>, left: seq<Row>, k: nat)
    requires all == done + left && k <= |left|
    ensures all == (done + left[..k]) + left[k..]
  {
  }

  // ---------------------------------------------------------------------------
  // One pass
  // ---------------------------------------------------------------------------

  datatype Progress = Progress(pending: seq<seq<Row>>, migrated: seq<Row>, finished: bool)

  /** A pass over the whole list with budget `n`. */
  function Pass(p: Progress, n: nat): Progress {
    var all := Flatten(p.pending);
    Progress(Drain(p.pending, n), p.migrated + all[..Min(n, |all|)], |all| < n)
  }

  // ---------------------------------------------------------------------------
  // The database and the command
  // ---------------------------------------------------------------------------

  class Database {
    var pending: seq<seq<Row>>
    var migrated: seq<Row>
    ghost var calls: seq<Call>

    constructor (pending: seq<seq<Row>>)
      ensures this.pending == pending && migrated == [] && calls == []
    {
      this.pending, migrated, calls := pending, [], [];
    }

    /** What the list of migrations promises of each: up to `limit` rows from the front, or all for 0. */
    method Migrate(i: nat, limit: nat) returns (total: nat, done: nat)
      requires i < |pending|
      modifies this
      ensures total == |old(pending)[i]|
      ensures done == if limit == 0 then total else Min(limit, total)
      ensures pending == old(pending)[i := old(pending)[i][done..]]
      ensures migrated == old(migrated) + old(pending)[i][..done]
      ensures calls == old(calls) + [Call(i, limit, old(pending))]
    {
      calls := calls + [Call(i, limit, pending)];
      total := |pending[i]|;
      done := if limit == 0 then total else Min(limit, total);
      migrated := migrated + pending[i][..done];
      pending := pending[i := pending[i][done..]];
    }
  }

  class DBCommand {
    constructor () {}

    /** One pass: the first `maxCount` pending rows are migrated, and it tells whether that was short of the budget. */
    method RunMigrationFunctions(db: Database, maxCount: nat) returns (finished: bool)
      requires maxCount >= 1 && Disciplined(db.calls)
      modifies db
      ensures Progress(db.pending, db.migrated, finished)
                == Pass(Progress(old(db.pending), old(db.migrated), false), maxCount)
      ensures finished <==> |Flatten(old(db.pending))| < maxCount
      ensures db.pending == Drain(old(db.pending), maxCount)
      ensures db.migrated == old(db.migrated)
                + Flatten(old(db.pending))[..Min(maxCount, |Flatten(old(db.pending))|)]
      ensures Disciplined(db.calls)
    {
      var totalMigrated := 0;
      var i := 0;
      ghost var start := db.pending;
      ghost var before := db.migrated;
      while i < |db.pending|
        invariant 0 <= i <= |start|
        invariant db.pending == Emptied(i) + start[i..]
        invariant db.migrated == before + Flatten(start[..i])
        invariant totalMigrated == |Flatten(start[..i])| < maxCount
        invariant Disciplined(db.calls)
      {
        PassStep(start, i, maxCount);
        var numToMigrate := maxCount - totalMigrated;
        DisciplinedCall(db.calls, start, i, numToMigrate);
        var totalToDo, numMigrated := db.Migrate(i, numToMigrate);
        totalMigrated := totalMigrated + numMigrated;
        if totalMigrated >= maxCount {
          return false;
        }
        i := i + 1;
      }
      assert start[..i] == start;
      PassEnds(start, maxCount);
      return true;
    }

    /** Batches of the default size until migrations have been completed. */
    method RunBatches(db: Database) returns (passes: nat)
      requires Disciplined(db.calls)
      modifies db
      ensures Disciplined(db.calls) && Flatten(db.pending) == []
      ensures db.migrated == old(db.migrated) + Flatten(old(db.pending))
      ensures passes == PassesFor(|Flatten(old(db.pending))|)
    {
      passes := 0;
      var finishedMigrating := false;
      ghost var all, before := Flatten(db.pending), db.migrated;
      ghost var done: seq<Row> := [];
      while !finishedMigrating
        invariant Disciplined(db.calls)
        invariant all == done + Flatten(db.pending) && db.migrated == before + done
        invariant if finishedMigrating then Flatten(db.pending) == [] && passes == PassesFor(|all|)
                  else passes + PassesFor(|Flatten(db.pending)|) == PassesFor(|all|)
        decreases |Flatten(db.pending)|, !finishedMigrating
      {
        ghost var left := Flatten(db.pending);
        ghost var k := Min(BATCH, |left|);
        DrainFlatten(db.pending, BATCH);
        OneBatch(all, done, left, k);
        finishedMigrating := RunMigrationFunctions(db, BATCH);
        passes := passes + 1;
        done := done + left[..k];
      }
      assert done == all;
    }

    /** `online_data_migrations`: the exit code, and how many passes it took. */
    method RunOnlineDataMigrations(db: Database, maxCount: Option<int>, options: seq<string>)
      returns (exit: int, passes: nat)
      requires Disciplined(db.calls)
      modifies db
      ensures Disciplined(db.calls)
      ensures exit == 127 <==> (exists o :: o in options && ParseOption(o).None?)
                               || (maxCount.Some? && maxCount.value < 1)
      ensures exit == 127 ==> db.pending == old(db.pending) && db.migrated == old(db.migrated)
      ensures exit != 127 && maxCount.None? ==>
                && exit == 0 && db.migrated == old(db.migrated) + Flatten(old(db.pending))
                && Flatten(db.pending) == [] && passes == |Flatten(old(db.pending))| / 50 + 1
      ensures exit != 127 && maxCount.Some? ==>
                && exit == (if |Flatten(old(db.pending))| < maxCount.value then 0 else 1)
                && db.pending == Drain(old(db.pending), maxCount.value)
                && db.migrated == old(db.migrated)
                     + Flatten(old(db.pending))[..Min(maxCount.value, |Flatten(old(db.pending))|)]
    {
      var parsedOptions := ParseOptions(options);
      passes := 0;
      if parsedOptions.None? {
        return 127, 0;
      }
      if maxCount.None? {
        PassesForExactly(|Flatten(db.pending)|);
        passes := RunBatches(db);
        return 0, passes;
      }
      if maxCount.value < 1 {
        return 127, 0;
      }
      var finished := RunMigrationFunctions(db, maxCount.value);
      return if finished then 0 else 1, 1;
    }
  }

  // ---------------------------------------------------------------------------
  // Options
  // ---------------------------------------------------------------------------

  /** Python's `s.split(c, 1)` into exactly two. */
  function SplitOnce(s: string, c: char): Option<(string, string)> {
    if s == "" then None
    else if s[0] == c then Some(("", s[1..]))
    else
      match SplitOnce(s[1..], c)
      case None => None
      case Some((a, b)) => Some(([s[0]] + a, b))
  }

  lemma {:induction false} SplitOnceExactly(s: string, c: char, a: string, b: string)
    ensures SplitOnce(s, c) == Some((a, b)) <==> s == a + [c] + b && c !in a
  {
    if s == "" {
    } else if s[0] == c {
      assert (a + [c] + b)[0] == if a == "" then c else a[0];
      assert a == "" ==> (a + [c] + b)[1..] == b;
    } else {
      if SplitOnce(s, c) == Some((a, b)) {
        SplitOnceExactly(s[1..], c, a[1..], b);
        assert a == [s[0]] + a[1..];
      }
      if s == a + [c] + b && c !in a {
        assert a != "" && a[0] == s[0];
        assert s[1..] == a[1..] + [c] + b;
        assert c !in a[1..];
        SplitOnceExactly(s[1..], c, a[1..], b);
        assert a == [s[0]] + a[1..];
      }
    }
  }

  function ParseOption(option: string): Option<(string, string, string)> {
    match SplitOnce(option, '.')
    case None => None
    case Some((migration, keyValue)) =>
      match SplitOnce(keyValue, '=')
      case None => None
      case Some((key, value)) => Some((migration, key, value))
  }

  /** `<migration>.<option>=<value>`, cut at the first dot and the first equals sign after it. */
  lemma ParseOptionExactly(o: string, m: string, k: string, v: string)
    ensures ParseOption(o) == Some((m, k, v)) <==> o == m + "." + k + "=" + v && '.' !in m && '=' !in k
  {
    var kv := k + "=" + v;
    assert m + "." + k + "=" + v == m + "." + kv;
    assert k + "=" + v == k + ['='] + v && m + "." + kv == m + ['.'] + kv;
    SplitOnceExactly(o, '.', m, kv);
    SplitOnceExactly(kv, '=', k, v);
    if ParseOption(o) == Some((m, k, v)) {
      var (a, b) := SplitOnce(o, '.').value;
      SplitOnceExactly(o, '.', a, b);
      SplitOnceExactly(b, '=', k, v);
    }
  }

  /** Option `o` sets key `k` of migration `m`. */
  predicate Sets(o: string, m: string, k: string) {
    ParseOption(o).Some? && ParseOption(o).value.0 == m && ParseOption(o).value.1 == k
  }

  type Options = map<string, map<string, string>>

  predicate Has(options: Options, m: string, k: string) {
    m in options && k in options[m]
  }

  ghost predicate LastSets(options: seq<string>, i: int, m: string, k: string) {
    0 <= i < |options| && Sets(options[i], m, k) && forall j :: i < j < |options| ==> !Sets(options[j], m, k)
  }

  /** Nothing but what was given, and of several values the last. */
  ghost predicate Collected(parsed: Options, options: seq<string>) {
    && (forall m, k :: Has(parsed, m, k) <==> exists i :: 0 <= i < |options| && Sets(options[i], m, k))
    && (forall m, k, i :: LastSets(options, i, m, k) ==>
          Has(parsed, m, k) && parsed[m][k] == ParseOption(options[i]).value.2)
  }

  method ParseOptions(options: seq<string>) returns (r: Option<Options>)
    ensures r.None? <==> exists o :: o in options && ParseOption(o).None?
    ensures r.Some? ==> Collected(r.value, options)
  {
    var parsed: Options := map[];
    for n := 0 to |options|
      invariant forall o :: o in options[..n] ==> ParseOption(o).Some?
      invariant Collected(parsed, options[..n])
    {
      var option := ParseOption(options[n]);
      if option.None? {
        assert options[n] in options;
        return None;
      }
      var (migration, key, value) := option.value;
      ghost var was := parsed;
      if migration !in parsed {
        parsed := parsed[migration := map[]];
      }
      parsed := parsed[migration := parsed[migration][key := value]];
      CollectOne(was, parsed, options[..n], options[n]);
      assert options[..n + 1] == options[..n] + [options[n]];
    }
    assert options[..|options|] == options;
    return Some(parsed);
  }

  lemma CollectOne(was: Options, parsed: Options, options: seq<string>, o: string)
    requires Collected(was, options) && ParseOption(o).Some?
    requires var (m, k, v) := ParseOption(o).value;
             parsed == was[m := (if m in was then was[m] else map[])[k := v]]
    ensures Collected(parsed, options + [o])
  {
    var (m0, k0, v0) := ParseOption(o).value;
    var all := options + [o];
    forall m, k
      ensures Has(parsed, m, k) <==> exists i :: 0 <= i < |all| && Sets(all[i], m, k)
    {
      assert Has(parsed, m, k) <==> Has(was, m, k) || Sets(o, m, k);
      if Has(was, m, k) {
        var i :| 0 <= i < |options| && Sets(options[i], m, k);
        assert Sets(all[i], m, k);
      }
      if Sets(o, m, k) {
        assert Sets(all[|options|], m, k);
      }
    }
    forall m, k, i | LastSets(all, i, m, k)
      ensures Has(parsed, m, k) && parsed[m][k] == ParseOption(all[i]).value.2
    {
      if i < |options| {
        assert !Sets(all[|options|], m, k);
        assert forall j :: i < j < |options| ==> all[j] == options[j];
        assert LastSets(options, i, m, k);
      }
    }
  }

  // ---------------------------------------------------------------------------
  // Batches
  // ---------------------------------------------------------------------------

  /** The command re-run with these budgets, stopping when it reports completion. */
  function Rerun(p: Progress, budgets: seq<nat>): Progress
    decreases |budgets|
  {
    if budgets == [] || p.finished then p else Rerun(Pass(p, budgets[0]), budgets[1..])
  }

  function Sum(budgets: seq<nat>): nat {
    if budgets == [] then 0 else budgets[0] + Sum(budgets[1..])
  }

  /** Rows are conserved, and completion means that nothing is pending. */
  lemma {:induction false} RerunConserves(p: Progress, budgets: seq<nat>)
    requires p.finished ==> Flatten(p.pending) == []
    ensures var q := Rerun(p, budgets);
            && q.migrated + Flatten(q.pending) == p.migrated + Flatten(p.pending)
            && (q.finished ==> Flatten(q.pending) == [])
            && |q.migrated| <= |p.migrated| + Sum(budgets)
    decreases |budgets|
  {
    if budgets == [] || p.finished {
    } else {
      var all := Flatten(p.pending);
      var k := Min(budgets[0], |all|);
      DrainFlatten(p.pending, budgets[0]);
      assert all == all[..k] + all[k..];
      RerunConserves(Pass(p, budgets[0]), budgets[1..]);
    }
  }

  lemma {:induction false} RerunFinishes(p: Progress, budgets: seq<nat>)
    requires forall n :: n in budgets ==> n >= 1
    ensures Sum(budgets) > |Flatten(p.pending)| ==> Rerun(p, budgets).finished
    ensures !p.finished && Rerun(p, budgets).finished ==> Sum(budgets) > |Flatten(p.pending)|
    decreases |budgets|
  {
    if budgets == [] || p.finished {
    } else {
      assert forall n :: n in budgets[1..] ==> n in budgets;
      DrainFlatten(p.pending, budgets[0]);
      RerunFinishes(Pass(p, budgets[0]), budgets[1..]);
      if |Flatten(p.pending)| < budgets[0] {
        assert Rerun(Pass(p, budgets[0]), budgets[1..]) == Pass(p, budgets[0]);
      }
    }
  }

  /**
   Batch size does not matter: re-runs finish exactly when the budgets exceed the work, and then all
   rows were migrated in list order.
   */
  lemma BatchSizeDoesNotMatter(pending: seq<seq<Row>>, budgets: seq<nat>)
    requires forall n :: n in budgets ==> n >= 1
    ensures var q := Rerun(Progress(pending, [], false), budgets);
            && (q.finished <==> Sum(budgets) > |Flatten(pending)|)
            && (q.finished ==> q.migrated == Flatten(pending) && Flatten(q.pending) == [])
            && (!q.finished ==> q.migrated <= Flatten(pending) && |q.migrated| == Sum(budgets))
  {
    var p := Progress(pending, [], false);
    RerunConserves(p, budgets);
    RerunFinishes(p, budgets);
    var q := Rerun(p, budgets);
    assert [] + Flatten(pending) == Flatten(pending);
    if q.finished {
      assert q.migrated + [] == q.migrated;
    } else {
      UnfinishedSpendsAll(p, budgets);
    }
  }

  lemma {:induction false} UnfinishedSpendsAll(p: Progress, budgets: seq<nat>)
    requires !Rerun(p, budgets).finished
    ensures |Rerun(p, budgets).migrated| == |p.migrated| + Sum(budgets)
    decreases |budgets|
  {
    if budgets == [] {
    } else {
      var next := Pass(p, budgets[0]);
      UnfinishedSpendsAll(next, budgets[1..]);
    }
  }
}
