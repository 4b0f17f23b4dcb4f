/** Migration planning of the database migration manager: which migrations
    `migrate`, `migrateToDateTime` and `rollback` run, in which direction and
    order, which seeds `seed` runs, and the exit code of `printStatus`.
    Running a migration or a seed is recorded as a step of a trace. */
module Migration {
  import opened Wrappers
  import opened Strings
  import opened Seeds

  datatype Direction = Up | Down

  /** One call of `executeMigration` or `executeSeed`. */
  datatype Step = Migrated(version: nat, direction: Direction) | Seeded(seed: string)

  /** A row of the environment's version log. `start` is the start time in
      `YmdHis` form, as `rollback` compares it. */
  datatype LogEntry = LogEntry(version: nat, name: string, start: nat, breakpoint: bool)

  /** What the environment reports: `getVersions`, `getCurrentVersion` and
      `getVersionLog` (in log order, one row per version). */
  datatype Env = Env(versions: seq<nat>, current: nat, log: seq<LogEntry>)

  /** The `$target` of `rollback`: null, `'all'`/`'0'`, a numeric version, or
      any other string, which names a migration. */
  datatype RollbackTarget = Previous | All | Version(v: nat) | Named(name: string)

  predicate Ascending(s: seq<nat>)
  {
    forall i, j :: 0 <= i < j < |s| ==> s[i] < s[j]
  }

  predicate Descending(s: seq<nat>)
  {
    forall i, j :: 0 <= i < j < |s| ==> s[i] > s[j]
  }

  function MaxOf(s: seq<nat>): (m: nat)
    requires |s| > 0
    ensures m in s && forall x :: x in s ==> x <= m
  {
    if |s| == 1 then s[0]
    else
      var r := MaxOf(s[1..]);
      assert forall x :: x in s ==> x == s[0] || x in s[1..];
      if s[0] > r then s[0] else r
  }

  /** The trace entries for running `vs` in direction `d`. */
  function Steps(vs: seq<nat>, d: Direction): (r: seq<Step>)
    ensures |r| == |vs|
    ensures forall j :: 0 <= j < |vs| ==> r[j] == Migrated(vs[j], d)
  {
    if |vs| == 0 then [] else Steps(vs[..|vs| - 1], d) + [Migrated(vs[|vs| - 1], d)]
  }

  // ---------------------------------------------------------------- migrate

  /** The down phase of `migrate`: the available versions newest first, up to
      the first one at or below the target, keeping those that have run. */
  function DownSteps(ms: seq<nat>, ran: seq<nat>, t: nat): seq<nat>
  {
    if |ms| == 0 then []
    else
      var m := ms[|ms| - 1];
      if m <= t then [] else (if m in ran then [m] else []) + DownSteps(ms[..|ms| - 1], ran, t)
  }

  /** The up phase of `migrate`: the available versions oldest first, up to
      the first one above the target, keeping those that have not run. */
  function UpSteps(ms: seq<nat>, ran: seq<nat>, t: nat): seq<nat>
  {
    if |ms| == 0 then []
    else if ms[0] > t then []
    else (if ms[0] !in ran then [ms[0]] else []) + UpSteps(ms[1..], ran, t)
  }

  /** The version `migrate` heads for, or `None` when it returns early. */
  function MigrateTarget(ms: seq<nat>, ran: seq<nat>, target: Option<nat>): Option<nat>
  {
    if |ran| == 0 && |ms| == 0 then None
    else if target.None? then Some(MaxOf(ran + ms))
    else if target.value != 0 && target.value !in ms then None
    else target
  }

  /** The steps of `migrate($environment, $version)`. */
  function MigratePlan(ms: seq<nat>, ran: seq<nat>, current: nat, target: Option<nat>): seq<Step>
  {
    match MigrateTarget(ms, ran, target)
    case None => []
    case Some(t) =>
      (if t > current then [] else Steps(DownSteps(ms, ran, t), Down)) + Steps(UpSteps(ms, ran, t), Up)
  }

  /** The versions `migrateToDateTime` considers: those at or before the date. */
  function Outstanding(ms: seq<nat>, date: nat): (r: seq<nat>)
    ensures forall v :: v in r <==> v in ms && v <= date
  {
    if |ms| == 0 then []
    else Outstanding(ms[..|ms| - 1], date) + (if ms[|ms| - 1] <= date then [ms[|ms| - 1]] else [])
  }

  /** The version `migrateToDateTime` migrates to: the newest available
      version at or before the date, if there is one. */
  function DateTarget(ms: seq<nat>, date: nat): (r: Option<nat>)
    ensures r.Some? ==> r.value in ms && r.value <= date && forall v :: v in ms && v <= date ==> v <= r.value
    ensures r.None? <==> forall v :: v in ms ==> v > date
  {
    var out := Outstanding(ms, date);
    if |out| > 0 then Some(MaxOf(out)) else None
  }

  // --------------------------------------------------------------- rollback

  /** The log rows that have a migration, in log order (`rollback` drops the others). */
  function Known(ms: seq<nat>, log: seq<LogEntry>): (r: seq<LogEntry>)
    ensures forall e :: e in r <==> e in log && e.version in ms
  {
    if |log| == 0 then []
    else Known(ms, log[..|log| - 1]) + (if log[|log| - 1].version in ms then [log[|log| - 1]] else [])
  }

  /** The rows newest first, as `array_unshift` builds them. */
  function Reverse(es: seq<LogEntry>): (r: seq<LogEntry>)
    ensures |r| == |es|
    ensures forall j :: 0 <= j < |es| ==> r[j] == es[|es| - 1 - j]
  {
    if |es| == 0 then [] else [es[|es| - 1]] + Reverse(es[..|es| - 1])
  }

  function VersionsOf(es: seq<LogEntry>): (r: seq<nat>)
    ensures |r| == |es|
    ensures forall j :: 0 <= j < |es| ==> r[j] == es[j].version
  {
    if |es| == 0 then [] else VersionsOf(es[..|es| - 1]) + [es[|es| - 1].version]
  }

  /** The version of the first row with migration name `n`. */
  function NamedVersion(es: seq<LogEntry>, n: string): (r: Option<nat>)
    ensures r.Some? ==> exists e :: e in es && e.name == n && e.version == r.value
    ensures r.Some? ==>
      exists j :: 0 <= j < |es| && es[j].name == n && es[j].version == r.value && forall i :: 0 <= i < j ==> es[i].name != n
    ensures r.None? ==> forall e :: e in es ==> e.name != n
  {
    if |es| == 0 then None else if es[0].name == n then Some(es[0].version) else NamedVersion(es[1..], n)
  }

  /** The position of the first row with migration name `n`. */
  function NamedPosition(es: seq<LogEntry>, n: string): (r: Option<nat>)
    ensures r.Some? ==> r.value < |es| && es[r.value].name == n
    ensures r.Some? ==> forall i :: 0 <= i < r.value ==> es[i].name != n
    ensures r.None? ==> forall e :: e in es ==> e.name != n
  {
    if |es| == 0 then None
    else if es[0].name == n then Some(0)
    else match NamedPosition(es[1..], n) case None => None case Some(p) => Some(p + 1)
  }

  /** What `rollback` compares with the target when the target need not be
      a version: the version, or the start time under execution order. */
  function RollbackKey(e: LogEntry, creationOrder: bool): nat
  {
    if creationOrder then e.version else e.start
  }

  /** The rollback loop over the rows newest first: every row up to the first
      one that stops it is reverted. */
  function RollbackSteps(sorted: seq<LogEntry>, t: nat, force: bool, mustMatch: bool, creationOrder: bool): seq<nat>
  {
    if |sorted| == 0 then []
    else if Stops(sorted[0], t, force, mustMatch, creationOrder) then []
    else [sorted[0].version] + RollbackSteps(sorted[1..], t, force, mustMatch, creationOrder)
  }

  /** Whether the rollback loop stops at row `e`: at the target under the
      must-match rule, at a row at or below the target otherwise, and at a
      breakpoint unless forced. */
  predicate Stops(e: LogEntry, t: nat, force: bool, mustMatch: bool, creationOrder: bool)
  {
    (mustMatch && e.version == t) || (!mustMatch && RollbackKey(e, creationOrder) <= t) || (e.breakpoint && !force)
  }

  /** The target `rollback` stops at, resolved from `$target` over the
      executed rows `ex`, or `None` when it returns before the loop: an
      unknown name, an empty log, a target equal to the last executed version
      (`null == end(...)` holds only for a last version 0), or a target that
      must be a version and is not. A name resolves to that row's version. */
  function ResolvedTarget(ms: seq<nat>, ex: seq<LogEntry>, target: RollbackTarget, mustMatch: bool): Option<nat>
  {
    var given: Option<nat> := match target
      case Previous => Some(0)
      case All => Some(0)
      case Version(v) => Some(v)
      case Named(n) => NamedVersion(ex, n);
    if given.None? || |ex| == 0 then None
    else if (if target.Previous? then ex[|ex| - 1].version == 0 else given.value == ex[|ex| - 1].version) then None
    else
      var t := if target.Previous? then (if |ex| >= 2 then ex[|ex| - 2].version else 0) else given.value;
      if mustMatch && t != 0 && t !in ms then None else Some(t)
  }

  /** The versions `rollback($environment, $target, $force, $targetMustMatchVersion)`
      reverts, in order. */
  function RollbackPlan(ms: seq<nat>, log: seq<LogEntry>, target: RollbackTarget,
                        force: bool, mustMatch: bool, creationOrder: bool): seq<nat>
  {
    var ex := Known(ms, log);
    match ResolvedTarget(ms, ex, target, mustMatch)
    case None => []
    case Some(t) => RollbackSteps(Reverse(ex), t, force, mustMatch, creationOrder)
  }

  /** A named rollback as the source writes it: `array_column` renumbers the
      rows, so the target becomes the row's position, cast to a string (so the
      `0 !== $target` test always passes). */
  function NamedRollbackAsWritten(ms: seq<nat>, log: seq<LogEntry>, n: string,
                                  force: bool, mustMatch: bool, creationOrder: bool): seq<nat>
  {
    var ex := Known(ms, log);
    match NamedPosition(ex, n)
    case None => []
    case Some(p) =>
      if p == ex[|ex| - 1].version then []
      else if mustMatch && p !in ms then []
      else RollbackSteps(Reverse(ex), p, force, mustMatch, creationOrder)
  }

  // ----------------------------------------------------------------- status

  /** The elements of `a` missing from `b` (`array_diff_key` on version keys). */
  function Missing(a: seq<nat>, b: seq<nat>): (r: seq<nat>)
    ensures forall v :: v in r <==> v in a && v !in b
  {
    if |a| == 0 then [] else Missing(a[..|a| - 1], b) + (if a[|a| - 1] in b then [] else [a[|a| - 1]])
  }

  /** The exit code of `printStatus`: 2 when a logged version has no
      migration, else 1 when a migration has not run, else 0; with no
      migrations at all it is 0. */
  function StatusCode(ms: seq<nat>, logged: seq<nat>): (code: nat)
    ensures code == 2 <==> |ms| > 0 && exists v :: v in logged && v !in ms
    ensures code == 1 <==> |ms| > 0 && (forall v :: v in logged ==> v in ms) && exists m :: m in ms && m !in logged
    ensures code == 0 <==> |ms| == 0 || ((forall v :: v in logged ==> v in ms) && forall m :: m in ms ==> m in logged)
  {
    if |ms| == 0 then 0
    else if |Missing(logged, ms)| > 0 then
      assert Missing(logged, ms)[0] in Missing(logged, ms);
      2
    else if |Missing(ms, logged)| > 0 then
      assert Missing(ms, logged)[0] in Missing(ms, logged);
      1
    else 0
  }

  // ---------------------------------------------------------------- manager

  /** The manager: the loaded migrations (versions, ascending), the loaded
      seeds, and the trace of what it has run. */
  class Manager {
    var migrations: seq<nat>
    var seeds: seq<Seed>
    var trace: seq<Step>

    ghost predicate Valid()
      reads this
    {
      Ascending(migrations)
    }

    constructor (ms: seq<nat>, ss: seq<Seed>)
      requires Ascending(ms)
      ensures Valid() && migrations == ms && seeds == ss && trace == []
    {
      migrations := ms;
      seeds := ss;
      trace := [];
    }

    /** `executeMigration`: runs one migration. */
    method ExecuteMigration(version: nat, d: Direction)
      modifies this
      ensures migrations == old(migrations) && seeds == old(seeds)
      ensures trace == old(trace) + [Migrated(version, d)]
    {
      trace := trace + [Migrated(version, d)];
    }

    /** `executeSeed`: runs one seed. */
    method ExecuteSeed(name: string)
      modifies this
      ensures migrations == old(migrations) && seeds == old(seeds)
      ensures trace == old(trace) + [Seeded(name)]
    {
      trace := trace + [Seeded(name)];
    }

    /** The down loop of `migrate`. */
    method RunDowns(ran: seq<nat>, t: nat)
      modifies this
      ensures migrations == old(migrations) && seeds == old(seeds)
      ensures trace == old(trace) + Steps(DownSteps(migrations, ran, t), Down)
    {
      var ms := migrations;
      ghost var done: seq<nat> := [];
      var i := |ms|;
      assert ms[..|ms|] == ms;
      while i > 0
        invariant 0 <= i <= |ms|
        invariant migrations == ms && seeds == old(seeds)
        invariant DownSteps(ms, ran, t) == done + DownSteps(ms[..i], ran, t)
        invariant trace == old(trace) + Steps(done, Down)
      {
        DownStepAt(ms, ran, t, i);
        if ms[i - 1] <= t {
          assert done + [] == done;
          break;
        }
        if ms[i - 1] in ran {
          AppendAssoc(done, [ms[i - 1]], DownSteps(ms[..i - 1], ran, t));
          ExecuteMigration(ms[i - 1], Down);
          StepsSnoc(done, ms[i - 1], Down);
          AppendAssoc(old(trace), Steps(done, Down), [Migrated(ms[i - 1], Down)]);
          done := done + [ms[i - 1]];
        } else {
          assert DownSteps(ms[..i], ran, t) == DownSteps(ms[..i - 1], ran, t);
        }
        i := i - 1;
      }
      assert ms[..0] == [] && done + [] == done;
    }

    /** The up loop of `migrate`. */
    method RunUps(ran: seq<nat>, t: nat)
      modifies this
      ensures migrations == old(migrations) && seeds == old(seeds)
      ensures trace == old(trace) + Steps(UpSteps(migrations, ran, t), Up)
    {
      var ms := migrations;
      ghost var done: seq<nat> := [];
      var i := 0;
      assert ms[0..] == ms;
      while i < |ms|
        invariant 0 <= i <= |ms|
        invariant migrations == ms && seeds == old(seeds)
        invariant UpSteps(ms, ran, t) == done + UpSteps(ms[i..], ran, t)
        invariant trace == old(trace) + Steps(done, Up)
      {
        assert ms[i..][1..] == ms[i + 1..];
        if ms[i] > t {
          assert done + [] == done;
          break;
        }
        if ms[i] !in ran {
          AppendAssoc(done, [ms[i]], UpSteps(ms[i + 1..], ran, t));
          ExecuteMigration(ms[i], Up);
          StepsSnoc(done, ms[i], Up);
          AppendAssoc(old(trace), Steps(done, Up), [Migrated(ms[i], Up)]);
          done := done + [ms[i]];
        } else {
          assert UpSteps(ms[i..], ran, t) == UpSteps(ms[i + 1..], ran, t);
        }
        i := i + 1;
      }
      assert ms[|ms|..] == [] && done + [] == done;
    }

    /** `migrate($environment, $version)`. */
    method Migrate(env: Env, target: Option<nat>)
      requires Valid()
      modifies this
      ensures Valid() && migrations == old(migrations) && seeds == old(seeds)
      ensures trace == old(trace) + MigratePlan(migrations, env.versions, env.current, target)
    {
      var ran := env.versions;
      if |ran| == 0 && |migrations| == 0 {
        assert trace + [] == trace;
        return;
      }
      var version: nat;
      if target.None? {
        version := MaxOf(ran + migrations);
      } else {
        version := target.value;
        if version != 0 && version !in migrations {
          assert trace + [] == trace;
          return;
        }
      }
      assert MigrateTarget(migrations, ran, target) == Some(version);
      ghost var downs: seq<Step> := [];
      if !(version > env.current) {
        RunDowns(ran, version);
        downs := Steps(DownSteps(migrations, ran, version), Down);
      } else {
        assert trace == old(trace) + downs;
      }
      RunUps(ran, version);
      var ups := Steps(UpSteps(migrations, ran, version), Up);
      AppendAssoc(old(trace), downs, ups);
      MigratePlanAt(migrations, ran, env.current, target, version);
    }

    /** `migrateToDateTime($environment, $dateTime)`, the date given in `YmdHis` form. */
    method MigrateToDateTime(env: Env, date: nat)
      requires Valid()
      modifies this
      ensures Valid() && migrations == old(migrations) && seeds == old(seeds)
      ensures trace == old(trace) +
        match DateTarget(migrations, date)
        case None => []
        case Some(t) => MigratePlan(migrations, env.versions, env.current, Some(t))
    {
      var t := DateTarget(migrations, date);
      if t.Some? {
        Migrate(env, t);
      }
    }

    /** The first loop of `rollback`: drops the rows without a migration and
      lists the others newest first. */
    method SortByLog(log: seq<LogEntry>) returns (sorted: seq<LogEntry>, executed: seq<LogEntry>)
      ensures executed == Known(migrations, log)
      ensures sorted == Reverse(executed)
    {
      sorted := [];
      executed := [];
      var i := 0;
      while i < |log|
        invariant 0 <= i <= |log|
        invariant executed == Known(migrations, log[..i])
        invariant sorted == Reverse(executed)
      {
        assert log[..i + 1][..i] == log[..i];
        if log[i].version in migrations {
          assert (executed + [log[i]])[..|executed|] == executed;
          executed := executed + [log[i]];
          sorted := [log[i]] + sorted;
        }
        i := i + 1;
      }
      assert log[..|log|] == log;
    }

    /** The second loop of `rollback`. */
    method RevertUntil(sorted: seq<LogEntry>, t: nat, force: bool, mustMatch: bool, creationOrder: bool)
      modifies this
      ensures migrations == old(migrations) && seeds == old(seeds)
      ensures trace == old(trace) + Steps(RollbackSteps(sorted, t, force, mustMatch, creationOrder), Down)
    {
      ghost var done: seq<nat> := [];
      var i := 0;
      assert sorted[0..] == sorted;
      while i < |sorted|
        invariant 0 <= i <= |sorted|
        invariant migrations == old(migrations) && seeds == old(seeds)
        invariant RollbackSteps(sorted, t, force, mustMatch, creationOrder) ==
          done + RollbackSteps(sorted[i..], t, force, mustMatch, creationOrder)
        invariant trace == old(trace) + Steps(done, Down)
      {
        var e := sorted[i];
        if mustMatch && e.version == t {
          RollbackStop(sorted, t, force, mustMatch, creationOrder, i);
          break;
        }
        if !mustMatch && RollbackKey(e, creationOrder) <= t {
          RollbackStop(sorted, t, force, mustMatch, creationOrder, i);
          break;
        }
        if e.breakpoint && !force {
          RollbackStop(sorted, t, force, mustMatch, creationOrder, i);
          break;
        }
        RollbackAdvance(sorted, t, force, mustMatch, creationOrder, i);
        AppendAssoc(done, [e.version], RollbackSteps(sorted[i + 1..], t, force, mustMatch, creationOrder));
        AppendAssoc(old(trace), Steps(done, Down), [Migrated(e.version, Down)]);
        ExecuteMigration(e.version, Down);
        StepsSnoc(done, e.version, Down);
        done := done + [e.version];
        i := i + 1;
      }
    }

    /** The target resolution of `rollback`. */
    method ResolveTarget(executed: seq<LogEntry>, target: RollbackTarget, mustMatch: bool) returns (r: Option<nat>)
      ensures r == ResolvedTarget(migrations, executed, target, mustMatch)
    {
      var t: nat := 0;
      match target {
        case Previous =>
        case All =>
        case Version(v) => t := v;
        case Named(n) =>
          var found := NamedVersion(executed, n);
          if found.None? {
            return None;
          }
          t := found.value;
      }
      if |executed| == 0 {
        return None;
      }
      var last := executed[|executed| - 1].version;
      if (target.Previous? && last == 0) || (!target.Previous? && t == last) {
        return None;
      }
      if target.Previous? {
        t := if |executed| >= 2 then executed[|executed| - 2].version else 0;
      }
      if mustMatch && t != 0 && t !in migrations {
        return None;
      }
      return Some(t);
    }

    /** `rollback($environment, $target, $force, $targetMustMatchVersion)`. */
    method Rollback(env: Env, target: RollbackTarget, force: bool, mustMatch: bool, creationOrder: bool)
      requires Valid()
      modifies this
      ensures Valid() && migrations == old(migrations) && seeds == old(seeds)
      ensures trace == old(trace) + Steps(RollbackPlan(migrations, env.log, target, force, mustMatch, creationOrder), Down)
    {
      var sorted, executed := SortByLog(env.log);
      var t := ResolveTarget(executed, target, mustMatch);
      if t.Some? {
        RevertUntil(sorted, t.value, force, mustMatch, creationOrder);
      } else {
        assert Steps([], Down) == [];
      }
    }

    /** `getSeeds`: orders the loaded seeds by their dependencies and stores
      the records in that order, so the next call starts from it; `None`, and
      nothing stored, when the ordering does not finish. */
    method GetSeeds(fuel: nat) returns (r: Option<seq<string>>)
      modifies this
      ensures migrations == old(migrations) && trace == old(trace)
      ensures r == OrderFrom(old(seeds), SeedNames(old(seeds)), fuel)
      ensures seeds == if r.Some? then Reorder(old(seeds), r.value) else old(seeds)
    {
      r := OrderSeeds(seeds, SeedNames(seeds), fuel);
      if r.Some? {
        seeds := Reorder(seeds, r.value);
      }
    }

    /** `seed($environment, $seed)`: every seed in dependency order, or the
      one named, which must exist; the reordered seeds stay stored. */
    method RunSeeds(name: Option<string>, fuel: nat) returns (r: Result<(), string>)
      modifies this
      ensures migrations == old(migrations)
      ensures match OrderFrom(old(seeds), SeedNames(old(seeds)), fuel)
        case None => seeds == old(seeds) && trace == old(trace) && r.Err?
        case Some(order) =>
          seeds == Reorder(old(seeds), order) &&
          if name.None? then r.Ok? && trace == old(trace) + SeedSteps(order)
          else if name.value in order then r.Ok? && trace == old(trace) + [Seeded(name.value)]
          else r.Err? && trace == old(trace)
    {
      var order := GetSeeds(fuel);
      if order.None? {
        return Err("seed dependencies do not terminate");
      }
      if name.None? {
        ExecuteSeeds(order.value);
        r := Ok(());
      } else if name.value in order.value {
        ExecuteSeed(name.value);
        r := Ok(());
      } else {
        r := Err("The seed class does not exist");
      }
    }

    /** The loop of `seed` over the ordered seeds. */
    method ExecuteSeeds(ss: seq<string>)
      modifies this
      ensures migrations == old(migrations) && seeds == old(seeds)
      ensures trace == old(trace) + SeedSteps(ss)
    {
      var i := 0;
      while i < |ss|
        invariant 0 <= i <= |ss|
        invariant migrations == old(migrations) && seeds == old(seeds)
        invariant trace == old(trace) + SeedSteps(ss[..i])
      {
        assert ss[..i + 1][..i] == ss[..i];
        ExecuteSeed(ss[i]);
        i := i + 1;
      }
      assert ss[..|ss|] == ss;
    }

    /** The exit code `printStatus` returns. */
    method PrintStatus(env: Env) returns (code: nat)
      ensures code == StatusCode(migrations, VersionsOf(env.log))
    {
      var logged := VersionsOf(env.log);
      var hasMissing := |migrations| > 0 && |Missing(logged, migrations)| > 0;
      var hasDown := false;
      var i := 0;
      while i < |migrations|
        invariant 0 <= i <= |migrations|
        invariant hasDown == (|Missing(migrations[..i], logged)| > 0)
      {
        MissingStep(migrations, logged, i);
        if migrations[i] !in logged {
          hasDown := true;
        }
        i := i + 1;
      }
      assert migrations[..|migrations|] == migrations;
      if hasMissing {
        return 2;
      }
      if hasDown {
        return 1;
      }
      return 0;
    }
  }

  /** The keys of the loaded seeds. */
  function SeedNames(ss: seq<Seed>): (r: seq<string>)
    ensures |r| == |ss|
    ensures forall j :: 0 <= j < |ss| ==> r[j] == ss[j].name
  {
    if |ss| == 0 then [] else SeedNames(ss[..|ss| - 1]) + [ss[|ss| - 1].name]
  }

  /** The keys of the loaded seeds are the loaded names. */
  lemma {:induction false} SeedNamesAreNames(ss: seq<Seed>)
    ensures forall x :: x in SeedNames(ss) <==> x in Names(ss)
  {
    forall x ensures x in SeedNames(ss) <==> x in Names(ss)
    {
      NamesAt(ss, x);
      if x in SeedNames(ss) {
        var j :| 0 <= j < |ss| && SeedNames(ss)[j] == x;
        assert ss[j].name == x;
      }
    }
  }

  /** What `getSeeds` stores when the ordering finishes: the same seed
      records, each once, keyed in the order computed, with every loaded
      dependency ahead of the seed that needs it. */
  lemma StoredSeeds(ss: seq<Seed>, fuel: nat)
    requires OrderFrom(ss, SeedNames(ss), fuel).Some?
    ensures var order := OrderFrom(ss, SeedNames(ss), fuel).value;
      var stored := Reorder(ss, order);
      SeedNames(stored) == order && Names(stored) == Names(ss) &&
      (forall n :: DepsOf(stored, n) == DepsOf(ss, n)) &&
      DepsBefore(stored, SeedNames(stored))
  {
    var order := OrderFrom(ss, SeedNames(ss), fuel).value;
    OrderFromSound(ss, SeedNames(ss), fuel);
    SeedNamesAreNames(ss);
    var stored := Reorder(ss, order);
    assert SeedNames(stored) == order;
    ReorderKeepsRecords(ss, order);
  }

  function SeedSteps(ns: seq<string>): (r: seq<Step>)
    ensures |r| == |ns|
    ensures forall j :: 0 <= j < |ns| ==> r[j] == Seeded(ns[j])
  {
    if |ns| == 0 then [] else SeedSteps(ns[..|ns| - 1]) + [Seeded(ns[|ns| - 1])]
  }

  // ----------------------------------------------------------------- lemmas

  /** The elements of one more element of `a` missing from `b`. */
  lemma MissingStep(a: seq<nat>, b: seq<nat>, i: nat)
    requires i < |a|
    ensures Missing(a[..i + 1], b) == Missing(a[..i], b) + (if a[i] in b then [] else [a[i]])
  {
    assert a[..i + 1][..i] == a[..i];
  }

  /** The rollback loop reverts the rows newest first up to the first row
      that stops it: the target under the must-match rule, a row at or below
      the target otherwise, or a breakpoint unless forced. */
  lemma {:induction false} RollbackStepsSpec(sorted: seq<LogEntry>, t: nat, force: bool, mustMatch: bool, creationOrder: bool)
    ensures var r := RollbackSteps(sorted, t, force, mustMatch, creationOrder);
      |r| <= |sorted| &&
      (forall j :: 0 <= j < |r| ==>
        r[j] == sorted[j].version &&
        (mustMatch ==> sorted[j].version != t) &&
        (!mustMatch ==> RollbackKey(sorted[j], creationOrder) > t) &&
        (force || !sorted[j].breakpoint)) &&
      (|r| < |sorted| ==>
        (mustMatch && sorted[|r|].version == t) ||
        (!mustMatch && RollbackKey(sorted[|r|], creationOrder) <= t) ||
        (!force && sorted[|r|].breakpoint))
  {
    if |sorted| > 0 {
      RollbackStepsSpec(sorted[1..], t, force, mustMatch, creationOrder);
    }
  }

  /** One turn of the down loop. */
  lemma DownStepAt(ms: seq<nat>, ran: seq<nat>, t: nat, i: nat)
    requires 0 < i <= |ms|
    ensures DownSteps(ms[..i], ran, t) ==
      if ms[i - 1] <= t then [] else (if ms[i - 1] in ran then [ms[i - 1]] else []) + DownSteps(ms[..i - 1], ran, t)
  {
    assert ms[..i][..i - 1] == ms[..i - 1];
  }

  /** A turn of the rollback loop that reverts its row. */
  lemma RollbackAdvance(sorted: seq<LogEntry>, t: nat, force: bool, mustMatch: bool, creationOrder: bool, i: nat)
    requires i < |sorted| && !Stops(sorted[i], t, force, mustMatch, creationOrder)
    ensures RollbackSteps(sorted[i..], t, force, mustMatch, creationOrder) ==
      [sorted[i].version] + RollbackSteps(sorted[i + 1..], t, force, mustMatch, creationOrder)
  {
    assert sorted[i..][1..] == sorted[i + 1..];
  }

  /** A turn of the rollback loop that stops it. */
  lemma RollbackStop(sorted: seq<LogEntry>, t: nat, force: bool, mustMatch: bool, creationOrder: bool, i: nat)
    requires i < |sorted| && Stops(sorted[i], t, force, mustMatch, creationOrder)
    ensures RollbackSteps(sorted[i..], t, force, mustMatch, creationOrder) == []
  {
  }

  lemma StepsSnoc(vs: seq<nat>, v: nat, d: Direction)
    ensures Steps(vs + [v], d) == Steps(vs, d) + [Migrated(v, d)]
  {
    assert (vs + [v])[..|vs|] == vs;
  }

  /** The plan of `migrate` once its target is known: the down phase, when
      the target is not above the current version, then the up phase. */
  lemma MigratePlanAt(ms: seq<nat>, ran: seq<nat>, current: nat, target: Option<nat>, t: nat)
    requires MigrateTarget(ms, ran, target) == Some(t)
    ensures MigratePlan(ms, ran, current, target) ==
      (if t > current then [] else Steps(DownSteps(ms, ran, t), Down)) + Steps(UpSteps(ms, ran, t), Up)
  {
  }

  /** The down phase reverts exactly the migrations above the target that
      have run, newest first. */
  lemma {:induction false} DownStepsExact(ms: seq<nat>, ran: seq<nat>, t: nat)
    requires Ascending(ms)
    ensures forall v :: v in DownSteps(ms, ran, t) <==> v in ms && v > t && v in ran
    ensures Descending(DownSteps(ms, ran, t))
  {
    if |ms| > 0 {
      var m := ms[|ms| - 1];
      var prefix := ms[..|ms| - 1];
      DownStepsExact(prefix, ran, t);
      assert forall v :: v in ms ==> v in prefix || v == m;
      assert forall v :: v in prefix ==> v < m;
      var rest := DownSteps(prefix, ran, t);
      if m > t {
        if m in ran {
          assert DownSteps(ms, ran, t) == [m] + rest;
          ConsDescending(m, rest);
        } else {
          assert DownSteps(ms, ran, t) == rest;
        }
      }
    }
  }

  /** A version above every element of a descending list can be put in front. */
  lemma ConsDescending(m: nat, rest: seq<nat>)
    requires Descending(rest) && forall v :: v in rest ==> v < m
    ensures Descending([m] + rest)
  {
    assert forall j :: 0 <= j < |rest| ==> rest[j] in rest;
  }

  /** The up phase applies exactly the migrations at or below the target
      that have not run, oldest first. */
  lemma {:induction false} UpStepsExact(ms: seq<nat>, ran: seq<nat>, t: nat)
    requires Ascending(ms)
    ensures forall v :: v in UpSteps(ms, ran, t) <==> v in ms && v <= t && v !in ran
    ensures Ascending(UpSteps(ms, ran, t))
  {
    if |ms| > 0 {
      var m, suffix := ms[0], ms[1..];
      UpStepsExact(suffix, ran, t);
      assert forall v :: v in ms ==> v == m || v in suffix;
      assert forall v :: v in suffix ==> v > m;
      var rest := UpSteps(suffix, ran, t);
      if m <= t {
        if m !in ran {
          assert UpSteps(ms, ran, t) == [m] + rest;
          ConsAscending(m, rest);
        } else {
          assert UpSteps(ms, ran, t) == rest;
        }
      }
    }
  }

  /** A version below every element of an ascending list can be put in front. */
  lemma ConsAscending(m: nat, rest: seq<nat>)
    requires Ascending(rest) && forall v :: v in rest ==> v > m
    ensures Ascending([m] + rest)
  {
    assert forall j :: 0 <= j < |rest| ==> rest[j] in rest;
  }

  /** `migrate` does nothing with no migrations and no log, or with a
      target that is neither 0 nor an available version. */
  lemma MigrateNothing(ms: seq<nat>, ran: seq<nat>, current: nat, target: Option<nat>)
    requires (|ran| == 0 && |ms| == 0) || (target.Some? && target.value != 0 && target.value !in ms)
    ensures MigratePlan(ms, ran, current, target) == []
  {
  }

  /** Migrating up reverts nothing; every applied migration is at or below the
      target and had not run; migrating down never applies a migration above
      the target. */
  lemma {:induction false} MigrateDirections(ms: seq<nat>, ran: seq<nat>, current: nat, target: Option<nat>)
    requires Ascending(ms)
    requires MigrateTarget(ms, ran, target).Some?
    ensures var t := MigrateTarget(ms, ran, target).value;
      var plan := MigratePlan(ms, ran, current, target);
      (forall s :: s in plan ==> s.Migrated?) &&
      (t > current ==> forall s :: s in plan ==> s.direction == Up) &&
      (forall s :: s in plan && s.direction == Up ==> s.version <= t && s.version !in ran) &&
      (forall s :: s in plan && s.direction == Down ==> s.version > t && s.version in ran)
  {
    var t := MigrateTarget(ms, ran, target).value;
    DownStepsExact(ms, ran, t);
    UpStepsExact(ms, ran, t);
    var downs := if t > current then [] else Steps(DownSteps(ms, ran, t), Down);
    var ups := Steps(UpSteps(ms, ran, t), Up);
    forall s: Step | s in downs + ups
      ensures s.Migrated?
      ensures (t > current ==> s.direction == Up)
      ensures s.direction == Up ==> s.version <= t && s.version !in ran
      ensures s.direction == Down ==> s.version > t && s.version in ran
    {
      if s in ups {
        var j :| 0 <= j < |ups| && ups[j] == s;
        assert UpSteps(ms, ran, t)[j] in UpSteps(ms, ran, t);
      } else {
        var j :| 0 <= j < |downs| && downs[j] == s;
        assert DownSteps(ms, ran, t)[j] in DownSteps(ms, ran, t);
      }
    }
  }

  /** With no target, `migrate` heads for the newest version known anywhere. */
  lemma MigrateLatest(ms: seq<nat>, ran: seq<nat>)
    requires |ran| + |ms| > 0
    ensures var t := MigrateTarget(ms, ran, None);
      t.Some? && (t.value in ran || t.value in ms) &&
      forall v :: v in ran || v in ms ==> v <= t.value
  {
    var all := ran + ms;
    assert forall v :: v in ran || v in ms ==> v in all;
  }

  /** A rollback loop that no row stops reverts every row, in order. */
  lemma RollbackNoStop(sorted: seq<LogEntry>, t: nat, force: bool, mustMatch: bool, creationOrder: bool)
    requires forall j :: 0 <= j < |sorted| ==> !Stops(sorted[j], t, force, mustMatch, creationOrder)
    ensures RollbackSteps(sorted, t, force, mustMatch, creationOrder) == VersionsOf(sorted)
  {
    RollbackStepsSpec(sorted, t, force, mustMatch, creationOrder);
    var r := RollbackSteps(sorted, t, force, mustMatch, creationOrder);
    if |r| < |sorted| {
      assert Stops(sorted[|r|], t, force, mustMatch, creationOrder);
      assert false;
    }
  }

  /** `'all'` resolves to target 0 whenever the last executed version is not 0. */
  lemma ResolvedAll(ms: seq<nat>, ex: seq<LogEntry>, mustMatch: bool)
    requires |ex| > 0 && ex[|ex| - 1].version != 0
    ensures ResolvedTarget(ms, ex, All, mustMatch) == Some(0)
  {
  }

  /** `'all'` rolls back every executed migration, newest first, when forced
      and no version is 0. */
  lemma RollbackAllForced(ms: seq<nat>, log: seq<LogEntry>, creationOrder: bool)
    requires forall e :: e in log ==> e.version > 0
    requires |Known(ms, log)| > 0
    ensures RollbackPlan(ms, log, All, true, true, creationOrder) == VersionsOf(Reverse(Known(ms, log)))
  {
    var ex := Known(ms, log);
    var sorted := Reverse(ex);
    assert forall e :: e in ex ==> e.version > 0;
    assert ex[|ex| - 1] in ex;
    ResolvedAll(ms, ex, true);
    forall j | 0 <= j < |sorted|
      ensures !Stops(sorted[j], 0, true, true, creationOrder)
    {
      assert sorted[j] in ex;
    }
    RollbackNoStop(sorted, 0, true, true, creationOrder);
  }

  /** With no target, `rollback` reverts exactly the last executed migration
      when the one before it is the target and no breakpoint stops it. */
  lemma RollbackPrevious(ms: seq<nat>, log: seq<LogEntry>, force: bool, creationOrder: bool)
    requires var ex := Known(ms, log);
      |ex| >= 2 && ex[|ex| - 1].version != 0 && ex[|ex| - 1].version != ex[|ex| - 2].version &&
      (force || !ex[|ex| - 1].breakpoint)
    ensures RollbackPlan(ms, log, Previous, force, true, creationOrder) == [Known(ms, log)[|Known(ms, log)| - 1].version]
  {
    var ex := Known(ms, log);
    assert ex[|ex| - 2].version in ms by {
      assert ex[|ex| - 2] in ex;
    }
    ResolvePrevious(ms, ex);
    RollbackLastStep(ex, force, creationOrder);
  }

  /** With no target, a must-match rollback stops at the version before the
      last one when that version has a migration. */
  lemma ResolvePrevious(ms: seq<nat>, ex: seq<LogEntry>)
    requires |ex| >= 2 && ex[|ex| - 1].version != 0 && ex[|ex| - 2].version in ms
    ensures ResolvedTarget(ms, ex, Previous, true) == Some(ex[|ex| - 2].version)
  {
  }

  /** Sorted newest first, the last row is reverted and the one before it
      stops the rollback to its version. */
  lemma RollbackLastStep(ex: seq<LogEntry>, force: bool, creationOrder: bool)
    requires |ex| >= 2 && ex[|ex| - 1].version != ex[|ex| - 2].version
    requires force || !ex[|ex| - 1].breakpoint
    ensures RollbackSteps(Reverse(ex), ex[|ex| - 2].version, force, true, creationOrder) == [ex[|ex| - 1].version]
  {
    var t := ex[|ex| - 2].version;
    var sorted := Reverse(ex);
    assert sorted[0] == ex[|ex| - 1] && sorted[1] == ex[|ex| - 2];
    RollbackAdvance(sorted, t, force, true, creationOrder, 0);
    RollbackStop(sorted, t, force, true, creationOrder, 1);
    assert sorted[0..] == sorted;
  }

  /** A rollback to the last executed version, or over an empty log, reverts nothing. */
  lemma RollbackToLast(ms: seq<nat>, log: seq<LogEntry>, force: bool, mustMatch: bool, creationOrder: bool)
    ensures |Known(ms, log)| == 0 ==> RollbackPlan(ms, log, All, force, mustMatch, creationOrder) == []
    ensures |Known(ms, log)| > 0 ==>
      RollbackPlan(ms, log, Version(Known(ms, log)[|Known(ms, log)| - 1].version), force, mustMatch, creationOrder) == []
  {
  }

  /** Every row of a log whose versions all have a migration is kept. */
  lemma {:induction false} KnownAll(ms: seq<nat>, log: seq<LogEntry>)
    requires forall j :: 0 <= j < |log| ==> log[j].version in ms
    ensures Known(ms, log) == log
  {
    if |log| > 0 {
      var init, e := log[..|log| - 1], log[|log| - 1];
      assert log == init + [e];
      assert forall j :: 0 <= j < |init| ==> init[j] == log[j];
      KnownAll(ms, init);
      KnownSnoc(ms, init, e);
    }
  }

  /** The rows with a migration of a log with one more row. */
  lemma KnownSnoc(ms: seq<nat>, log: seq<LogEntry>, e: LogEntry)
    ensures Known(ms, log + [e]) == Known(ms, log) + (if e.version in ms then [e] else [])
  {
    assert (log + [e])[..|log|] == log;
  }

  lemma ReverseTwo(a: LogEntry, b: LogEntry)
    ensures Reverse([a, b]) == [b, a]
  {
    var r := Reverse([a, b]);
    assert |r| == 2 && r[0] == b && r[1] == a;
  }

  /** A name resolves to that row's version, so rolling back to the first of
      two executed migrations reverts the second. */
  lemma NamedRollbackIntended()
    ensures RollbackPlan([10, 20], [LogEntry(10, "a", 0, false), LogEntry(20, "b", 0, false)],
                         Named("a"), false, true, true) == [20]
  {
    var a, b := LogEntry(10, "a", 0, false), LogEntry(20, "b", 0, false);
    var ms: seq<nat> := [10, 20];
    KnownAll(ms, [a, b]);
    ReverseTwo(a, b);
    assert NamedVersion([a, b], "a") == Some(10);
    assert ResolvedTarget(ms, [a, b], Named("a"), true) == Some(10);
    RollbackAdvance([b, a], 10, false, true, true, 0);
    RollbackStop([b, a], 10, false, true, true, 1);
    assert [b, a][0..] == [b, a];
  }

  /** The first of two executed migrations is at position 0 under its name. */
  lemma NamedFirstRow(a: LogEntry, b: LogEntry)
    ensures NamedPosition([a, b], a.name) == Some(0)
  {
  }

  /** As written, the same call reverts nothing (the target becomes position
      0, which is not a version), and without the must-match rule it reverts
      both migrations (every version is above 0). */
  lemma NamedRollbackAsWrittenDiffers()
    ensures NamedRollbackAsWritten([10, 20], [LogEntry(10, "a", 0, false), LogEntry(20, "b", 0, false)],
                                   "a", false, true, true) == []
    ensures NamedRollbackAsWritten([10, 20], [LogEntry(10, "a", 0, false), LogEntry(20, "b", 0, false)],
                                   "a", false, false, true) == [20, 10]
  {
    NamedRollbackAsWrittenMatching();
    NamedRollbackAsWrittenAny();
  }

  /** A named rollback as written that reaches the loop runs it from position `p`. */
  lemma NamedRollbackAsWrittenRuns(ms: seq<nat>, log: seq<LogEntry>, ex: seq<LogEntry>, n: string, p: nat,
                                   force: bool, mustMatch: bool, creationOrder: bool)
    requires Known(ms, log) == ex && NamedPosition(ex, n) == Some(p)
    requires p != ex[|ex| - 1].version && !(mustMatch && p !in ms)
    ensures NamedRollbackAsWritten(ms, log, n, force, mustMatch, creationOrder) ==
      RollbackSteps(Reverse(ex), p, force, mustMatch, creationOrder)
  {
  }

  lemma NamedRollbackAsWrittenMatching()
    ensures NamedRollbackAsWritten([10, 20], [LogEntry(10, "a", 0, false), LogEntry(20, "b", 0, false)],
                                   "a", false, true, true) == []
  {
    var a, b := LogEntry(10, "a", 0, false), LogEntry(20, "b", 0, false);
    KnownAll([10, 20], [a, b]);
    NamedFirstRow(a, b);
  }

  lemma NamedRollbackAsWrittenAny()
    ensures NamedRollbackAsWritten([10, 20], [LogEntry(10, "a", 0, false), LogEntry(20, "b", 0, false)],
                                   "a", false, false, true) == [20, 10]
  {
    var a, b := LogEntry(10, "a", 0, false), LogEntry(20, "b", 0, false);
    KnownAll([10, 20], [a, b]);
    ReverseTwo(a, b);
    NamedFirstRow(a, b);
    NamedRollbackAsWrittenRuns([10, 20], [a, b], [a, b], "a", 0, false, false, true);
    RollbackTwo(b, a, 0, false, false, true);
  }

  /** Two rows the loop does not stop at are both reverted, in order. */
  lemma RollbackTwo(x: LogEntry, y: LogEntry, t: nat, force: bool, mustMatch: bool, creationOrder: bool)
    requires !Stops(x, t, force, mustMatch, creationOrder) && !Stops(y, t, force, mustMatch, creationOrder)
    ensures RollbackSteps([x, y], t, force, mustMatch, creationOrder) == [x.version, y.version]
  {
    assert [x, y][1..] == [y] && [y][1..] == [];
    assert RollbackSteps([y], t, force, mustMatch, creationOrder) == [y.version];
    assert RollbackSteps([x, y], t, force, mustMatch, creationOrder) ==
      [x.version] + RollbackSteps([y], t, force, mustMatch, creationOrder);
  }
}
