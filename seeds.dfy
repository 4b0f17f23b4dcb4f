/** Seed ordering of the migration manager: every seed runs after the seeds it
    depends on. Seeds are keyed by class name, so an ordered PHP array of seeds
    is modelled by the sequence of its keys. */
module Seeds {
  import opened Wrappers

  /** A loaded seeder: its class name and the class names it depends on. */
  datatype Seed = Seed(name: string, deps: seq<string>)

  /** The class names of the loaded seeds. */
  function Names(all: seq<Seed>): set<string>
  {
    if |all| == 0 then {} else Names(all[..|all| - 1]) + {all[|all| - 1].name}
  }

  /** The dependencies of the seed called `n` (none for an unknown name). */
  function DepsOf(all: seq<Seed>, n: string): seq<string>
  {
    if |all| == 0 then []
    else if all[|all| - 1].name == n then all[|all| - 1].deps
    else DepsOf(all[..|all| - 1], n)
  }

  predicate Distinct(s: seq<string>)
  {
    forall i, j :: 0 <= i < j < |s| ==> s[i] != s[j]
  }

  /** `$a[$k] = $seed` on an array keyed by class name: a new key goes last,
      an existing key keeps its place. */
  function Put(om: seq<string>, k: string): (r: seq<string>)
    ensures forall x :: x in r <==> x in om || x == k
    ensures |r| >= |om| && r[..|om|] == om
    ensures Distinct(om) ==> Distinct(r)
  {
    if k in om then om else om + [k]
  }

  /** `array_merge($a, $b)` for string keys: the keys of `a`, then the keys of
      `b` that `a` does not have, in `b`'s order. */
  function Merge(a: seq<string>, b: seq<string>): (r: seq<string>)
    ensures forall x :: x in r <==> x in a || x in b
    ensures Distinct(a) ==> Distinct(r)
  {
    if |b| == 0 then a else Put(Merge(a, b[..|b| - 1]), b[|b| - 1])
  }

  /** The inner loop of `getSeedDependenciesInstances`: every loaded seed
      called `d` is stored under `d`. */
  function InstancesOf(all: seq<Seed>, d: string, inst: seq<string>): (r: seq<string>)
    ensures forall x :: x in r <==> x in inst || (x == d && d in Names(all))
    ensures Distinct(inst) ==> Distinct(r)
  {
    if |all| == 0 then inst
    else
      var rest := InstancesOf(all[..|all| - 1], d, inst);
      if all[|all| - 1].name == d then Put(rest, d) else rest
  }

  /** `getSeedDependenciesInstances`: the dependencies that are loaded seeds,
      each once, in the order they are first named. */
  function DepInstances(all: seq<Seed>, deps: seq<string>): (r: seq<string>)
    ensures forall x :: x in r <==> x in deps && x in Names(all)
    ensures Distinct(r)
  {
    if |deps| == 0 then [] else InstancesOf(all, deps[|deps| - 1], DepInstances(all, deps[..|deps| - 1]))
  }

  /** `orderSeedsByDependencies($seeds)`, with `fuel` bounding the depth of
      its recursion: a cycle of dependencies makes the source recurse without
      end, and the model then gives `None`. */
  function OrderFrom(all: seq<Seed>, seeds: seq<string>, fuel: nat): Option<seq<string>>
    decreases fuel, |seeds|, 1
  {
    if |seeds| == 0 then Some([])
    else
      match OrderFrom(all, seeds[..|seeds| - 1], fuel)
      case None => None
      case Some(ordered) => OrderStep(all, ordered, seeds[|seeds| - 1], fuel)
  }

  /** One turn of the loop of `orderSeedsByDependencies` for the seed `k`. */
  function OrderStep(all: seq<Seed>, ordered: seq<string>, k: string, fuel: nat): Option<seq<string>>
    decreases fuel, 0, 0
  {
    var deps := DepInstances(all, DepsOf(all, k));
    if |deps| == 0 then Some(Put(ordered, k))
    else if fuel == 0 then None
    else
      match OrderFrom(all, deps, fuel - 1)
      case None => None
      case Some(first) => Some(Merge(first, Put(ordered, k)))
  }

  /** The loaded seed records in the order of the keys `order`, as the keyed
      array `orderSeedsByDependencies` returns holds them. */
  function Reorder(all: seq<Seed>, order: seq<string>): (r: seq<Seed>)
    ensures (forall x :: x in order ==> x in Names(all)) ==>
      |r| == |order| && forall j :: 0 <= j < |order| ==> r[j] == Seed(order[j], DepsOf(all, order[j]))
  {
    if |order| == 0 then []
    else
      var k := order[|order| - 1];
      Reorder(all, order[..|order| - 1]) + (if k in Names(all) then [Seed(k, DepsOf(all, k))] else [])
  }

  /** Every loaded dependency of a seed comes before it. */
  predicate DepsBefore(all: seq<Seed>, r: seq<string>)
  {
    forall j :: 0 <= j < |r| ==>
      forall d :: d in DepsOf(all, r[j]) && d in Names(all) ==> d in r[..j]
  }

  // -------------------------------------------------------------- methods

  /** The two loops of `getSeedDependenciesInstances`. */
  method DependencyInstances(all: seq<Seed>, seed: string) returns (r: seq<string>)
    ensures r == DepInstances(all, DepsOf(all, seed))
  {
    var deps := DepsOf(all, seed);
    r := [];
    var i := 0;
    while i < |deps|
      invariant 0 <= i <= |deps|
      invariant r == DepInstances(all, deps[..i])
    {
      assert deps[..i + 1][..i] == deps[..i];
      ghost var before := r;
      var j := 0;
      while j < |all|
        invariant 0 <= j <= |all|
        invariant r == InstancesOf(all[..j], deps[i], before)
      {
        assert all[..j + 1][..j] == all[..j];
        if all[j].name == deps[i] {
          r := Put(r, deps[i]);
        }
        j := j + 1;
      }
      assert all[..|all|] == all;
      i := i + 1;
    }
    assert deps[..|deps|] == deps;
  }

  /** `orderSeedsByDependencies`. */
  method OrderSeeds(all: seq<Seed>, seeds: seq<string>, fuel: nat) returns (r: Option<seq<string>>)
    ensures r == OrderFrom(all, seeds, fuel)
    decreases fuel, 1
  {
    var ordered: seq<string> := [];
    var i := 0;
    while i < |seeds|
      invariant 0 <= i <= |seeds|
      invariant OrderFrom(all, seeds[..i], fuel) == Some(ordered)
    {
      assert seeds[..i + 1][..i] == seeds[..i];
      var next := SeedTurn(all, ordered, seeds[i], fuel);
      if next.None? {
        OrderFromFails(all, seeds, i + 1, fuel);
        return None;
      }
      ordered := next.value;
      i := i + 1;
    }
    assert seeds[..|seeds|] == seeds;
    return Some(ordered);
  }

  /** The body of the loop of `orderSeedsByDependencies` for the seed `k`. */
  method SeedTurn(all: seq<Seed>, ordered: seq<string>, k: string, fuel: nat) returns (r: Option<seq<string>>)
    ensures r == OrderStep(all, ordered, k, fuel)
    decreases fuel, 0
  {
    var deps := DependencyInstances(all, k);
    if |deps| > 0 {
      if fuel == 0 {
        return None;
      }
      var keyed := Put(ordered, k);
      var first := OrderSeeds(all, deps, fuel - 1);
      if first.None? {
        return None;
      }
      r := Some(Merge(first.value, keyed));
    } else {
      r := Some(Put(ordered, k));
    }
  }

  // --------------------------------------------------------------- lemmas

  /** Once the loop has failed on a prefix it fails on the whole list. */
  lemma {:induction false} OrderFromFails(all: seq<Seed>, seeds: seq<string>, i: nat, fuel: nat)
    requires i <= |seeds|
    requires OrderFrom(all, seeds[..i], fuel) == None
    ensures OrderFrom(all, seeds, fuel) == None
    decreases |seeds| - i
  {
    if i < |seeds| {
      assert seeds[..i + 1][..i] == seeds[..i];
      OrderFromFails(all, seeds, i + 1, fuel);
    } else {
      assert seeds[..i] == seeds;
    }
  }

  /** Appending a seed whose loaded dependencies are all present keeps every
      dependency ahead of its dependant. */
  lemma PutKeepsOrder(all: seq<Seed>, m: seq<string>, x: string)
    requires DepsBefore(all, m)
    requires forall d :: d in DepsOf(all, x) && d in Names(all) ==> d in m
    ensures DepsBefore(all, Put(m, x))
  {
    var r := Put(m, x);
    forall j | 0 <= j < |r|
      ensures forall d :: d in DepsOf(all, r[j]) && d in Names(all) ==> d in r[..j]
    {
      if j < |m| {
        assert r[..j] == m[..j];
      } else {
        assert r[..j] == m;
      }
    }
  }

  /** Merging keeps dependencies ahead when `a` does and each key of `b` finds
      its loaded dependencies in `a` or earlier in `b`. */
  lemma {:induction false} MergeKeepsOrder(all: seq<Seed>, a: seq<string>, b: seq<string>)
    requires DepsBefore(all, a)
    requires forall i, d :: 0 <= i < |b| && d in DepsOf(all, b[i]) && d in Names(all) ==> d in a || d in b[..i]
    ensures DepsBefore(all, Merge(a, b))
    decreases |b|
  {
    if |b| > 0 {
      var b' := b[..|b| - 1];
      forall i, d | 0 <= i < |b'| && d in DepsOf(all, b'[i]) && d in Names(all)
        ensures d in a || d in b'[..i]
      {
        assert b[i] == b'[i] && b[..i] == b'[..i];
      }
      MergeKeepsOrder(all, a, b');
      var x := b[|b| - 1];
      forall d | d in DepsOf(all, x) && d in Names(all)
        ensures d in Merge(a, b')
      {
        assert b[..|b| - 1] == b';
      }
      PutKeepsOrder(all, Merge(a, b'), x);
    }
  }

  /** What one turn of the loop promises. */
  lemma {:induction false} OrderStepSound(all: seq<Seed>, ordered: seq<string>, k: string, fuel: nat)
    requires Distinct(ordered) && DepsBefore(all, ordered)
    ensures var r := OrderStep(all, ordered, k, fuel);
      r.Some? ==>
        Distinct(r.value) && DepsBefore(all, r.value) &&
        (forall x :: x in ordered || x == k ==> x in r.value) &&
        (forall x :: x in r.value ==> x in ordered || x == k || x in Names(all))
    decreases fuel, 0, 0
  {
    var deps := DepInstances(all, DepsOf(all, k));
    if |deps| == 0 {
      PutKeepsOrder(all, ordered, k);
    } else if fuel > 0 {
      OrderFromSound(all, deps, fuel - 1);
      var res := OrderFrom(all, deps, fuel - 1);
      if res.Some? {
        PutDeps(all, ordered, k, res.value);
        MergeKeepsOrder(all, res.value, Put(ordered, k));
      }
    }
  }

  /** After the dependencies of `k` are ordered, each key of `Put(ordered, k)`
      finds its loaded dependencies ahead of it. */
  lemma PutDeps(all: seq<Seed>, ordered: seq<string>, k: string, first: seq<string>)
    requires DepsBefore(all, ordered)
    requires forall x :: x in DepInstances(all, DepsOf(all, k)) ==> x in first
    ensures var b := Put(ordered, k);
      forall i, d :: 0 <= i < |b| && d in DepsOf(all, b[i]) && d in Names(all) ==> d in first || d in b[..i]
  {
    var b := Put(ordered, k);
    forall i, d | 0 <= i < |b| && d in DepsOf(all, b[i]) && d in Names(all)
      ensures d in first || d in b[..i]
    {
      if b[i] == k {
        assert d in DepInstances(all, DepsOf(all, k));
      } else {
        assert i < |ordered| && b[i] == ordered[i] && b[..i] == ordered[..i];
      }
    }
  }

  /** What `orderSeedsByDependencies` promises when it finishes: each seed
      once, every input seed present, nothing but input seeds and loaded
      seeds, and every loaded dependency ahead of the seed that needs it. */
  lemma {:induction false} OrderFromSound(all: seq<Seed>, seeds: seq<string>, fuel: nat)
    ensures var r := OrderFrom(all, seeds, fuel);
      r.Some? ==>
        Distinct(r.value) && DepsBefore(all, r.value) &&
        (forall x :: x in seeds ==> x in r.value) &&
        (forall x :: x in r.value ==> x in seeds || x in Names(all))
    decreases fuel, |seeds|, 1
  {
    if |seeds| > 0 {
      var prefix := seeds[..|seeds| - 1];
      OrderFromSound(all, prefix, fuel);
      var res := OrderFrom(all, prefix, fuel);
      if res.Some? {
        OrderStepSound(all, res.value, seeds[|seeds| - 1], fuel);
        assert forall x :: x in seeds ==> x in prefix || x == seeds[|seeds| - 1];
      }
    }
  }

  /** A name is loaded exactly when some loaded seed carries it. */
  lemma {:induction false} NamesAt(all: seq<Seed>, x: string)
    ensures x in Names(all) <==> exists j :: 0 <= j < |all| && all[j].name == x
  {
    if |all| > 0 {
      var init := all[..|all| - 1];
      NamesAt(init, x);
      if x in Names(init) {
        var j :| 0 <= j < |init| && init[j].name == x;
        assert all[j] == init[j];
      }
      forall j | 0 <= j < |init| ensures all[j] == init[j] { }
    }
  }

  /** A name that is not loaded has no dependencies. */
  lemma {:induction false} DepsOfMissing(all: seq<Seed>, n: string)
    requires n !in Names(all)
    ensures DepsOf(all, n) == []
  {
    if |all| > 0 {
      DepsOfMissing(all[..|all| - 1], n);
    }
  }

  /** With distinct names, the dependencies of a loaded seed's name are that
      seed's own. */
  lemma {:induction false} DepsOfAt(all: seq<Seed>, j: nat)
    requires j < |all|
    requires forall a, b :: 0 <= a < b < |all| ==> all[a].name != all[b].name
    ensures DepsOf(all, all[j].name) == all[j].deps
  {
    if j < |all| - 1 {
      var init := all[..|all| - 1];
      assert init[j] == all[j];
      DepsOfAt(init, j);
    }
  }

  /** Reordering every loaded key once keeps the loaded names and each
      seed's dependencies: only the order of the records changes. */
  lemma ReorderKeepsRecords(all: seq<Seed>, order: seq<string>)
    requires Distinct(order)
    requires forall x :: x in order <==> x in Names(all)
    ensures Names(Reorder(all, order)) == Names(all)
    ensures forall n :: DepsOf(Reorder(all, order), n) == DepsOf(all, n)
  {
    var r := Reorder(all, order);
    forall x ensures x in Names(r) <==> x in Names(all)
    {
      NamesAt(r, x);
      if x in order {
        var j :| 0 <= j < |order| && order[j] == x;
        assert r[j].name == x;
      }
    }
    forall n ensures DepsOf(r, n) == DepsOf(all, n)
    {
      if n in order {
        var j :| 0 <= j < |order| && order[j] == n;
        DepsOfAt(r, j);
      } else {
        DepsOfMissing(r, n);
        DepsOfMissing(all, n);
      }
    }
  }

  /** Without dependency cycles the ordering finishes: when a rank drops
      along every loaded dependency and the fuel covers the ranks of the
      seeds, `OrderFrom` gives an order. */
  lemma {:induction false} AcyclicTerminates(all: seq<Seed>, seeds: seq<string>, fuel: nat, rank: string -> nat)
    requires forall x, d :: d in DepsOf(all, x) && d in Names(all) ==> rank(d) < rank(x)
    requires forall x :: x in seeds ==> rank(x) <= fuel
    ensures OrderFrom(all, seeds, fuel).Some?
    decreases fuel, |seeds|
  {
    if |seeds| > 0 {
      var prefix := seeds[..|seeds| - 1];
      var k := seeds[|seeds| - 1];
      assert forall x :: x in prefix ==> x in seeds;
      AcyclicTerminates(all, prefix, fuel, rank);
      var ordered := OrderFrom(all, prefix, fuel).value;
      assert OrderFrom(all, seeds, fuel) == OrderStep(all, ordered, k, fuel);
      OrderStepTerminates(all, ordered, k, fuel, rank);
    }
  }

  /** One turn of the loop finishes under the same conditions. */
  lemma {:induction false} OrderStepTerminates(all: seq<Seed>, ordered: seq<string>, k: string, fuel: nat, rank: string -> nat)
    requires forall x, d :: d in DepsOf(all, x) && d in Names(all) ==> rank(d) < rank(x)
    requires rank(k) <= fuel
    ensures OrderStep(all, ordered, k, fuel).Some?
    decreases fuel, 0
  {
    var deps := DepInstances(all, DepsOf(all, k));
    if |deps| > 0 {
      assert fuel > 0 && OrderFrom(all, deps, fuel - 1).Some? by {
        RankedDeps(all, k, rank);
        assert rank(deps[0]) < rank(k);
        AcyclicTerminates(all, deps, fuel - 1, rank);
      }
    }
  }

  /** The loaded dependencies of `k` rank below it. */
  lemma RankedDeps(all: seq<Seed>, k: string, rank: string -> nat)
    requires forall x, d :: d in DepsOf(all, x) && d in Names(all) ==> rank(d) < rank(x)
    ensures forall d :: d in DepInstances(all, DepsOf(all, k)) ==> rank(d) < rank(k)
  {
  }

  /** A seed without loaded dependencies keeps the place the loop reached. */
  lemma IndependentSeedsKeepOrder(all: seq<Seed>, seeds: seq<string>, fuel: nat)
    requires Distinct(seeds)
    requires forall i :: 0 <= i < |seeds| ==> DepInstances(all, DepsOf(all, seeds[i])) == []
    ensures OrderFrom(all, seeds, fuel) == Some(seeds)
  {
    if |seeds| > 0 {
      var prefix := seeds[..|seeds| - 1];
      IndependentSeedsKeepOrder(all, prefix, fuel);
      assert seeds[|seeds| - 1] !in prefix;
      assert prefix + [seeds[|seeds| - 1]] == seeds;
    }
  }
}
