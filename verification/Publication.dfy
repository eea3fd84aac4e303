/** Dependency-ordered publication of workspace packages: rounds of packages
    whose production dependencies are all published, and why a round is empty
    only on a cycle. */
module Publication {
  import opened Prelude
  import opened Ordering

  datatype Dependency = Dependency(name: string, hasPath: bool, kind: Option<string>)

  type Packages = map<string, seq<Dependency>>

  /** The workspace packages that must be published before `name`. */
  function ProductionDependencies(packages: Packages, name: string): set<string>
    requires name in packages
  {
    set d | d in packages[name] && d.hasPath && d.kind != Some("dev") && d.name in packages :: d.name
  }

  /** A closed walk along production dependencies. */
  ghost predicate IsCycle(packages: Packages, walk: seq<string>) {
    && walk != []
    && (forall i :: 0 <= i < |walk| ==> walk[i] in packages)
    && (forall i :: 0 <= i < |walk| - 1 ==> walk[i + 1] in ProductionDependencies(packages, walk[i]))
    && walk[0] in ProductionDependencies(packages, walk[|walk| - 1])
  }

  ghost predicate Cyclic(packages: Packages) {
    exists walk :: IsCycle(packages, walk)
  }

  /** `name` has a path dependency, not for development, on `other`. */
  ghost predicate Needs(packages: Packages, name: string, other: string)
    requires name in packages
  {
    exists d :: d in packages[name] && d.hasPath && d.kind != Some("dev") && d.name == other
  }

  /** Packages each of which needs the next, and the last the first. */
  ghost predicate Loops(packages: Packages, walk: seq<string>) {
    && walk != [] && (forall i :: 0 <= i < |walk| ==> walk[i] in packages)
    && (forall i :: 0 <= i < |walk| - 1 ==> Needs(packages, walk[i], walk[i + 1]))
    && Needs(packages, walk[|walk| - 1], walk[0])
  }

  lemma LoopIsCycle(packages: Packages, walk: seq<string>)
    ensures IsCycle(packages, walk) <==> Loops(packages, walk)
  {
    if walk != [] && forall i :: 0 <= i < |walk| ==> walk[i] in packages {
      forall i, j | 0 <= i < |walk| && 0 <= j < |walk|
        ensures walk[j] in ProductionDependencies(packages, walk[i]) <==> Needs(packages, walk[i], walk[j])
      {
      }
      hide ProductionDependencies, Needs;
    }
  }

  /** A cycle, dependency by dependency. */
  lemma CyclicMeans(packages: Packages)
    ensures Cyclic(packages) <==> exists walk :: Loops(packages, walk)
  {
    hide IsCycle, Loops;
    forall walk
      ensures IsCycle(packages, walk) <==> Loops(packages, walk)
    {
      LoopIsCycle(packages, walk);
    }
  }

  /** Every production dependency stands strictly before its dependent. */
  ghost predicate DependenciesFirst(packages: Packages, order: seq<string>) {
    forall j :: 0 <= j < |order| ==>
      && order[j] in packages
      && forall d :: d in ProductionDependencies(packages, order[j]) ==> d in order[..j]
  }

  /** The packages of `remaining` with nothing left to wait for. */
  function Ready(packages: Packages, remaining: set<string>): set<string>
    requires remaining <= packages.Keys
  {
    set n | n in remaining && ProductionDependencies(packages, n) * remaining == {}
  }

  /** The order is made of rounds: each round is everything ready, sorted. */
  ghost predicate InRounds(packages: Packages, remaining: set<string>, order: seq<string>)
    requires remaining <= packages.Keys
    decreases remaining
  {
    if remaining == {} then order == []
    else
      var ready := Ready(packages, remaining);
      && ready != {}
      && exists n :: 0 <= n <= |order| && Ascending(order[..n]) && Elements(order[..n]) == ready
                     && InRounds(packages, remaining - ready, order[n..])
  }

  // --------------------------------------------------------------- cycles

  /** A set in which everything waits for something inside holds a cycle. */
  lemma StuckMeansCycle(packages: Packages, stuck: set<string>)
    requires stuck != {} && stuck <= packages.Keys && Ready(packages, stuck) == {}
    ensures Cyclic(packages)
  {
    var walk := WalkWithin(packages, stuck, |stuck| + 1);
    var i, j := RepeatsSomewhere(walk, stuck);
    var loop := walk[i..j];
    assert IsCycle(packages, loop);
  }

  lemma {:induction false} WalkWithin(packages: Packages, stuck: set<string>, n: nat) returns (walk: seq<string>)
    requires stuck != {} && stuck <= packages.Keys && Ready(packages, stuck) == {}
    ensures |walk| == n && forall i :: 0 <= i < n ==> walk[i] in stuck
    ensures forall i :: 0 <= i < n - 1 ==> walk[i + 1] in ProductionDependencies(packages, walk[i])
  {
    if n == 0 {
      walk := [];
    } else if n == 1 {
      var s :| s in stuck;
      walk := [s];
    } else {
      walk := WalkWithin(packages, stuck, n - 1);
      var last := walk[n - 2];
      assert last !in Ready(packages, stuck);
      var next :| next in ProductionDependencies(packages, last) * stuck;
      walk := walk + [next];
    }
  }

  /** Along a walk that follows dependencies, positions only fall. */
  lemma {:induction false} PositionsFall(packages: Packages, order: seq<string>, walk: seq<string>, k: nat, at: nat)
    returns (p: nat)
    requires DependenciesFirst(packages, order)
    requires k < |walk| && at < |order| && order[at] == walk[0]
    requires forall i :: 0 <= i < |walk| ==> walk[i] in packages
    requires forall i :: 0 <= i < |walk| - 1 ==> walk[i + 1] in ProductionDependencies(packages, walk[i])
    ensures p + k <= at && p < |order| && order[p] == walk[k]
  {
    if k == 0 {
      p := at;
    } else {
      var before := PositionsFall(packages, order, walk, k - 1, at);
      assert walk[k - 1 + 1] in ProductionDependencies(packages, walk[k - 1]);
      assert walk[k] in order[..before];
      p :| 0 <= p < before && order[p] == walk[k];
    }
  }

  lemma OrderMeansNoCycle(packages: Packages, order: seq<string>)
    requires DependenciesFirst(packages, order) && Distinct(order) && Elements(order) == packages.Keys
    ensures !Cyclic(packages)
  {
    forall walk | IsCycle(packages, walk)
      ensures false
    {
      assert walk[0] in Elements(order);
      var at :| 0 <= at < |order| && order[at] == walk[0];
      var p := PositionsFall(packages, order, walk, |walk| - 1, at);
    }
  }

  // ------------------------------------------------------------- the order

  /** Adding everything that is ready keeps the order good. */
  lemma RoundKeepsOrder(packages: Packages, order: seq<string>, remaining: set<string>, ready: seq<string>)
    requires remaining <= packages.Keys && Elements(order) == packages.Keys - remaining
    requires Distinct(order) && DependenciesFirst(packages, order)
    requires Ascending(ready) && Elements(ready) == Ready(packages, remaining)
    ensures Distinct(order + ready) && DependenciesFirst(packages, order + ready)
    ensures Elements(order + ready) == packages.Keys - (remaining - Elements(ready))
  {
    var more := order + ready;
    assert Elements(more) == Elements(order) + Elements(ready);
    assert Elements(ready) <= remaining;
    forall j | 0 <= j < |ready|
      ensures ready[j] in Ready(packages, remaining)
    {
      assert ready[j] in Elements(ready);
    }
    forall i, j | 0 <= i < j < |more|
      ensures more[i] != more[j]
    {
      if i >= |order| {
        LessIsTotal(more[i], more[j]);
      } else if j >= |order| {
        assert order[i] in Elements(order);
        assert more[j] == ready[j - |order|];
      }
    }
    forall j, d | 0 <= j < |more| && more[j] in packages && d in ProductionDependencies(packages, more[j])
      ensures d in more[..j]
    {
      if j < |order| {
        assert d in order[..j];
        assert more[..j] == order[..j];
      } else {
        assert more[j] == ready[j - |order|];
        assert d !in ProductionDependencies(packages, more[j]) * remaining;
        assert d in Elements(order);
        var k :| 0 <= k < |order| && order[k] == d;
        assert more[..j][k] == d;
      }
    }
  }

  ghost predicate Prefixed(packages: Packages, order: seq<string>, remaining: set<string>)
    requires remaining <= packages.Keys
  {
    forall rest :: InRounds(packages, remaining, rest) ==> InRounds(packages, packages.Keys, order + rest)
  }

  lemma NothingIsPrefixed(packages: Packages)
    ensures Prefixed(packages, [], packages.Keys)
  {
    forall rest | InRounds(packages, packages.Keys, rest)
      ensures InRounds(packages, packages.Keys, [] + rest)
    {
      assert [] + rest == rest;
    }
  }

  lemma RoundIsPrefixed(packages: Packages, order: seq<string>, remaining: set<string>, ready: seq<string>)
    requires remaining <= packages.Keys && remaining != {} && Prefixed(packages, order, remaining)
    requires ready != [] && Ascending(ready) && Elements(ready) == Ready(packages, remaining)
    ensures Prefixed(packages, order + ready, remaining - Elements(ready))
  {
    hide InRounds, Ready, Ascending, Elements;
    forall rest | InRounds(packages, remaining - Elements(ready), rest)
      ensures InRounds(packages, packages.Keys, order + ready + rest)
    {
      RoundFirst(packages, remaining, ready, rest);
      assert order + ready + rest == order + (ready + rest);
    }
  }

  lemma RoundFirst(packages: Packages, remaining: set<string>, ready: seq<string>, rest: seq<string>)
    requires remaining <= packages.Keys && remaining != {}
    requires ready != [] && Ascending(ready) && Elements(ready) == Ready(packages, remaining)
    requires InRounds(packages, remaining - Elements(ready), rest)
    ensures InRounds(packages, remaining, ready + rest)
  {
    hide Ready, Ascending;
    var all := ready + rest;
    assert all[..|ready|] == ready && all[|ready|..] == rest;
    assert ready[0] in Elements(ready);
  }

  /** Order the packages for publication: a permutation with every production
      dependency first, or an error exactly when the dependencies are cyclic. */
  method PublicationOrder(packages: Packages) returns (r: Result<seq<string>>)
    ensures r.Err? <==> Cyclic(packages)
    ensures r.Err? <==> exists walk :: Loops(packages, walk)
    ensures r.Ok? ==> forall j :: 0 <= j < |r.value| ==>
      && r.value[j] in packages
      && forall d :: d in packages[r.value[j]] && d.hasPath && d.kind != Some("dev") && d.name in packages ==>
           d.name in r.value[..j]
    ensures r.Ok? ==>
      && Distinct(r.value) && Elements(r.value) == packages.Keys
      && DependenciesFirst(packages, r.value)
      && InRounds(packages, packages.Keys, r.value)
  {
    var order, remaining := [], packages.Keys;
    NothingIsPrefixed(packages);
    CyclicMeans(packages);
    while remaining != {}
      invariant remaining <= packages.Keys && Elements(order) == packages.Keys - remaining
      invariant Distinct(order) && DependenciesFirst(packages, order)
      invariant Prefixed(packages, order, remaining)
      decreases remaining
    {
      var ready := Sorted(Ready(packages, remaining));
      if ready == [] {
        StuckMeansCycle(packages, remaining);
        return Err("production package dependency cycle");
      }
      RoundKeepsOrder(packages, order, remaining, ready);
      RoundIsPrefixed(packages, order, remaining, ready);
      assert ready[0] in Elements(ready);
      order, remaining := order + ready, remaining - Elements(ready);
    }
    OrderMeansNoCycle(packages, order);
    assert order + [] == order;
    return Ok(order);
  }
}
