/** The order in which the interpreter enters paths, and what entering them in
    that order records: the reference for the worklist loop. */
module Recording {
  import opened Prelude
  import opened Ordering
  import opened AbstractValues
  import opened ExecStates
  import opened FlowEvents
  import opened ControlFlow

  ghost function Children(path: Path, n: nat): seq<Path> {
    seq(n, i => path + [i])
  }

  // ------------------------------------------------------------ visiting order

  /** The paths part, and `p` takes the later successor. */
  ghost predicate Parts(p: Path, q: Path) {
    exists n :: 0 <= n < |p| && n < |q| && p[..n] == q[..n] && p[n] > q[n]
  }

  /** Depth first, last successor first. */
  ghost predicate Sooner(p: Path, q: Path) {
    (p <= q && p != q) || Parts(p, q)
  }

  lemma SoonerIsStrict(p: Path, q: Path)
    requires Sooner(p, q)
    ensures !Sooner(q, p)
  {
    if Parts(p, q) {
      var n :| 0 <= n < |p| && n < |q| && p[..n] == q[..n] && p[n] > q[n];
      assert forall k :: 0 <= k < n ==> p[k] == p[..n][k] == q[..n][k] == q[k];
      assert forall m :: n < m <= |p| && m <= |q| ==> p[..m][n] == p[n] && q[..m][n] == q[n];
    }
  }

  /** The stack holds what is to come, the next one last. */
  ghost predicate Ordered(pending: seq<Path>, log: seq<Path>) {
    && Related(log, Sooner)
    && (forall p, q :: p in log && q in pending ==> Sooner(p, q))
    && forall i, j :: 0 <= i < j < |pending| ==> Parts(pending[j], pending[i])
  }

  lemma PopOrdered(rest: seq<Path>, path: Path, log: seq<Path>)
    requires Ordered(rest + [path], log)
    ensures Ordered(rest, log)
    ensures forall p :: p in log ==> Sooner(p, path)
    ensures forall p :: p in rest ==> Parts(path, p)
  {
    var pending := rest + [path];
    assert pending[|rest|] == path;
    forall p | p in rest
      ensures p in pending && Parts(path, p)
    {
      var k :| 0 <= k < |rest| && rest[k] == p;
      assert pending[k] == p;
    }
    assert forall k :: 0 <= k < |rest| ==> pending[k] == rest[k];
  }

  /** Entering the path on top of the stack keeps the order. */
  lemma EnterOrdered(rest: seq<Path>, path: Path, log: seq<Path>, n: nat)
    requires Ordered(rest + [path], log)
    ensures Ordered(rest + Children(path, n), log + [path]) && Related(log + [path], Sooner)
  {
    PopOrdered(rest, path, log);
    var pending := rest + Children(path, n);
    forall q | q in pending
      ensures Sooner(path, q) && forall p :: p in log ==> Sooner(p, q)
    {
      var k :| 0 <= k < |pending| && pending[k] == q;
      if k >= |rest| {
        assert q == path + [k - |rest|] && path <= q;
        forall p | p in log
          ensures Sooner(p, q)
        {
        }
      } else {
        assert q in rest;
      }
    }
    forall i, j | 0 <= i < j < |pending|
      ensures Parts(pending[j], pending[i])
    {
      ChildrenPart(rest, path, n, i, j);
    }
  }

  lemma ChildrenPart(rest: seq<Path>, path: Path, n: nat, i: nat, j: nat)
    requires i < j < |rest| + n
    requires forall p :: p in rest ==> Parts(path, p)
    requires forall a, b :: 0 <= a < b < |rest| ==> Parts(rest[b], rest[a])
    ensures var pending := rest + Children(path, n); Parts(pending[j], pending[i])
  {
    var pending := rest + Children(path, n);
    if i >= |rest| {
      var p, q := path + [j - |rest|], path + [i - |rest|];
      assert p[..|path|] == q[..|path|] && p[|path|] > q[|path|];
      assert Parts(p, q);
    } else if j >= |rest| {
      assert pending[i] in rest;
    }
  }

  /** The order leaves no freedom: the paths entered determine the log. */
  lemma LogIsDetermined(a: seq<Path>, b: seq<Path>)
    requires Related(a, Sooner) && Related(b, Sooner) && Elements(a) == Elements(b)
    ensures a == b
  {
    forall p, q | Sooner(p, q)
      ensures !Sooner(q, p)
    {
      SoonerIsStrict(p, q);
    }
    assert forall p :: p in a <==> p in Elements(a);
    assert forall p :: p in b <==> p in Elements(b);
    ListingIsUnique(a, b, Sooner);
  }

  // ----------------------------------------------------------------- recording

  /** What a run remembers: the state recorded at each block, and the state in
      which it left the end of each path. */
  datatype Memory = Memory(recorded: map<nat, StateView>, left: map<Path, StateView>)

  /** The state in which a run comes to the end of `path`. */
  ghost function Arriving(cfg: Cfg, func: nat, left: map<Path, StateView>, path: Path): StateView {
    var from := path[..if path == [] then 0 else |path| - 1];
    if path != [] && from in left && End(cfg, path).Some? && End(cfg, from).Some?
       && End(cfg, from).value < |cfg.blocks|
    then
      ChildState(left[from], End(cfg, path).value, path[|path| - 1],
                 IsFork(cfg.blocks[End(cfg, from).value].terminator))
    else EmptyState(func, cfg.entry)
  }

  /** Enter the end of `path`: merge the arriving state into what the block
      holds, and run the block from the merge if that weakened it. */
  ghost function Visit(cfg: Cfg, facts: seq<AssignmentFact>, func: nat, m: Memory, path: Path): Memory {
    var at := End(cfg, path);
    if at.None? || at.value >= |cfg.blocks| then m
    else
      var b, s := at.value, Arriving(cfg, func, m.left, path);
      var merged := if b in m.recorded then Merged(m.recorded[b], s) else s;
      var out := if b in m.recorded && merged != m.recorded[b] then merged else s;
      Memory(m.recorded[b := merged], m.left[path := TransferAll(out, cfg.blocks[b].events, facts)])
  }

  /** What entering the paths of `log`, one after the other, leaves behind. */
  ghost function Remembered(cfg: Cfg, facts: seq<AssignmentFact>, func: nat, log: seq<Path>): Memory {
    if log == [] then Memory(map[], map[])
    else Visit(cfg, facts, func, Remembered(cfg, facts, func, log[..|log| - 1]), log[|log| - 1])
  }

  lemma RememberNext(cfg: Cfg, facts: seq<AssignmentFact>, func: nat, log: seq<Path>, path: Path)
    ensures Remembered(cfg, facts, func, log + [path]) ==
            Visit(cfg, facts, func, Remembered(cfg, facts, func, log), path)
  {
    assert (log + [path])[..|log|] == log;
  }

  /** How a state arrives: nothing is known at the entry; along an edge the state
      left behind moves to the successor, and takes the choice made if the block
      is a branch or a try fork. */
  lemma ArrivingMeans(cfg: Cfg, func: nat, left: map<Path, StateView>, path: Path, b: nat, i: nat)
    requires path in left && End(cfg, path) == Some(b) && b < |cfg.blocks|
    requires cfg.blocks[b].terminator != UnreachableEnd && i < |cfg.blocks[b].successors|
    ensures Arriving(cfg, func, left, []) == StateView(map[], [], [], func, cfg.entry)
    ensures var s, t := left[path], cfg.blocks[b].terminator;
            Arriving(cfg, func, left, path + [i])
            == s.(currentBlock := cfg.blocks[b].successors[i],
                  constraints := s.constraints + if t == BranchEnd || t == TryForkEnd then [Choice(i)] else [])
  {
    assert (path + [i])[..|path|] == path;
    EndOfChild(cfg, path, i);
  }

  /** What entering a path leaves behind: the block holds the merge, and the block
      runs from the merge if that says less than the block did, otherwise from the
      state that arrived. */
  lemma EnteringMeans(cfg: Cfg, facts: seq<AssignmentFact>, func: nat, log: seq<Path>, path: Path, b: nat)
    requires End(cfg, path) == Some(b) && b < |cfg.blocks|
    ensures var m, m' := Remembered(cfg, facts, func, log), Remembered(cfg, facts, func, log + [path]);
            var s, events := Arriving(cfg, func, m.left, path), cfg.blocks[b].events;
            if b !in m.recorded then
              m'.recorded == m.recorded[b := s] && m'.left == m.left[path := TransferAll(s, events, facts)]
            else
              var merged := Merged(m.recorded[b], s);
              && m'.recorded == m.recorded[b := merged]
              && m'.left == m.left[path := TransferAll(if merged == m.recorded[b] then s else merged, events, facts)]
  {
    hide Merged, TransferAll, Arriving;
    RememberNext(cfg, facts, func, log, path);
  }

  /** A block holds a state exactly when one of the paths entered ends there. */
  lemma {:induction false} RecordedWhere(cfg: Cfg, facts: seq<AssignmentFact>, func: nat, log: seq<Path>, b: nat)
    ensures b in Remembered(cfg, facts, func, log).recorded <==>
            b < |cfg.blocks| && exists p :: p in log && End(cfg, p) == Some(b)
  {
    if log != [] {
      var init, last := log[..|log| - 1], log[|log| - 1];
      RecordedWhere(cfg, facts, func, init, b);
      assert log == init + [last];
      RememberNext(cfg, facts, func, init, last);
      if exists p :: p in init && End(cfg, p) == Some(b) {
        var p :| p in init && End(cfg, p) == Some(b);
        assert p in log;
      }
      assert End(cfg, last) == Some(b) ==> last in log;
    }
  }

  lemma {:induction false} LeftWhere(cfg: Cfg, facts: seq<AssignmentFact>, func: nat, log: seq<Path>)
    requires forall p :: p in log ==> End(cfg, p).Some?
    ensures forall p :: p in Remembered(cfg, facts, func, log).left <==> p in log && End(cfg, p).value < |cfg.blocks|
  {
    if log != [] {
      var init, last := log[..|log| - 1], log[|log| - 1];
      LeftWhere(cfg, facts, func, init);
      assert log == init + [last];
    }
  }

  ghost function Recorded(cfg: Cfg, facts: seq<AssignmentFact>, func: nat, log: seq<Path>): map<nat, StateView> {
    Remembered(cfg, facts, func, log).recorded
  }

  // ------------------------------------------------------------------ path ids

  datatype Minting = Minting(ids: map<Path, nat>, next: nat)

  function Repeated(id: nat, n: nat): seq<nat> {
    seq(n, i => id)
  }

  ghost predicate IsForkAt(cfg: Cfg, path: Path) {
    End(cfg, path).Some? && End(cfg, path).value < |cfg.blocks|
    && IsFork(cfg.blocks[End(cfg, path).value].terminator)
  }

  ghost function LabelChildren(ids: map<Path, nat>, path: Path, labels: seq<nat>): map<Path, nat> {
    ids + map q: Path | q in Elements(Children(path, |labels|)) && |q| == |path| + 1 && q[|path|] < |labels|
            :: labels[q[|path|]]
  }

  /** The ids of the children of `path`: at a fork the first inherits and the
      others are new, elsewhere all inherit. */
  ghost function Labels(cfg: Cfg, path: Path, id: nat, next: nat): seq<nat>
    requires End(cfg, path).Some?
  {
    var n := |Successors(cfg, End(cfg, path).value)|;
    if IsForkAt(cfg, path) then seq(n, i => if i == 0 then id else next + i) else Repeated(id, n)
  }

  ghost function Mint(cfg: Cfg, m: Minting, path: Path): Minting {
    if End(cfg, path).None? || path !in m.ids then m
    else
      var labels := Labels(cfg, path, m.ids[path], m.next);
      Minting(LabelChildren(m.ids, path, labels),
              m.next + if IsForkAt(cfg, path) && labels != [] then |labels| - 1 else 0)
  }

  /** The path ids in use once the paths of `log` were entered. */
  ghost function Minted(cfg: Cfg, log: seq<Path>): Minting {
    if log == [] then Minting(map[[] := 1], 1)
    else Mint(cfg, Minted(cfg, log[..|log| - 1]), log[|log| - 1])
  }

  ghost function Ids(cfg: Cfg, log: seq<Path>): map<Path, nat> {
    Minted(cfg, log).ids
  }

  lemma MintNext(cfg: Cfg, log: seq<Path>, path: Path)
    ensures Minted(cfg, log + [path]) == Mint(cfg, Minted(cfg, log), path)
  {
    assert (log + [path])[..|log|] == log;
  }

  /** No id in use is above the last one minted. */
  lemma {:induction false} IdsAreMinted(cfg: Cfg, log: seq<Path>, p: Path)
    requires p in Ids(cfg, log)
    ensures 1 <= Ids(cfg, log)[p] <= Minted(cfg, log).next
    decreases |log|
  {
    if log != [] {
      var init, path := log[..|log| - 1], log[|log| - 1];
      var m := Minted(cfg, init);
      if p in m.ids {
        IdsAreMinted(cfg, init, p);
      }
      if End(cfg, path).Some? && path in m.ids {
        IdsAreMinted(cfg, init, path);
        var labels := Labels(cfg, path, m.ids[path], m.next);
        if p in Elements(Children(path, |labels|)) {
          var i :| 0 <= i < |labels| && Children(path, |labels|)[i] == p;
        }
      }
    }
  }

  lemma ChildIsListed(path: Path, n: nat, i: nat)
    requires i < n
    ensures path + [i] in Elements(Children(path, n)) && (path + [i])[|path|] == i
  {
    assert Children(path, n)[i] == path + [i];
  }

  /** The ids a path hands on when it is entered: at a branch or a try fork the
      first successor inherits and every other one gets an id never used before,
      in order; anywhere else all inherit. */
  lemma IdsMean(cfg: Cfg, log: seq<Path>, path: Path, b: nat, i: nat)
    requires path in Ids(cfg, log) && End(cfg, path) == Some(b) && b < |cfg.blocks|
    requires cfg.blocks[b].terminator != UnreachableEnd && i < |cfg.blocks[b].successors|
    ensures path + [i] in Ids(cfg, log + [path])
    ensures var ids, next, t := Ids(cfg, log), Minted(cfg, log).next, cfg.blocks[b].terminator;
            && Ids(cfg, log + [path])[path + [i]]
               == (if i > 0 && (t == BranchEnd || t == TryForkEnd) then next + i else ids[path])
            && forall p :: p in ids ==> ids[p] <= next
  {
    hide Minted, Children, Sooner, End;
    MintNext(cfg, log, path);
    var m := Minted(cfg, log);
    var labels := Labels(cfg, path, m.ids[path], m.next);
    ChildIsListed(path, |labels|, i);
    forall p | p in m.ids
      ensures m.ids[p] <= m.next
    {
      IdsAreMinted(cfg, log, p);
    }
  }

  // --------------------------------------------------------------- loop budget

  /** The paths of `log` that end where `p` ends, on the same path id. */
  ghost function Stops(cfg: Cfg, ids: map<Path, nat>, log: seq<Path>, key: (nat, nat)): set<Path> {
    set q | q in log && q in ids && End(cfg, q) == Some(key.0) && ids[q] == key.1
  }

  /** Those of them that came before `p`. */
  ghost function Rivals(cfg: Cfg, ids: map<Path, nat>, log: seq<Path>, p: Path): set<Path> {
    set q | q in log && Sooner(q, p) && q in ids && p in ids && End(cfg, q) == End(cfg, p) && ids[q] == ids[p]
  }

  /** The loop budget admits exactly the paths with fewer rivals than it
      allows. */
  ghost predicate Budgeted(cfg: Cfg, log: seq<Path>, maxIters: nat) {
    forall p :: p in Ids(cfg, log) ==> (p in log <==> |Rivals(cfg, Ids(cfg, log), log, p)| < maxIters)
  }

  /** The visit counts are those of the log; what was entered had room, and what
      was dropped had none. */
  ghost predicate Counted(
      cfg: Cfg, maxIters: nat, visits: map<(nat, nat), nat>, pending: seq<Path>, log: seq<Path>, ids: map<Path, nat>)
  {
    && (forall key: (nat, nat) :: VisitCount(visits, key) == |Stops(cfg, ids, log, key)|)
    && (forall p :: p in log ==> |Rivals(cfg, ids, log, p)| < maxIters)
    && (forall p :: p in ids && p !in log && p !in pending ==> |Rivals(cfg, ids, log, p)| >= maxIters)
  }

  function VisitCount(visits: map<(nat, nat), nat>, key: (nat, nat)): nat {
    if key in visits then visits[key] else 0
  }

  /** All rivals of the path on top of the stack have been entered already. */
  lemma TopHasItsRivals(cfg: Cfg, ids: map<Path, nat>, log: seq<Path>, path: Path, b: nat)
    requires path in ids && End(cfg, path) == Some(b) && forall p :: p in log ==> Sooner(p, path)
    ensures Rivals(cfg, ids, log, path) == Stops(cfg, ids, log, (b, ids[path]))
  {
  }

  lemma DropCounted(
      cfg: Cfg, maxIters: nat, visits: map<(nat, nat), nat>, rest: seq<Path>, path: Path, log: seq<Path>,
      ids: map<Path, nat>, b: nat, visits': map<(nat, nat), nat>)
    requires Counted(cfg, maxIters, visits, rest + [path], log, ids) && Ordered(rest + [path], log)
    requires path in ids && End(cfg, path) == Some(b) && VisitCount(visits, (b, ids[path])) >= maxIters
    requires forall key :: VisitCount(visits', key) == VisitCount(visits, key)
    ensures Counted(cfg, maxIters, visits', rest, log, ids)
  {
    hide Rivals, Stops, Sooner, Parts;
    PopOrdered(rest, path, log);
    TopHasItsRivals(cfg, ids, log, path, b);
    assert forall p :: p in rest + [path] <==> p in rest || p == path;
  }

  lemma RivalsGrow(cfg: Cfg, ids: map<Path, nat>, ids': map<Path, nat>, log: seq<Path>, path: Path, p: Path)
    requires p in ids && p in ids' && (forall q :: q in ids ==> q in ids' && ids'[q] == ids[q])
    requires forall q :: q in log ==> q in ids
    requires path in ids
    ensures Rivals(cfg, ids, log, p) <= Rivals(cfg, ids', log + [path], p)
    ensures |Rivals(cfg, ids, log, p)| <= |Rivals(cfg, ids', log + [path], p)|
    ensures Sooner(p, path) || p == path ==> Rivals(cfg, ids', log + [path], p) == Rivals(cfg, ids, log, p)
  {
    var before, after := Rivals(cfg, ids, log, p), Rivals(cfg, ids', log + [path], p);
    assert forall q :: q in log + [path] <==> q in log || q == path;
    assert before <= after;
    assert |after| == |before| + |after - before|;
    if Sooner(p, path) {
      SoonerIsStrict(p, path);
    }
    if p == path {
      SoonerIsIrreflexive(p);
    }
  }

  lemma SoonerIsIrreflexive(p: Path)
    ensures !Sooner(p, p)
  {
  }

  lemma StopsGrow(
      cfg: Cfg, ids: map<Path, nat>, ids': map<Path, nat>, log: seq<Path>, path: Path, b: nat, key: (nat, nat))
    requires forall q :: q in ids ==> q in ids' && ids'[q] == ids[q]
    requires forall q :: q in log ==> q in ids
    requires path in ids && path !in log && End(cfg, path) == Some(b)
    ensures |Stops(cfg, ids', log + [path], key)| ==
            |Stops(cfg, ids, log, key)| + if key == (b, ids[path]) then 1 else 0
  {
    var before, after := Stops(cfg, ids, log, key), Stops(cfg, ids', log + [path], key);
    assert forall q :: q in log + [path] <==> q in log || q == path;
    if key == (b, ids[path]) {
      assert after == before + {path};
    } else {
      assert after == before;
    }
  }

  /** Entering one more path counts it, and nothing that was decided changes. */
  lemma EnterCounted(
      cfg: Cfg, maxIters: nat, visits: map<(nat, nat), nat>, rest: seq<Path>, path: Path, log: seq<Path>,
      ids: map<Path, nat>, b: nat, pending: seq<Path>, ids': map<Path, nat>)
    requires Counted(cfg, maxIters, visits, rest + [path], log, ids) && Ordered(rest + [path], log)
    requires path in ids && path !in log && End(cfg, path) == Some(b)
    requires VisitCount(visits, (b, ids[path])) < maxIters
    requires forall q :: q in log ==> q in ids
    requires forall q :: q in ids ==> q in ids' && ids'[q] == ids[q]
    requires forall q :: q in rest ==> q in pending
    requires forall q :: q in ids' && q !in ids ==> q in pending
    ensures var key := (b, ids[path]);
            Counted(cfg, maxIters, visits[key := VisitCount(visits, key) + 1], pending, log + [path], ids')
  {
    hide Rivals, Stops, Sooner, Parts;
    PopOrdered(rest, path, log);
    TopHasItsRivals(cfg, ids, log, path, b);
    assert forall p :: p in rest + [path] <==> p in rest || p == path;
    assert forall p :: p in log + [path] <==> p in log || p == path;
    forall key: (nat, nat)
      ensures |Stops(cfg, ids', log + [path], key)| ==
              |Stops(cfg, ids, log, key)| + if key == (b, ids[path]) then 1 else 0
    {
      StopsGrow(cfg, ids, ids', log, path, b, key);
    }
    forall p | p in ids
      ensures |Rivals(cfg, ids, log, p)| <= |Rivals(cfg, ids', log + [path], p)|
      ensures p in log + [path] ==> Rivals(cfg, ids', log + [path], p) == Rivals(cfg, ids, log, p)
    {
      RivalsGrow(cfg, ids, ids', log, path, p);
    }
  }

  // -------------------------------------------------- runs are determined

  lemma SoonerIsTotal(p: Path, q: Path)
    ensures p == q || Sooner(p, q) || Sooner(q, p)
  {
    var n := Common(p, q);
    if n < |p| && n < |q| {
      assert p[n] > q[n] ==> Parts(p, q);
      assert q[n] > p[n] ==> q[..n] == p[..n] && Parts(q, p);
    }
  }

  /** Where two paths first differ, or the shorter one ends. */
  lemma {:induction false} Common(p: Path, q: Path) returns (n: nat)
    ensures n <= |p| && n <= |q| && p[..n] == q[..n] && (n < |p| && n < |q| ==> p[n] != q[n])
    ensures n == |p| ==> p <= q
    ensures n == |q| ==> q <= p
  {
    n := 0;
    while n < |p| && n < |q| && p[n] == q[n]
      invariant n <= |p| && n <= |q| && p[..n] == q[..n]
    {
      n := n + 1;
    }
  }

  lemma SoonerIsTransitive(p: Path, q: Path, r: Path)
    requires Sooner(p, q) && Sooner(q, r)
    ensures Sooner(p, r)
  {
    if p <= q && q <= r {
      assert p <= r && |p| < |r|;
    } else if p <= q {
      var n :| 0 <= n < |q| && n < |r| && q[..n] == r[..n] && q[n] > r[n];
      if n < |p| {
        assert p[..n] == q[..n] && p[n] == q[n];
        assert Parts(p, r);
      } else {
        assert p == q[..|p|] == r[..n][..|p|] == r[..|p|];
      }
    } else {
      var n :| 0 <= n < |p| && n < |q| && p[..n] == q[..n] && p[n] > q[n];
      if q <= r {
        assert r[..n] == q[..n] && r[n] == q[n];
        assert Parts(p, r);
      } else {
        var m :| 0 <= m < |q| && m < |r| && q[..m] == r[..m] && q[m] > r[m];
        var k := if n < m then n else m;
        assert p[..k] == p[..n][..k] == q[..n][..k] == q[..k];
        assert r[..k] == r[..m][..k] == q[..m][..k] == q[..k];
        assert k < n ==> p[k] == p[..n][k] == q[..n][k];
        assert k < m ==> r[k] == r[..m][k] == q[..m][k];
        assert Parts(p, r);
      }
    }
  }

  /** A path is discovered by entering the path it extends. */
  lemma {:induction false} IdsWhere(cfg: Cfg, log: seq<Path>)
    requires Related(log, Sooner)
    ensures [] in Ids(cfg, log)
    ensures forall p :: p in Ids(cfg, log) && p != [] ==> p[..|p| - 1] in log
    decreases |log|
  {
    if log != [] {
      hide Ids, Sooner;
      var init, last := log[..|log| - 1], log[|log| - 1];
      assert log == init + [last];
      IdsWhere(cfg, init);
      MintKeeps(cfg, init, last);
    }
  }

  /** A path keeps its id. */
  lemma {:induction false} IdsStay(cfg: Cfg, log: seq<Path>, k: nat, p: Path)
    requires Related(log, Sooner) && k <= |log| && p in Ids(cfg, log[..k])
    ensures p in Ids(cfg, log) && Ids(cfg, log)[p] == Ids(cfg, log[..k])[p]
    decreases |log|
  {
    hide Ids, Sooner;
    if k == |log| {
      assert log[..k] == log;
    } else {
      var init, last := log[..|log| - 1], log[|log| - 1];
      assert log == init + [last] && init[..k] == log[..k];
      IdsStay(cfg, init, k, p);
      IdsWhere(cfg, init);
      MintKeeps(cfg, init, last);
    }
  }

  lemma MintKeeps(cfg: Cfg, log: seq<Path>, path: Path)
    requires Related(log + [path], Sooner)
    requires forall p :: p in Ids(cfg, log) && p != [] ==> p[..|p| - 1] in log
    ensures forall p :: p in Ids(cfg, log) ==>
              p in Ids(cfg, log + [path]) && Ids(cfg, log + [path])[p] == Ids(cfg, log)[p]
    ensures forall p :: p in Ids(cfg, log + [path]) ==> p in Ids(cfg, log) || (p != [] && p[..|p| - 1] == path)
  {
    hide Sooner, End, Labels, Minted, LabelChildren;
    MintNext(cfg, log, path);
    EntersOnce(log, path);
    var m := Minted(cfg, log);
    if End(cfg, path).Some? && path in m.ids {
      LabelsBelow(m.ids, path, Labels(cfg, path, m.ids[path], m.next));
    }
  }

  lemma LabelsBelow(ids: map<Path, nat>, path: Path, labels: seq<nat>)
    requires forall p :: p in ids && p != [] ==> p[..|p| - 1] != path
    ensures forall p :: p in ids ==>
              p in LabelChildren(ids, path, labels) && LabelChildren(ids, path, labels)[p] == ids[p]
    ensures forall p :: p in LabelChildren(ids, path, labels) ==> p in ids || (p != [] && p[..|p| - 1] == path)
  {
    forall q | q in Elements(Children(path, |labels|))
      ensures q != [] && q[..|q| - 1] == path
    {
      var i :| 0 <= i < |labels| && Children(path, |labels|)[i] == q;
      assert q[..|q| - 1] == path;
    }
  }

  lemma EntersOnce(log: seq<Path>, path: Path)
    requires Related(log + [path], Sooner)
    ensures path !in log && forall p :: p in log ==> Sooner(p, path)
  {
    forall p | p in log
      ensures Sooner(p, path)
    {
      var k :| 0 <= k < |log| && log[k] == p;
      assert (log + [path])[k] == p && (log + [path])[|log|] == path;
    }
    SoonerIsIrreflexive(path);
  }

  /** Paths entered in order, each of them known before. */
  ghost predicate Known(cfg: Cfg, log: seq<Path>) {
    Related(log, Sooner) && Elements(log) <= Ids(cfg, log).Keys
  }

  /** What a run that only the loop budget cut short is made of. */
  ghost predicate Complete(cfg: Cfg, log: seq<Path>, maxIters: nat) {
    Known(cfg, log) && Budgeted(cfg, log, maxIters)
  }

  /** A run stopped anywhere: what it entered had room, and what it knows and has
      not entered had none or was still to come. */
  ghost predicate Underway(cfg: Cfg, log: seq<Path>, maxIters: nat) {
    && Known(cfg, log)
    && (forall p :: p in log ==> |Rivals(cfg, Ids(cfg, log), log, p)| < maxIters)
    && (forall p :: p in Ids(cfg, log) && p !in log ==>
          |Rivals(cfg, Ids(cfg, log), log, p)| >= maxIters || Later(log, p))
  }

  ghost predicate Later(log: seq<Path>, p: Path) {
    forall q :: q in log ==> Sooner(q, p)
  }

  /** A path is known, under its id, before it is entered. */
  lemma KnownBefore(cfg: Cfg, log: seq<Path>, k: nat)
    requires Known(cfg, log) && k < |log|
    ensures log[k] in Ids(cfg, log[..k]) && Ids(cfg, log)[log[k]] == Ids(cfg, log[..k])[log[k]]
  {
    hide Ids;
    var p := log[k];
    assert p in Elements(log);
    if p !in Ids(cfg, log[..k]) {
      var j := DiscoveredAt(cfg, log, p, k);
      ParentDiscovers(cfg, log, p, j);
      SoonerIsStrict(log[j], p);
      assert false;
    }
    IdsStay(cfg, log, k, p);
  }

  lemma ParentDiscovers(cfg: Cfg, log: seq<Path>, p: Path, j: nat)
    requires Related(log, Sooner) && j < |log| && p !in Ids(cfg, log[..j]) && p in Ids(cfg, log[..j + 1])
    ensures Sooner(log[j], p)
  {
    hide Ids;
    assert log[..j + 1] == log[..j] + [log[j]];
    IdsWhere(cfg, log[..j]);
    MintKeeps(cfg, log[..j], log[j]);
    assert log[j] <= p && log[j] != p;
  }

  /** The entry that made a path known. */
  lemma DiscoveredAt(cfg: Cfg, log: seq<Path>, p: Path, from: nat) returns (j: nat)
    requires from <= |log| && p !in Ids(cfg, log[..from]) && p in Ids(cfg, log)
    ensures from <= j < |log| && p !in Ids(cfg, log[..j]) && p in Ids(cfg, log[..j + 1])
  {
    j := from;
    assert log[..|log|] == log;
    while p !in Ids(cfg, log[..j + 1])
      invariant from <= j < |log| && p !in Ids(cfg, log[..j])
      decreases |log| - j
    {
      j := j + 1;
    }
  }

  /** A path the other run lacks had at least as many rivals here. */
  lemma NoFewerRivals(cfg: Cfg, a: seq<Path>, b: seq<Path>, k: nat)
    requires Known(cfg, a) && Known(cfg, b)
    requires k < |a| && k <= |b| && a[..k] == b[..k] && (k == |b| || Sooner(a[k], b[k]))
    ensures var p := a[k];
            && p in a && p in Ids(cfg, a) && p !in b && p in Ids(cfg, b)
            && |Rivals(cfg, Ids(cfg, b), b, p)| <= |Rivals(cfg, Ids(cfg, a), a, p)|
  {
    hide Ids, Sooner, Rivals;
    var p := a[k];
    assert p in Elements(a);
    KnownBefore(cfg, a, k);
    IdsStay(cfg, b, k, p);
    LaterIsLater(b, k, p, a);
    RivalsShared(cfg, a, b, k, p);
  }

  lemma LaterIsLater(b: seq<Path>, k: nat, p: Path, a: seq<Path>)
    requires Related(b, Sooner) && Related(a, Sooner) && k < |a| && k <= |b| && a[..k] == b[..k] && a[k] == p
    requires k < |b| ==> Sooner(p, b[k])
    ensures p !in b && forall j :: k <= j < |b| ==> Sooner(p, b[j]) && !Sooner(b[j], p)
  {
    forall j | k <= j < |b|
      ensures Sooner(p, b[j]) && !Sooner(b[j], p)
    {
      if k < j {
        SoonerIsTransitive(p, b[k], b[j]);
      }
      SoonerIsStrict(p, b[j]);
    }
    SoonerIsIrreflexive(p);
    assert forall j :: 0 <= j < k ==> b[j] == b[..k][j] == a[..k][j] == a[j];
  }

  /** An entry two runs share has one id in both. */
  lemma SharedEntry(cfg: Cfg, a: seq<Path>, b: seq<Path>, k: nat, j: nat)
    requires Known(cfg, a) && Known(cfg, b)
    requires j < k <= |a| && k <= |b| && a[..k] == b[..k]
    ensures a[j] == b[j] && a[j] in a
    ensures a[j] in Ids(cfg, a) && a[j] in Ids(cfg, b) && Ids(cfg, a)[a[j]] == Ids(cfg, b)[a[j]]
  {
    hide Ids, Sooner;
    assert a[j] == a[..k][j] == b[..k][j] == b[j];
    assert b[..j] == b[..k][..j] == a[..k][..j] == a[..j];
    assert a[j] in Elements(a) && b[j] in Elements(b);
    KnownBefore(cfg, b, j);
    KnownBefore(cfg, a, j);
  }

  lemma RivalsShared(cfg: Cfg, a: seq<Path>, b: seq<Path>, k: nat, p: Path)
    requires Known(cfg, a) && Known(cfg, b)
    requires k < |a| && k <= |b| && a[..k] == b[..k] && a[k] == p
    requires p in Ids(cfg, a) && p in Ids(cfg, b) && Ids(cfg, b)[p] == Ids(cfg, a)[p]
    requires forall j :: k <= j < |b| ==> !Sooner(b[j], p)
    ensures Rivals(cfg, Ids(cfg, b), b, p) <= Rivals(cfg, Ids(cfg, a), a, p)
    ensures |Rivals(cfg, Ids(cfg, b), b, p)| <= |Rivals(cfg, Ids(cfg, a), a, p)|
  {
    var mine, theirs := Rivals(cfg, Ids(cfg, a), a, p), Rivals(cfg, Ids(cfg, b), b, p);
    hide Ids, Sooner, End;
    forall q | q in theirs
      ensures q in mine
    {
      var j :| 0 <= j < |b| && b[j] == q;
      SharedEntry(cfg, a, b, k, j);
    }
    assert |mine| == |theirs| + |mine - theirs|;
  }

  /** However far it got, a run is the beginning of the one complete run. */
  lemma RunIsPrefix(cfg: Cfg, log: seq<Path>, whole: seq<Path>, maxIters: nat)
    requires Underway(cfg, log, maxIters) && Complete(cfg, whole, maxIters)
    ensures log <= whole
  {
    hide Ids, Sooner, Rivals;
    var k := 0;
    while k < |log|
      invariant k <= |log| && k <= |whole| && log[..k] == whole[..k]
    {
      NextIsNext(cfg, log, whole, maxIters, k);
      assert log[..k + 1] == whole[..k + 1];
      k := k + 1;
    }
    assert log[..k] == log;
  }

  lemma NextIsNext(cfg: Cfg, log: seq<Path>, whole: seq<Path>, maxIters: nat, k: nat)
    requires Underway(cfg, log, maxIters) && Complete(cfg, whole, maxIters)
    requires k < |log| && k <= |whole| && log[..k] == whole[..k]
    ensures k < |whole| && log[k] == whole[k]
  {
    hide Ids, Sooner, Rivals;
    if k == |whole| || Sooner(log[k], whole[k]) {
      NoFewerRivals(cfg, log, whole, k);
      assert false;
    }
    if Sooner(whole[k], log[k]) {
      SoonerIsStrict(whole[k], log[k]);
      assert log[k] in log;
      NoFewerRivals(cfg, whole, log, k);
      assert false;
    }
    SoonerIsTotal(log[k], whole[k]);
  }

  lemma CompleteIsUnderway(cfg: Cfg, log: seq<Path>, maxIters: nat)
    requires Complete(cfg, log, maxIters)
    ensures Underway(cfg, log, maxIters)
  {
    assert forall p :: p in log ==> p in Elements(log);
  }

  /** What is queued comes later than what was entered. */
  lemma CountedIsUnderway(
      cfg: Cfg, maxIters: nat, visits: map<(nat, nat), nat>, pending: seq<Path>, log: seq<Path>)
    requires Counted(cfg, maxIters, visits, pending, log, Ids(cfg, log)) && Ordered(pending, log)
    requires Elements(log) <= Ids(cfg, log).Keys
    ensures Underway(cfg, log, maxIters)
  {
    hide Ids, Sooner, Parts, Rivals;
  }

  /** The graph and the loop budget determine which paths are entered and in
      which order. */
  lemma RunIsDetermined(cfg: Cfg, a: seq<Path>, b: seq<Path>, maxIters: nat)
    requires Complete(cfg, a, maxIters) && Complete(cfg, b, maxIters)
    ensures a == b
  {
    hide Complete, Underway;
    CompleteIsUnderway(cfg, a, maxIters);
    CompleteIsUnderway(cfg, b, maxIters);
    RunIsPrefix(cfg, a, b, maxIters);
    RunIsPrefix(cfg, b, a, maxIters);
  }

  // -------------------------------------------------------- what a run takes

  /** The arriving state weakens what the block already holds. */
  ghost predicate Weakens(cfg: Cfg, func: nat, m: Memory, path: Path, b: nat) {
    b in m.recorded && Merged(m.recorded[b], Arriving(cfg, func, m.left, path)) != m.recorded[b]
  }

  /** The steps one visit takes: one per event, one for a branch, and one for a
      merge that weakens the block's state. */
  ghost function VisitSteps(cfg: Cfg, func: nat, m: Memory, path: Path): nat {
    var at := End(cfg, path);
    if at.None? || at.value >= |cfg.blocks| then 0
    else
      |cfg.blocks[at.value].events| + (if cfg.blocks[at.value].terminator.BranchEnd? then 1 else 0)
      + (if Weakens(cfg, func, m, path, at.value) then 1 else 0)
  }

  /** The steps that entering the paths of `log` takes, with the one for entering
      the function. */
  ghost function StepsFor(cfg: Cfg, facts: seq<AssignmentFact>, func: nat, log: seq<Path>): nat {
    if log == [] then 1
    else
      var init := log[..|log| - 1];
      StepsFor(cfg, facts, func, init)
      + VisitSteps(cfg, func, Remembered(cfg, facts, func, init), log[|log| - 1])
  }

  /** The paths of `log` that end at a branch or a try fork. */
  ghost function ForksIn(cfg: Cfg, log: seq<Path>): set<Path> {
    set p | p in log && IsForkAt(cfg, p)
  }

  lemma StepsNext(cfg: Cfg, facts: seq<AssignmentFact>, func: nat, log: seq<Path>, path: Path)
    ensures StepsFor(cfg, facts, func, log + [path]) ==
            StepsFor(cfg, facts, func, log) + VisitSteps(cfg, func, Remembered(cfg, facts, func, log), path)
  {
    assert (log + [path])[..|log|] == log;
  }

  lemma ForksNext(cfg: Cfg, log: seq<Path>, path: Path)
    requires path !in log
    ensures |ForksIn(cfg, log + [path])| == |ForksIn(cfg, log)| + if IsForkAt(cfg, path) then 1 else 0
  {
    var before, after := ForksIn(cfg, log), ForksIn(cfg, log + [path]);
    assert forall p :: p in log + [path] <==> p in log || p == path;
    if IsForkAt(cfg, path) {
      assert after == before + {path};
    } else {
      assert after == before;
    }
  }

  /** A longer run takes no less of any budget. */
  lemma {:induction false} PrefixTakesLess(
      cfg: Cfg, facts: seq<AssignmentFact>, func: nat, log: seq<Path>, whole: seq<Path>)
    requires log <= whole
    ensures StepsFor(cfg, facts, func, log) <= StepsFor(cfg, facts, func, whole)
    ensures |ForksIn(cfg, log)| <= |ForksIn(cfg, whole)|
    ensures Minted(cfg, log).next <= Minted(cfg, whole).next
    decreases |whole|
  {
    if log != whole {
      hide IsForkAt, Visit, VisitSteps;
      var init, last := whole[..|whole| - 1], whole[|whole| - 1];
      assert whole == init + [last];
      PrefixTakesLess(cfg, facts, func, log, init);
      StepsNext(cfg, facts, func, init, last);
      MintNext(cfg, init, last);
      var before, after := ForksIn(cfg, init), ForksIn(cfg, whole);
      assert before <= after;
      assert |after| == |before| + |after - before|;
    }
  }

  // -------------------------------------------------------- exhausted graphs

  /** All paths of the graph, in order, each with room in the loop budget. */
  ghost predicate Exhaustive(cfg: Cfg, whole: seq<Path>, maxIters: nat) {
    && Related(whole, Sooner)
    && (forall p :: p in whole <==> End(cfg, p).Some?)
    && (forall p :: p in whole ==> |Rivals(cfg, Ids(cfg, whole), whole, p)| < maxIters)
  }

  /** Only paths of the graph are known. */
  lemma {:induction false} KnownArePaths(cfg: Cfg, log: seq<Path>, p: Path)
    requires p in Ids(cfg, log)
    ensures End(cfg, p).Some?
    decreases |log|
  {
    if log != [] {
      var init, path := log[..|log| - 1], log[|log| - 1];
      var m := Minted(cfg, init);
      if p in m.ids {
        KnownArePaths(cfg, init, p);
      } else {
        var labels := Labels(cfg, path, m.ids[path], m.next);
        var i :| 0 <= i < |labels| && Children(path, |labels|)[i] == p;
        EndOfChild(cfg, path, i);
      }
    }
  }

  /** The children of an entered path are known. */
  lemma {:induction false} ChildrenAreKnown(cfg: Cfg, log: seq<Path>, path: Path, i: nat)
    requires Related(log, Sooner) && path in log && path in Ids(cfg, log) && End(cfg, path + [i]).Some?
    ensures path + [i] in Ids(cfg, log)
  {
    hide Sooner;
    var k :| 0 <= k < |log| && log[k] == path;
    assert log[..k + 1] == log[..k] + [path];
    KnownEarly(cfg, log, k);
    MintNext(cfg, log[..k], path);
    var m := Minted(cfg, log[..k]);
    ChildIsMinted(cfg, m, path, i);
    IdsStay(cfg, log, k + 1, path + [i]);
  }

  lemma ChildIsMinted(cfg: Cfg, m: Minting, path: Path, i: nat)
    requires path in m.ids && End(cfg, path + [i]).Some?
    ensures path + [i] in Mint(cfg, m, path).ids
  {
    assert (path + [i])[..|path|] == path;
    EndOfChild(cfg, path, i);
    var labels := Labels(cfg, path, m.ids[path], m.next);
    assert Children(path, |labels|)[i] == path + [i];
    assert path + [i] in Elements(Children(path, |labels|));
  }

  /** A path in the log is known before it is entered, if it is known at all. */
  lemma KnownEarly(cfg: Cfg, log: seq<Path>, k: nat)
    requires Related(log, Sooner) && k < |log| && log[k] in Ids(cfg, log)
    ensures log[k] in Ids(cfg, log[..k])
  {
    hide Ids;
    if log[k] !in Ids(cfg, log[..k]) {
      var j := DiscoveredAt(cfg, log, log[k], k);
      ParentDiscovers(cfg, log, log[k], j);
      SoonerIsStrict(log[j], log[k]);
      assert false;
    }
  }

  lemma ExhaustiveIsComplete(cfg: Cfg, whole: seq<Path>, maxIters: nat)
    requires Exhaustive(cfg, whole, maxIters)
    ensures Complete(cfg, whole, maxIters)
  {
    hide Ids, Sooner, Rivals;
    forall p | p in whole
      ensures p in Ids(cfg, whole)
    {
      PathIsKnown(cfg, whole, maxIters, p);
    }
    forall p | p in Ids(cfg, whole)
      ensures p in whole
    {
      KnownArePaths(cfg, whole, p);
    }
  }

  lemma {:induction false} PathIsKnown(cfg: Cfg, whole: seq<Path>, maxIters: nat, p: Path)
    requires Exhaustive(cfg, whole, maxIters) && p in whole
    ensures p in Ids(cfg, whole)
    decreases |p|
  {
    hide Ids, Sooner, Rivals, End;
    IdsWhere(cfg, whole);
    if p != [] {
      var init, i := p[..|p| - 1], p[|p| - 1];
      assert p == init + [i];
      PrefixWalks(cfg, p, |p| - 1);
      PathIsKnown(cfg, whole, maxIters, init);
      ChildrenAreKnown(cfg, whole, init, i);
    }
  }

  /** A path the loop budget refused, however early, is refused in the end. */
  lemma RefusalStands(cfg: Cfg, log: seq<Path>, whole: seq<Path>, p: Path)
    requires Known(cfg, log) && Known(cfg, whole) && log <= whole && p in Ids(cfg, log)
    ensures p in Ids(cfg, whole)
    ensures |Rivals(cfg, Ids(cfg, log), log, p)| <= |Rivals(cfg, Ids(cfg, whole), whole, p)|
  {
    hide Ids, Sooner, End;
    assert whole[..|log|] == log;
    IdsStay(cfg, whole, |log|, p);
    var before, after := Rivals(cfg, Ids(cfg, log), log, p), Rivals(cfg, Ids(cfg, whole), whole, p);
    forall q | q in before
      ensures q in after
    {
      IdsStay(cfg, whole, |log|, q);
    }
    assert |after| == |before| + |after - before|;
  }

  // ------------------------------------------------------- all paths, in order

  ghost function BlockIds(cfg: Cfg): set<nat> {
    {cfg.entry} + set b, i | 0 <= b < |cfg.blocks| && 0 <= i < |cfg.blocks[b].successors| ::
      cfg.blocks[b].successors[i]
  }

  lemma EndIsBlockId(cfg: Cfg, path: Path)
    requires End(cfg, path).Some?
    ensures End(cfg, path).value in BlockIds(cfg)
  {
  }

  /** A path longer than the graph comes back to a block. */
  lemma LongMeansCycle(cfg: Cfg, p: Path)
    requires End(cfg, p).Some? && |p| >= |BlockIds(cfg)|
    ensures ReachableCycle(cfg)
  {
    hide BlockIds, End;
    var stops := seq(|p| + 1, k requires 0 <= k <= |p| => EndOf(cfg, p[..k]));
    forall k | 0 <= k <= |p|
      ensures stops[k] in BlockIds(cfg) && End(cfg, p[..k]) == Some(stops[k])
    {
      PrefixWalks(cfg, p, k);
      EndIsBlockId(cfg, p[..k]);
    }
    var i, j := RepeatsSomewhere(stops, BlockIds(cfg));
    assert p[..i] + p[i..j] == p[..j] && p[i..j] != [];
  }

  function EndOf(cfg: Cfg, p: Path): nat {
    if End(cfg, p).Some? then End(cfg, p).value else 0
  }

  /** `path` and everything up to `depth` steps below it, depth first and last
      successor first. */
  ghost function Below(cfg: Cfg, path: Path, depth: nat): seq<Path>
    decreases depth, 1, 0
  {
    if End(cfg, path).None? then []
    else [path] + if depth == 0 then [] else
      BelowAll(cfg, path, |Successors(cfg, End(cfg, path).value)|, depth - 1)
  }

  ghost function BelowAll(cfg: Cfg, path: Path, n: nat, depth: nat): seq<Path>
    decreases depth, 2, n
  {
    if n == 0 then [] else Below(cfg, path + [n - 1], depth) + BelowAll(cfg, path, n - 1, depth)
  }

  lemma {:induction false} BelowWhere(cfg: Cfg, path: Path, depth: nat, p: Path)
    ensures p in Below(cfg, path, depth) <==>
            path <= p && End(cfg, path).Some? && End(cfg, p).Some? && |p| <= |path| + depth
    decreases depth, 1, 0
  {
    hide End, Successors;
    if End(cfg, path).Some? {
      var n := |Successors(cfg, End(cfg, path).value)|;
      if depth > 0 {
        BelowAllWhere(cfg, path, n, depth - 1, p);
      }
      if path <= p && p != path && End(cfg, p).Some? {
        var i := p[|path|];
        assert p[..|path| + 1] == path + [i];
        PrefixWalks(cfg, p, |path| + 1);
        EndOfChild(cfg, path, i);
      }
    }
  }

  lemma ChildLeads(path: Path, i: nat, p: Path)
    ensures path + [i] <= p <==> path <= p && |p| > |path| && p[|path|] == i
  {
    var child := path + [i];
    if child <= p {
      assert p[..|path|] == child[..|path|] && p[|path|] == child[|path|];
    } else if path <= p && |p| > |path| {
      assert p[..|path| + 1] == path + [p[|path|]];
    }
  }

  lemma {:induction false} BelowAllWhere(cfg: Cfg, path: Path, n: nat, depth: nat, p: Path)
    requires End(cfg, path).Some? && n <= |Successors(cfg, End(cfg, path).value)|
    ensures p in BelowAll(cfg, path, n, depth) <==>
            path <= p && |p| > |path| && p[|path|] < n && End(cfg, p).Some? && |p| <= |path| + 1 + depth
    decreases depth, 2, n
  {
    hide End, Successors, Below;
    if n > 0 {
      var child := path + [n - 1];
      EndOfChild(cfg, path, n - 1);
      BelowWhere(cfg, child, depth, p);
      BelowAllWhere(cfg, path, n - 1, depth, p);
      ChildLeads(path, n - 1, p);
    }
  }

  lemma {:induction false} BelowIsOrdered(cfg: Cfg, path: Path, depth: nat)
    ensures Related(Below(cfg, path, depth), Sooner)
    decreases depth, 1, 0
  {
    if End(cfg, path).Some? && depth > 0 {
      hide End, Successors, Sooner;
      var n := |Successors(cfg, End(cfg, path).value)|;
      var rest := BelowAll(cfg, path, n, depth - 1);
      BelowAllIsOrdered(cfg, path, n, depth - 1);
      forall p | p in rest
        ensures Sooner(path, p)
      {
        BelowAllWhere(cfg, path, n, depth - 1, p);
        PrefixIsSooner(path, p);
      }
    }
  }

  lemma PrefixIsSooner(p: Path, q: Path)
    requires p <= q && p != q
    ensures Sooner(p, q)
  {
  }

  lemma {:induction false} BelowAllIsOrdered(cfg: Cfg, path: Path, n: nat, depth: nat)
    requires End(cfg, path).Some? && n <= |Successors(cfg, End(cfg, path).value)|
    ensures Related(BelowAll(cfg, path, n, depth), Sooner)
    decreases depth, 2, n
  {
    hide End, Successors, Sooner;
    if n > 0 {
      BelowIsOrdered(cfg, path + [n - 1], depth);
      BelowAllIsOrdered(cfg, path, n - 1, depth);
      FirstIsSooner(cfg, path, n, depth);
      RelatedAppend(Below(cfg, path + [n - 1], depth), BelowAll(cfg, path, n - 1, depth), Sooner);
    }
  }

  lemma FirstIsSooner(cfg: Cfg, path: Path, n: nat, depth: nat)
    requires End(cfg, path).Some? && 0 < n <= |Successors(cfg, End(cfg, path).value)|
    ensures forall p, q :: p in Below(cfg, path + [n - 1], depth) && q in BelowAll(cfg, path, n - 1, depth) ==>
              Sooner(p, q)
  {
    hide End, Successors, Sooner, Below, BelowAll;
    forall p, q | p in Below(cfg, path + [n - 1], depth) && q in BelowAll(cfg, path, n - 1, depth)
      ensures Sooner(p, q)
    {
      BelowWhere(cfg, path + [n - 1], depth, p);
      BelowAllWhere(cfg, path, n - 1, depth, q);
      SiblingsAreSooner(path, n - 1, p, q);
    }
  }

  lemma SiblingsAreSooner(path: Path, i: nat, p: Path, q: Path)
    requires path + [i] <= p && path <= q && |q| > |path| && q[|path|] < i
    ensures Sooner(p, q)
  {
    assert p[..|path|] == (path + [i])[..|path|] == path && p[|path|] == (path + [i])[|path|] == i;
    assert q[..|path|] == path;
    assert Parts(p, q);
  }

  /** A graph without a reachable cycle has one listing of all its paths. */
  lemma AcyclicIsListed(cfg: Cfg) returns (whole: seq<Path>)
    requires !ReachableCycle(cfg)
    ensures Related(whole, Sooner) && forall p :: p in whole <==> End(cfg, p).Some?
  {
    hide End, Sooner, ReachableCycle, BlockIds;
    whole := Below(cfg, [], |BlockIds(cfg)|);
    BelowIsOrdered(cfg, [], |BlockIds(cfg)|);
    StartsHere(cfg);
    forall p: Path
      ensures p in whole <==> End(cfg, p).Some?
    {
      BelowWhere(cfg, [], |BlockIds(cfg)|, p);
      if End(cfg, p).Some? && |p| >= |BlockIds(cfg)| {
        LongMeansCycle(cfg, p);
      }
    }
  }

  lemma StartsHere(cfg: Cfg)
    ensures End(cfg, []) == Some(cfg.entry)
  {
  }

  // --------------------------------------------------------------- normal form

  /** Every local has a value in normal form. */
  ghost predicate Normal(s: StateView) {
    forall name :: name in s.locals ==> NormalForm(s.locals[name])
  }

  lemma MergeIsNormal(a: StateView, b: StateView)
    requires Normal(a) && Normal(b)
    ensures Normal(Merged(a, b))
  {
    forall name | name in a.locals && name in b.locals
      ensures NormalForm(Join(a.locals[name], b.locals[name]))
    {
      JoinKeepsNormalForm(a.locals[name], b.locals[name]);
    }
  }

  lemma {:induction false} TransferIsNormal(s: StateView, events: seq<FlowEvent>, facts: seq<AssignmentFact>)
    requires Normal(s)
    ensures Normal(TransferAll(s, events, facts))
  {
    if events != [] {
      TransferIsNormal(s, events[..|events| - 1], facts);
    }
  }

  lemma ArrivingIsNormal(cfg: Cfg, func: nat, left: map<Path, StateView>, path: Path)
    requires forall p :: p in left ==> Normal(left[p])
    ensures Normal(Arriving(cfg, func, left, path))
  {
  }

  /** The engine only ever holds values in normal form: recorded at blocks, left
      behind on paths, and arriving at the next path. */
  lemma {:induction false} RunsAreNormal(
      cfg: Cfg, facts: seq<AssignmentFact>, func: nat, log: seq<Path>, path: Path)
    ensures var m := Remembered(cfg, facts, func, log);
            && (forall b :: b in m.recorded ==> Normal(m.recorded[b]))
            && (forall p :: p in m.left ==> Normal(m.left[p]))
            && Normal(Arriving(cfg, func, m.left, path))
  {
    if log != [] {
      var init, last := log[..|log| - 1], log[|log| - 1];
      var m := Remembered(cfg, facts, func, init);
      RunsAreNormal(cfg, facts, func, init, last);
      VisitIsNormal(cfg, facts, func, m, last);
    }
    ArrivingIsNormal(cfg, func, Remembered(cfg, facts, func, log).left, path);
  }

  lemma VisitIsNormal(cfg: Cfg, facts: seq<AssignmentFact>, func: nat, m: Memory, path: Path)
    requires forall b :: b in m.recorded ==> Normal(m.recorded[b])
    requires forall p :: p in m.left ==> Normal(m.left[p])
    ensures var m' := Visit(cfg, facts, func, m, path);
            && (forall b :: b in m'.recorded ==> Normal(m'.recorded[b]))
            && (forall p :: p in m'.left ==> Normal(m'.left[p]))
  {
    hide Normal, Arriving, End;
    var at := End(cfg, path);
    if at.Some? && at.value < |cfg.blocks| {
      var b, s := at.value, Arriving(cfg, func, m.left, path);
      ArrivingIsNormal(cfg, func, m.left, path);
      if b in m.recorded {
        MergeIsNormal(m.recorded[b], s);
        TransferIsNormal(Merged(m.recorded[b], s), cfg.blocks[b].events, facts);
      }
      TransferIsNormal(s, cfg.blocks[b].events, facts);
    }
  }
}
