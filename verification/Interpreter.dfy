/** The bounded abstract interpreter: a worklist over control-flow paths under
    step, loop, branch and path-id budgets. */
module Interpreter {
  import opened Prelude
  import opened Ordering
  import opened ExecStates
  import opened FlowEvents
  import opened ControlFlow
  import opened Recording

  datatype TraceLimits = TraceLimits(maxSteps: u32, maxLoopIters: u16, maxBranches: u32)

  datatype StepKind =
    | EnterFunction | EvalExpr | AssignStep | BranchSplit | BranchTaken | CallStep | ReturnStep
    | ThrowStep | AwaitStep | YieldStep | LifecycleStep | MergeStep | Diagnostic

  datatype RawStep = RawStep(id: nat, pathId: nat, kind: StepKind, span: Span, func: nat)

  const MAX_STEPS := "max-steps"
  const MAX_LOOP_ITERS := "max-loop-iters"
  const MAX_BRANCHES := "max-branches"
  const PATH_ID_OVERFLOW := "path-id-overflow"
  const MISSING_ENTRY := "cfg-missing-entry"

  function MissingBlock(b: nat): string {
    "cfg-missing-block:" + Decimal(b)
  }

  function KindOf(e: FlowEvent): StepKind {
    match e
    case Call(_, _, _, _, _, _) => CallStep
    case Assign(_, _, _, _, _, _, _, _) => AssignStep
    case Return(_, _, _, _, _) => ReturnStep
    case Throw(_, _, _) => ThrowStep
    case Await(_, _) => AwaitStep
    case Yield(_, _, _) => YieldStep
    case Lifecycle(_, _, _) => LifecycleStep
    case _ => Diagnostic
  }

  /** The kind of step an event lists, by name. */
  lemma KindsAreNamed(e: FlowEvent)
    ensures (KindOf(e) == CallStep <==> e.Call?) && (KindOf(e) == AssignStep <==> e.Assign?)
    ensures (KindOf(e) == ReturnStep <==> e.Return?) && (KindOf(e) == ThrowStep <==> e.Throw?)
    ensures (KindOf(e) == AwaitStep <==> e.Await?) && (KindOf(e) == YieldStep <==> e.Yield?)
    ensures KindOf(e) == LifecycleStep <==> e.Lifecycle?
    ensures KindOf(e) == Diagnostic <==>
            e.Branch? || e.Loop? || e.Try? || e.AggregateAssign? || e.Break? || e.Continue? || e.Defer? || e.Using?
  {
  }

  // ---------------------------------------------------------------- trace

  function Splits(steps: seq<RawStep>): nat {
    if steps == [] then 0
    else Splits(steps[..|steps| - 1]) + if steps[|steps| - 1].kind.BranchSplit? then 1 else 0
  }

  lemma {:induction false} SplitsBounded(steps: seq<RawStep>)
    ensures Splits(steps) <= |steps|
  {
    if steps != [] {
      SplitsBounded(steps[..|steps| - 1]);
    }
  }

  /** Every step belongs to the function that runs. */
  predicate Owned(steps: seq<RawStep>, func: nat) {
    forall i :: 0 <= i < |steps| ==> steps[i].func == func
  }

  /** A step as it reads in the listing, without its position. */
  datatype Row = Row(pathId: nat, kind: StepKind, span: Span)

  /** The listing without its bookkeeping: what blocks did, in order. */
  function Listing(steps: seq<RawStep>): seq<Row> {
    if steps == [] then []
    else
      var last := steps[|steps| - 1];
      Listing(steps[..|steps| - 1]) +
      if last.kind.MergeStep? || last.kind.EnterFunction? then [] else [Row(last.pathId, last.kind, last.span)]
  }

  function EventRows(events: seq<FlowEvent>, pathId: nat): seq<Row> {
    seq(|events|, i requires 0 <= i < |events| => Row(pathId, KindOf(events[i]), events[i].span))
  }

  /** What one visit to a block lists: its events, then its branch. */
  function BlockRows(block: BasicBlock, pathId: nat): seq<Row> {
    EventRows(block.events, pathId) +
    if block.terminator.BranchEnd? then [Row(pathId, BranchSplit, block.span)] else []
  }

  /** What entering the paths of `log`, in that order, lists in full. */
  ghost function Replay(cfg: Cfg, ids: map<Path, nat>, log: seq<Path>): seq<Row> {
    if log == [] then []
    else
      var path := log[|log| - 1];
      Replay(cfg, ids, log[..|log| - 1]) +
      if path in ids && End(cfg, path).Some? && End(cfg, path).value < |cfg.blocks|
      then BlockRows(cfg.blocks[End(cfg, path).value], ids[path]) else []
  }

  /** What entering one more path lists: a row for each event of the block, with
      its kind and place, then one row for the block if it ends in a branch. */
  lemma RowsMean(cfg: Cfg, ids: map<Path, nat>, log: seq<Path>, path: Path, b: nat)
    requires path in ids && End(cfg, path) == Some(b) && b < |cfg.blocks|
    ensures var before, after, block := Replay(cfg, ids, log), Replay(cfg, ids, log + [path]), cfg.blocks[b];
            && before <= after
            && |after| == |before| + |block.events| + (if block.terminator == BranchEnd then 1 else 0)
            && (forall k :: 0 <= k < |block.events| ==>
                  after[|before| + k] == Row(ids[path], KindOf(block.events[k]), block.events[k].span))
            && (block.terminator == BranchEnd ==> after[|after| - 1] == Row(ids[path], BranchSplit, block.span))
  {
    hide Replay, End, KindOf;
    ReplayStep(cfg, ids, log, path, b);
  }

  lemma {:induction false} ReplayRelabelled(cfg: Cfg, ids: map<Path, nat>, ids': map<Path, nat>, log: seq<Path>)
    requires forall p :: p in ids ==> p in ids' && ids'[p] == ids[p]
    requires forall p :: p in log ==> p in ids
    ensures Replay(cfg, ids, log) == Replay(cfg, ids', log)
  {
    if log != [] {
      ReplayRelabelled(cfg, ids, ids', log[..|log| - 1]);
    }
  }

  class RawTrace {
    var steps: seq<RawStep>
    var truncated: bool
    var truncationReasons: seq<string>
    var incompleteReasons: seq<string>

    ghost predicate Valid()
      reads this
    {
      && (forall i :: 0 <= i < |steps| ==> steps[i].id == i)
      && (truncated <==> truncationReasons != [])
      && Distinct(truncationReasons) && Distinct(incompleteReasons)
      && "" !in incompleteReasons
    }

    constructor ()
      ensures Valid() && steps == [] && !truncated && incompleteReasons == []
    {
      steps, truncated, truncationReasons, incompleteReasons := [], false, [], [];
    }

    method MarkTruncated(reason: string)
      requires Valid()
      modifies this`truncated, this`truncationReasons
      ensures Valid() && truncated
      ensures forall r :: r in truncationReasons <==> r in old(truncationReasons) || r == reason
    {
      truncated := true;
      if reason !in truncationReasons {
        truncationReasons := truncationReasons + [reason];
      }
    }

    method MarkIncomplete(reason: string)
      requires Valid()
      modifies this`incompleteReasons
      ensures Valid()
      ensures forall r :: r in incompleteReasons <==>
                          r in old(incompleteReasons) || (r == reason && r != "")
      ensures old(incompleteReasons) <= incompleteReasons
    {
      if reason == "" {
        return;
      }
      if reason !in incompleteReasons {
        incompleteReasons := incompleteReasons + [reason];
      }
    }

    /** Append one step, or report the exhausted step budget. */
    method Emit(kind: StepKind, pathId: nat, span: Span, func: nat, maxSteps: u32) returns (ok: bool)
      requires Valid()
      modifies this`steps, this`truncated, this`truncationReasons
      ensures Valid()
      ensures ok <==> old(|steps|) < maxSteps
      ensures ok ==>
        && steps == old(steps) + [RawStep(|old(steps)|, pathId, kind, span, func)]
        && Splits(steps) == Splits(old(steps)) + (if kind.BranchSplit? then 1 else 0)
        && Listing(steps) == Listing(old(steps)) +
             (if kind.MergeStep? || kind.EnterFunction? then [] else [Row(pathId, kind, span)])
        && truncated == old(truncated) && truncationReasons == old(truncationReasons)
      ensures !ok ==> steps == old(steps) && truncated && MAX_STEPS in truncationReasons
      ensures forall r :: r in truncationReasons ==> r in old(truncationReasons) || (!ok && r == MAX_STEPS)
    {
      if |steps| >= maxSteps {
        MarkTruncated(MAX_STEPS);
        return false;
      }
      steps := steps + [RawStep(|steps|, pathId, kind, span, func)];
      assert steps[..|steps| - 1] == old(steps);
      return true;
    }
  }

  // -------------------------------------------------------------- worklist

  datatype Item = Item(block: nat, path: nat, state: StateView)

  /** The worklist entries a block pushes for its successors. */
  function Items(successors: seq<nat>, labels: seq<nat>, s: StateView, fork: bool): seq<Item>
    requires |labels| == |successors|
  {
    seq(|successors|, i requires 0 <= i < |successors| =>
      Item(successors[i], labels[i], ChildState(s, successors[i], i, fork)))
  }

  /** A fork's path ids: the first successor inherits, the others are new. */
  ghost predicate FreshLabels(labels: seq<nat>, parent: nat, before: nat, after: nat) {
    && before <= after
    && (labels != [] ==> labels[0] == parent)
    && (forall i :: 1 <= i < |labels| ==> labels[i] == before + i)
    && after == before + (if labels == [] then 0 else |labels| - 1)
  }

  /** Enqueue every successor on the same path id. */
  method PushSuccessors(successors: seq<nat>, path: nat, state: StateView, worklist: seq<Item>)
    returns (pushed: seq<Item>)
    ensures pushed == worklist + Items(successors, Repeated(path, |successors|), state, false)
  {
    pushed := worklist;
    for i := 0 to |successors|
      invariant pushed == worklist + Items(successors, Repeated(path, |successors|), state, false)[..i]
    {
      pushed := pushed + [Item(successors[i], path, state.(currentBlock := successors[i]))];
    }
  }

  /** Enqueue every successor of a fork, minting an id for all but the first;
      give up rather than reuse an id. */
  method PushBranchSuccessors(
      successors: seq<nat>, parentPath: nat, parentState: StateView, nextPath: u32,
      worklist: seq<Item>, trace: RawTrace)
    returns (ok: bool, next: u32, pushed: seq<Item>, ghost labels: seq<nat>)
    requires trace.Valid()
    modifies trace`truncated, trace`truncationReasons
    ensures trace.Valid()
    ensures ok <==> nextPath + |successors| <= U32_MAX + 1 || successors == []
    ensures ok ==>
      && FreshLabels(labels, parentPath, nextPath, next) && |labels| == |successors|
      && pushed == worklist + Items(successors, labels, parentState, true)
      && trace.truncated == old(trace.truncated)
      && trace.truncationReasons == old(trace.truncationReasons)
    ensures !ok ==> trace.truncated && PATH_ID_OVERFLOW in trace.truncationReasons
    ensures forall r :: r in trace.truncationReasons ==>
              r in old(trace.truncationReasons) || (!ok && r == PATH_ID_OVERFLOW)
  {
    next, pushed := nextPath, worklist;
    labels := seq(|successors|, i => if i == 0 then parentPath else nextPath + i);
    for i := 0 to |successors|
      invariant pushed == worklist + Items(successors, labels, parentState, true)[..i]
      invariant next == nextPath + (if i == 0 then 0 else i - 1)
      invariant trace.Valid()
      invariant trace.truncated == old(trace.truncated)
      invariant trace.truncationReasons == old(trace.truncationReasons)
    {
      var successorPath := parentPath;
      if i > 0 {
        if next == U32_MAX {
          trace.MarkTruncated(PATH_ID_OVERFLOW);
          ok := false;
          return;
        }
        next := next + 1;
        successorPath := next;
      }
      var state := parentState.(currentBlock := successors[i],
                                constraints := parentState.constraints + [Choice(i)]);
      pushed := pushed + [Item(successors[i], successorPath, state)];
    }
    ok := true;
  }

  /** Record an arriving state at a block, merging it into what is there. */
  method EnterBlock(incoming: map<nat, StateView>, b: nat, state: StateView)
    returns (after: map<nat, StateView>, out: StateView, changed: bool)
    ensures after == incoming[b := if b in incoming then Merged(incoming[b], state) else state]
    ensures out == if changed then after[b] else state
    ensures changed <==> b in incoming && Merged(incoming[b], state) != incoming[b]
  {
    out := state;
    if b in incoming {
      var existing := new ExecState(incoming[b]);
      var arriving := new ExecState(state);
      changed := existing.MergeFrom(arriving);
      after := incoming[b := existing.View()];
      if changed {
        out := existing.View();
      }
    } else {
      after := incoming[b := state];
      changed := false;
    }
  }

  /** Apply a block's events in order, one step each. */
  method RunEvents(
      events: seq<FlowEvent>, path: nat, state: StateView, facts: seq<AssignmentFact>,
      func: nat, maxSteps: u32, trace: RawTrace)
    returns (ok: bool, out: StateView)
    requires trace.Valid() && |trace.steps| <= maxSteps && Owned(trace.steps, func)
    modifies trace`steps, trace`truncated, trace`truncationReasons
    ensures trace.Valid() && |trace.steps| <= maxSteps
    ensures old(trace.steps) <= trace.steps && Owned(trace.steps, func)
    ensures Splits(trace.steps) == old(Splits(trace.steps))
    ensures Listing(trace.steps) <= old(Listing(trace.steps)) + EventRows(events, path)
    ensures ok ==>
      && out == TransferAll(state, events, facts)
      && |trace.steps| == |old(trace.steps)| + |events|
      && Listing(trace.steps) == old(Listing(trace.steps)) + EventRows(events, path)
      && trace.truncated == old(trace.truncated)
      && trace.truncationReasons == old(trace.truncationReasons)
    ensures !ok ==>
      && trace.truncated && MAX_STEPS in trace.truncationReasons
      && |trace.steps| == maxSteps && |old(trace.steps)| + |events| > maxSteps
    ensures forall r :: r in trace.truncationReasons ==>
              r in old(trace.truncationReasons) || (!ok && r == MAX_STEPS)
  {
    hide Splits, Listing, Transfer;
    out := state;
    for k := 0 to |events|
      invariant trace.Valid() && |trace.steps| <= maxSteps && Owned(trace.steps, func)
      invariant Splits(trace.steps) == old(Splits(trace.steps))
      invariant Listing(trace.steps) == old(Listing(trace.steps)) + EventRows(events, path)[..k]
      invariant out == TransferAll(state, events[..k], facts)
      invariant old(trace.steps) <= trace.steps && |trace.steps| == |old(trace.steps)| + k
      invariant trace.truncated == old(trace.truncated)
      invariant trace.truncationReasons == old(trace.truncationReasons)
    {
      assert events[..k + 1][..k] == events[..k];
      out := Transfer(out, events[k], facts);
      ok := trace.Emit(KindOf(events[k]), path, events[k].span, func, maxSteps);
      if !ok {
        return;
      }
    }
    assert events[..|events|] == events;
    ok := true;
  }

  // ----------------------------------------------------- search invariants

  /** Each queued entry sits at the end of its own path, labelled with that
      path's id, with a state that covers it. */
  ghost predicate ItemOk(cfg: Cfg, facts: seq<AssignmentFact>, item: Item, path: Path, ids: map<Path, nat>) {
    && End(cfg, path) == Some(item.block)
    && path in ids && ids[path] == item.path
    && Covers(cfg, facts, path, item.state)
  }

  ghost predicate QueueOk(
      cfg: Cfg, facts: seq<AssignmentFact>, worklist: seq<Item>, pending: seq<Path>, ids: map<Path, nat>)
  {
    && |pending| == |worklist|
    && forall k :: 0 <= k < |worklist| ==> ItemOk(cfg, facts, worklist[k], pending[k], ids)
  }

  /** An entered path is accounted for: its block holds a state that covers it,
      or the block is reported missing. */
  ghost predicate Entered(
      cfg: Cfg, facts: seq<AssignmentFact>, path: Path, incoming: map<nat, StateView>, reasons: seq<string>)
  {
    && End(cfg, path).Some?
    && var b := End(cfg, path).value;
       if b < |cfg.blocks| then b in incoming && Covers(cfg, facts, path, incoming[b])
       else MissingBlock(b) in reasons
  }

  ghost predicate DoneOk(
      cfg: Cfg, facts: seq<AssignmentFact>, done: set<Path>, incoming: map<nat, StateView>,
      reasons: seq<string>)
  {
    && (forall path :: path in done ==> Entered(cfg, facts, path, incoming, reasons))
    && (forall b :: b in incoming ==> b < |cfg.blocks| && Reachable(cfg, b))
  }

  /** Every path of the graph was entered or lies beyond a queued one. */
  ghost predicate NothingLost(cfg: Cfg, pending: seq<Path>, done: set<Path>) {
    forall path :: End(cfg, path).Some? ==>
      path in done || exists k :: 0 <= k < |pending| && pending[k] <= path
  }

  /** The two paths part at a branch or try fork. */
  ghost predicate ForkDiverges(cfg: Cfg, p: Path, q: Path) {
    exists n :: 0 <= n < |p| && n < |q| && p[..n] == q[..n] && p[n] != q[n] && IsForkAt(cfg, p[..n])
  }

  /** Paths that part at a fork never share a path id. */
  ghost predicate ForksApart(cfg: Cfg, ids: map<Path, nat>) {
    forall p, q :: p in ids && q in ids && ForkDiverges(cfg, p, q) ==> ids[p] != ids[q]
  }

  ghost predicate LabelsOk(cfg: Cfg, pending: seq<Path>, done: set<Path>, ids: map<Path, nat>, nextPath: nat) {
    && Distinct(pending)
    && (forall k :: 0 <= k < |pending| ==> pending[k] in ids && pending[k] !in done)
    && done <= ids.Keys
    && (forall p :: p in ids ==> 1 <= ids[p] <= nextPath)
    && (forall p, n :: p in ids && 0 <= n < |p| ==> p[..n] in done)
    && ForksApart(cfg, ids)
  }

  ghost predicate Queued(worklist: seq<Item>, b: nat) {
    exists k :: 0 <= k < |worklist| && worklist[k].block == b
  }

  /** The visited blocks are closed under successors, up to the queue. */
  ghost predicate Swept(cfg: Cfg, seen: set<nat>, worklist: seq<Item>) {
    && (cfg.entry in seen || Queued(worklist, cfg.entry))
    && forall v, i :: v in seen && 0 <= i < |Successors(cfg, v)| ==>
         Successors(cfg, v)[i] in seen || Queued(worklist, Successors(cfg, v)[i])
  }

  ghost predicate SeenOk(
      cfg: Cfg, seen: set<nat>, visits: map<(nat, nat), nat>, incoming: map<nat, StateView>,
      reasons: seq<string>)
  {
    && (forall key :: key in visits && visits[key] > 0 ==> key.0 in seen)
    && (forall v :: v in seen ==> v in incoming || MissingBlock(v) in reasons)
  }

  // ---------------------------------------------------------- termination

  /** The visits the loop budget still allows over the path ids minted so far. */
  ghost function VisitsLeft(cfg: Cfg, nextPath: nat, visits: map<(nat, nat), nat>, maxIters: nat)
    : set<(nat, nat, nat)>
  {
    set b, p, k | b in BlockIds(cfg) && 1 <= p <= nextPath && VisitCount(visits, (b, p)) <= k < maxIters ::
      (b, p, k)
  }

  lemma VisitUsesBudget(cfg: Cfg, nextPath: nat, visits: map<(nat, nat), nat>, maxIters: nat, key: (nat, nat))
    requires key.0 in BlockIds(cfg) && 1 <= key.1 <= nextPath && VisitCount(visits, key) < maxIters
    ensures VisitsLeft(cfg, nextPath, visits[key := VisitCount(visits, key) + 1], maxIters)
            < VisitsLeft(cfg, nextPath, visits, maxIters)
  {
    var after := visits[key := VisitCount(visits, key) + 1];
    var used := (key.0, key.1, VisitCount(visits, key));
    assert used in VisitsLeft(cfg, nextPath, visits, maxIters);
    assert used !in VisitsLeft(cfg, nextPath, after, maxIters);
    forall t | t in VisitsLeft(cfg, nextPath, after, maxIters)
      ensures t in VisitsLeft(cfg, nextPath, visits, maxIters)
    {
      assert VisitCount(visits, (t.0, t.1)) <= VisitCount(after, (t.0, t.1));
    }
  }

  // ------------------------------------------------------ step by step

  lemma EnterKeepsDone(
      cfg: Cfg, facts: seq<AssignmentFact>, done: set<Path>, incoming: map<nat, StateView>,
      reasons: seq<string>, path: Path, b: nat, state: StateView, after: map<nat, StateView>)
    requires DoneOk(cfg, facts, done, incoming, reasons)
    requires End(cfg, path) == Some(b) && b < |cfg.blocks| && Covers(cfg, facts, path, state)
    requires after == incoming[b := if b in incoming then Merged(incoming[b], state) else state]
    requires b in incoming ==> incoming[b].relations == []
    ensures DoneOk(cfg, facts, done + {path}, after, reasons)
    ensures Covers(cfg, facts, path, after[b])
  {
    if b in incoming {
      RetainFacts(incoming[b].relations, state.relations);
      assert after[b].relations == [];
      forall c | Admits(incoming[b], c) || Admits(state, c)
        ensures Admits(after[b], c)
      {
        MergeAdmits(incoming[b], state, c);
      }
    }
    forall p | p in done + {path}
      ensures Entered(cfg, facts, p, after, reasons)
    {
      if p in done {
        assert Entered(cfg, facts, p, incoming, reasons);
      }
    }
  }

  lemma QueueAppend(
      cfg: Cfg, facts: seq<AssignmentFact>, a: seq<Item>, pa: seq<Path>, b: seq<Item>, pb: seq<Path>,
      ids: map<Path, nat>, ids': map<Path, nat>)
    requires QueueOk(cfg, facts, a, pa, ids) && QueueOk(cfg, facts, b, pb, ids')
    requires forall p :: p in ids ==> p in ids' && ids'[p] == ids[p]
    ensures QueueOk(cfg, facts, a + b, pa + pb, ids')
  {
  }

  lemma ChildrenQueued(
      cfg: Cfg, facts: seq<AssignmentFact>, path: Path, b: nat, state: StateView, labels: seq<nat>,
      ids: map<Path, nat>, ids': map<Path, nat>)
    requires End(cfg, path) == Some(b) && Covers(cfg, facts, path, state)
    requires b < |cfg.blocks| && !cfg.blocks[b].terminator.UnreachableEnd?
    requires |labels| == |cfg.blocks[b].successors|
    requires Labelled(ids, path, labels, ids')
    ensures var block := cfg.blocks[b];
            QueueOk(cfg, facts,
                    Items(block.successors, labels, TransferAll(state, block.events, facts), IsFork(block.terminator)),
                    Children(path, |labels|), ids')
  {
    var block := cfg.blocks[b];
    var items := Items(block.successors, labels, TransferAll(state, block.events, facts), IsFork(block.terminator));
    forall i | 0 <= i < |labels|
      ensures ItemOk(cfg, facts, items[i], Children(path, |labels|)[i], ids')
    {
      CoversChild(cfg, facts, path, b, i, state);
      EndOfChild(cfg, path, i);
    }
  }

  /** `ids'` adds the ids of the children of `path`, keeping all others. */
  ghost predicate Labelled(ids: map<Path, nat>, path: Path, labels: seq<nat>, ids': map<Path, nat>) {
    && (forall i :: 0 <= i < |labels| ==> path + [i] !in ids)
    && ids'.Keys == ids.Keys + Elements(Children(path, |labels|))
    && (forall p :: p in ids ==> ids'[p] == ids[p])
    && (forall i :: 0 <= i < |labels| ==> path + [i] in ids' && ids'[path + [i]] == labels[i])
  }

  lemma ChildrenAreNew(cfg: Cfg, rest: seq<Path>, path: Path, done: set<Path>, ids: map<Path, nat>, nextPath: nat,
                       labels: seq<nat>)
    requires LabelsOk(cfg, rest + [path], done, ids, nextPath)
    ensures Labelled(ids, path, labels, LabelChildren(ids, path, labels))
  {
    assert (rest + [path])[|rest|] == path;
    forall i | 0 <= i < |labels|
      ensures path + [i] !in ids
    {
      assert (path + [i])[..|path|] == path;
    }
    forall i | 0 <= i < |labels|
      ensures path + [i] in Elements(Children(path, |labels|))
    {
      assert Children(path, |labels|)[i] == path + [i];
    }
  }

  /** A fork mints new ids for its children; every other block passes its own
      id on. */
  ghost predicate LabelsFit(cfg: Cfg, path: Path, ids: map<Path, nat>, labels: seq<nat>, nextPath: nat, next: nat) {
    && path in ids
    && if IsForkAt(cfg, path) then FreshLabels(labels, ids[path], nextPath, next)
       else labels == Repeated(ids[path], |labels|) && next == nextPath
  }

  lemma NewPathIsChild(ids: map<Path, nat>, path: Path, labels: seq<nat>, ids': map<Path, nat>, q: Path)
    returns (i: nat)
    requires Labelled(ids, path, labels, ids') && q in ids' && q !in ids
    ensures i < |labels| && q == path + [i] && ids'[q] == labels[i]
  {
    i :| 0 <= i < |Children(path, |labels|)| && Children(path, |labels|)[i] == q;
  }

  lemma PendingExtends(
      cfg: Cfg, rest: seq<Path>, path: Path, done: set<Path>, ids: map<Path, nat>, nextPath: nat,
      labels: seq<nat>, ids': map<Path, nat>)
    requires LabelsOk(cfg, rest + [path], done, ids, nextPath) && Labelled(ids, path, labels, ids')
    ensures var pending := rest + Children(path, |labels|);
            && Distinct(pending)
            && forall k :: 0 <= k < |pending| ==> pending[k] in ids' && pending[k] !in done + {path}
  {
    var pending := rest + Children(path, |labels|);
    assert (rest + [path])[|rest|] == path;
    assert forall k :: 0 <= k < |rest| ==> rest[k] == (rest + [path])[k];
    forall k | 0 <= k < |pending|
      ensures pending[k] in ids' && pending[k] !in done + {path}
    {
      if k >= |rest| {
        assert pending[k] == path + [k - |rest|];
      }
    }
    forall j, k | 0 <= j < k < |pending|
      ensures pending[j] != pending[k]
    {
      if j >= |rest| {
        assert pending[j][|path|] != pending[k][|path|];
      } else if k >= |rest| {
        assert pending[k] == path + [k - |rest|];
      }
    }
  }

  lemma PrefixesExtend(
      cfg: Cfg, rest: seq<Path>, path: Path, done: set<Path>, ids: map<Path, nat>, nextPath: nat,
      labels: seq<nat>, ids': map<Path, nat>, p: Path, n: nat)
    requires LabelsOk(cfg, rest + [path], done, ids, nextPath) && Labelled(ids, path, labels, ids')
    requires p in ids' && n < |p|
    ensures p[..n] in done + {path}
  {
    if p !in ids {
      var i := NewPathIsChild(ids, path, labels, ids', p);
      assert (rest + [path])[|rest|] == path;
      if n < |path| {
        assert p[..n] == path[..n];
      } else {
        assert p[..n] == path;
      }
    }
  }

  lemma LabelsExtend(
      cfg: Cfg, rest: seq<Path>, path: Path, done: set<Path>, ids: map<Path, nat>, nextPath: nat,
      labels: seq<nat>, ids': map<Path, nat>, next: nat)
    requires LabelsOk(cfg, rest + [path], done, ids, nextPath)
    requires Labelled(ids, path, labels, ids') && LabelsFit(cfg, path, ids, labels, nextPath, next)
    ensures LabelsOk(cfg, rest + Children(path, |labels|), done + {path}, ids', next)
  {
    PendingExtends(cfg, rest, path, done, ids, nextPath, labels, ids');
    forall p | p in ids'
      ensures 1 <= ids'[p] <= next
    {
      if p !in ids {
        var i := NewPathIsChild(ids, path, labels, ids', p);
      }
    }
    forall p, n | p in ids' && 0 <= n < |p|
      ensures p[..n] in done + {path}
    {
      PrefixesExtend(cfg, rest, path, done, ids, nextPath, labels, ids', p, n);
    }
    forall p, q | p in ids' && q in ids' && ForkDiverges(cfg, p, q)
      ensures ids'[p] != ids'[q]
    {
      ForksStayApart(cfg, rest, path, done, ids, nextPath, labels, ids', next, p, q);
    }
  }

  lemma ForksStayApart(
      cfg: Cfg, rest: seq<Path>, path: Path, done: set<Path>, ids: map<Path, nat>, nextPath: nat,
      labels: seq<nat>, ids': map<Path, nat>, next: nat, p: Path, q: Path)
    requires LabelsOk(cfg, rest + [path], done, ids, nextPath)
    requires Labelled(ids, path, labels, ids') && LabelsFit(cfg, path, ids, labels, nextPath, next)
    requires p in ids' && q in ids' && ForkDiverges(cfg, p, q)
    ensures ids'[p] != ids'[q]
  {
    hide NothingLost, IsForkAt, Labelled, LabelsFit;
    LabelsStay(ids, path, labels, ids');
    assert (rest + [path])[|rest|] == path;
    if p in ids && q in ids {
    } else if p in ids {
      NewApartFromOld(cfg, rest, path, done, ids, nextPath, labels, ids', next, q, p);
    } else if q in ids {
      NewApartFromOld(cfg, rest, path, done, ids, nextPath, labels, ids', next, p, q);
    } else {
      SiblingsApart(cfg, path, ids, nextPath, labels, ids', next, p, q);
    }
  }

  lemma LabelsStay(ids: map<Path, nat>, path: Path, labels: seq<nat>, ids': map<Path, nat>)
    requires Labelled(ids, path, labels, ids')
    ensures forall p :: p in ids ==> p in ids' && ids'[p] == ids[p]
  {
  }

  lemma SiblingsApart(
      cfg: Cfg, path: Path, ids: map<Path, nat>, nextPath: nat, labels: seq<nat>, ids': map<Path, nat>, next: nat,
      p: Path, q: Path)
    requires Labelled(ids, path, labels, ids') && LabelsFit(cfg, path, ids, labels, nextPath, next)
    requires p in ids' && q in ids' && p !in ids && q !in ids && ForkDiverges(cfg, p, q) && ids[path] <= nextPath
    ensures ids'[p] != ids'[q]
  {
    hide IsForkAt;
    var i := NewPathIsChild(ids, path, labels, ids', p);
    var j := NewPathIsChild(ids, path, labels, ids', q);
    var n :| 0 <= n < |p| && n < |q| && p[..n] == q[..n] && p[n] != q[n] && IsForkAt(cfg, p[..n]);
    assert n == |path| && p[..n] == path;
  }

  lemma NewApartFromOld(
      cfg: Cfg, rest: seq<Path>, path: Path, done: set<Path>, ids: map<Path, nat>, nextPath: nat,
      labels: seq<nat>, ids': map<Path, nat>, next: nat, added: Path, other: Path)
    requires LabelsOk(cfg, rest + [path], done, ids, nextPath)
    requires Labelled(ids, path, labels, ids') && LabelsFit(cfg, path, ids, labels, nextPath, next)
    requires added in ids' && added !in ids && other in ids
    requires ForkDiverges(cfg, added, other) || ForkDiverges(cfg, other, added)
    ensures ids'[added] != ids'[other]
  {
    hide IsForkAt, End, NothingLost;
    assert (rest + [path])[|rest|] == path;
    var i := NewPathIsChild(ids, path, labels, ids', added);
    var n :| 0 <= n < |added| && n < |other| && added[..n] == other[..n] && added[n] != other[n]
             && IsForkAt(cfg, added[..n]);
    assert added[..|path|] == path;
    if n < |path| {
      assert added[..n] == path[..n];
      assert ForkDiverges(cfg, path, other);
      assert ids[path] != ids[other];
    }
  }

  lemma NothingLostStep(cfg: Cfg, rest: seq<Path>, path: Path, done: set<Path>, n: nat)
    requires NothingLost(cfg, rest + [path], done)
    requires End(cfg, path).Some? && n == |Successors(cfg, End(cfg, path).value)|
    ensures NothingLost(cfg, rest + Children(path, n), done + {path})
  {
    hide End, Successors;
    var pending := rest + Children(path, n);
    forall q | End(cfg, q).Some? && q !in done + {path}
      ensures exists k :: 0 <= k < |pending| && pending[k] <= q
    {
      var k :| 0 <= k < |rest + [path]| && (rest + [path])[k] <= q;
      if k < |rest| {
        assert pending[k] <= q;
      } else {
        assert path <= q;
        var i := LeavesByChild(cfg, path, q);
        assert pending[|rest| + i] == path + [i];
      }
    }
  }

  lemma LeavesByChild(cfg: Cfg, path: Path, q: Path) returns (i: nat)
    requires End(cfg, path).Some? && End(cfg, q).Some? && path <= q && q != path
    ensures i < |Successors(cfg, End(cfg, path).value)| && path + [i] <= q
  {
    i := q[|path|];
    assert q[..|path| + 1] == path + [i];
    PrefixWalks(cfg, q, |path| + 1);
    EndOfChild(cfg, path, i);
  }

  lemma SweptStep(cfg: Cfg, seen: set<nat>, rest: seq<Item>, item: Item, pushed: seq<Item>)
    requires Swept(cfg, seen, rest + [item])
    requires |pushed| == |Successors(cfg, item.block)|
    requires forall i :: 0 <= i < |pushed| ==> pushed[i].block == Successors(cfg, item.block)[i]
    ensures Swept(cfg, seen + {item.block}, rest + pushed)
  {
    forall b | Queued(rest + [item], b) && b != item.block
      ensures Queued(rest + pushed, b)
    {
      var k :| 0 <= k < |rest + [item]| && (rest + [item])[k].block == b;
      assert (rest + pushed)[k].block == b;
    }
    forall i | 0 <= i < |pushed|
      ensures Queued(rest + pushed, Successors(cfg, item.block)[i])
    {
      assert (rest + pushed)[|rest| + i].block == Successors(cfg, item.block)[i];
    }
  }

  lemma {:induction false} SweptReachesAll(cfg: Cfg, seen: set<nat>, path: Path)
    requires Swept(cfg, seen, []) && End(cfg, path).Some?
    ensures End(cfg, path).value in seen
    decreases |path|
  {
    if path != [] {
      SweptReachesAll(cfg, seen, path[..|path| - 1]);
    }
  }

  // -------------------------------------------------------------- the run

  /** The bookkeeping of the search, kept beside the worklist for the proof. */
  datatype Search = Search(pending: seq<Path>, log: seq<Path>, ids: map<Path, nat>, seen: set<nat>)

  ghost predicate SearchOk(
      cfg: Cfg, facts: seq<AssignmentFact>, limits: TraceLimits, worklist: seq<Item>,
      visits: map<(nat, nat), nat>, incoming: map<nat, StateView>, nextPath: nat, g: Search,
      truncated: bool, reasons: seq<string>)
  {
    && QueueOk(cfg, facts, worklist, g.pending, g.ids)
    && DoneOk(cfg, facts, Elements(g.log), incoming, reasons)
    && (forall b :: b in incoming ==> incoming[b].relations == [])
    && LabelsOk(cfg, g.pending, Elements(g.log), g.ids, nextPath)
    && Distinct(g.log)
    && (!truncated ==> NothingLost(cfg, g.pending, Elements(g.log)))
    && (limits.maxLoopIters > 0 ==>
          Swept(cfg, g.seen, worklist) && SeenOk(cfg, g.seen, visits, incoming, reasons))
  }

  lemma SearchIsLabelled(
      cfg: Cfg, facts: seq<AssignmentFact>, limits: TraceLimits, worklist: seq<Item>,
      visits: map<(nat, nat), nat>, incoming: map<nat, StateView>, nextPath: nat, g: Search,
      truncated: bool, reasons: seq<string>)
    requires SearchOk(cfg, facts, limits, worklist, visits, incoming, nextPath, g, truncated, reasons)
    ensures LabelsOk(cfg, g.pending, Elements(g.log), g.ids, nextPath)
  {
  }

  lemma SearchStarts(cfg: Cfg, facts: seq<AssignmentFact>, limits: TraceLimits, func: nat, reasons: seq<string>)
    ensures SearchOk(cfg, facts, limits, [Item(cfg.entry, 1, EmptyState(func, cfg.entry))], map[], map[], 1,
                     Search([[]], [], map[[] := 1], {}), false, reasons)
    ensures Replay(cfg, map[[] := 1], []) == []
  {
    var worklist := [Item(cfg.entry, 1, EmptyState(func, cfg.entry))];
    var pending: seq<Path> := [[]];
    assert Elements<Path>([]) == {};
    assert worklist[0].block == cfg.entry;
    forall path | End(cfg, path).Some?
      ensures exists k :: 0 <= k < |pending| && pending[k] <= path
    {
      assert pending[0] <= path;
    }
  }

  lemma PopQueue(
      cfg: Cfg, facts: seq<AssignmentFact>, rest: seq<Item>, item: Item, pending: seq<Path>, ids: map<Path, nat>)
    requires QueueOk(cfg, facts, rest + [item], pending, ids)
    ensures pending == pending[..|rest|] + [pending[|rest|]]
    ensures QueueOk(cfg, facts, rest, pending[..|rest|], ids)
    ensures ItemOk(cfg, facts, item, pending[|rest|], ids)
  {
  }

  /** A visit past the loop budget is dropped, and the run is marked. */
  lemma DropCapped(
      cfg: Cfg, facts: seq<AssignmentFact>, limits: TraceLimits, rest: seq<Item>, item: Item,
      visits: map<(nat, nat), nat>, incoming: map<nat, StateView>, nextPath: nat, g: Search,
      truncated: bool, reasons: seq<string>, visits': map<(nat, nat), nat>)
    requires SearchOk(cfg, facts, limits, rest + [item], visits, incoming, nextPath, g, truncated, reasons)
    requires VisitCount(visits, (item.block, item.path)) >= limits.maxLoopIters
    requires visits' == visits[(item.block, item.path) := VisitCount(visits, (item.block, item.path))]
    ensures SearchOk(cfg, facts, limits, rest, visits', incoming, nextPath,
                     g.(pending := g.pending[..|rest|]), true, reasons)
  {
  }

  lemma LogExtends(log: seq<Path>, path: Path)
    requires Distinct(log) && path !in log
    ensures Elements(log + [path]) == Elements(log) + {path} && Distinct(log + [path])
  {
  }

  lemma MissingIsDone(
      cfg: Cfg, facts: seq<AssignmentFact>, done: set<Path>, incoming: map<nat, StateView>,
      reasons: seq<string>, path: Path, b: nat, reasons': seq<string>)
    requires DoneOk(cfg, facts, done, incoming, reasons)
    requires End(cfg, path) == Some(b) && b >= |cfg.blocks|
    requires forall r :: r in reasons || r == MissingBlock(b) ==> r in reasons'
    ensures DoneOk(cfg, facts, done + {path}, incoming, reasons')
  {
  }

  lemma VisitIsSeen(
      cfg: Cfg, seen: set<nat>, visits: map<(nat, nat), nat>, incoming: map<nat, StateView>, reasons: seq<string>,
      key: (nat, nat), count: nat, incoming': map<nat, StateView>, reasons': seq<string>)
    requires SeenOk(cfg, seen, visits, incoming, reasons)
    requires incoming.Keys <= incoming'.Keys && forall r :: r in reasons ==> r in reasons'
    requires key.0 in incoming' || MissingBlock(key.0) in reasons'
    ensures SeenOk(cfg, seen + {key.0}, visits[key := count], incoming', reasons')
  {
  }

  /** A visit to a missing block is reported and ends its path. */
  lemma ReportMissing(
      cfg: Cfg, facts: seq<AssignmentFact>, limits: TraceLimits, rest: seq<Item>, item: Item,
      visits: map<(nat, nat), nat>, incoming: map<nat, StateView>, nextPath: nat, g: Search,
      truncated: bool, reasons: seq<string>, count: nat, reasons': seq<string>)
    requires SearchOk(cfg, facts, limits, rest + [item], visits, incoming, nextPath, g, truncated, reasons)
    requires item.block >= |cfg.blocks|
    requires forall r :: r in reasons || r == MissingBlock(item.block) ==> r in reasons'
    ensures var path := g.pending[|rest|];
            SearchOk(cfg, facts, limits, rest, visits[(item.block, item.path) := count], incoming, nextPath,
                     g.(pending := g.pending[..|rest|], log := g.log + [path], seen := g.seen + {item.block}),
                     truncated, reasons')
  {
    var path, pending, done := g.pending[|rest|], g.pending[..|rest|], Elements(g.log);
    PopQueue(cfg, facts, rest, item, g.pending, g.ids);
    assert path !in done;
    LogExtends(g.log, path);
    MissingIsDone(cfg, facts, done, incoming, reasons, path, item.block, reasons');
    assert pending + Children(path, 0) == pending;
    LabelsExtend(cfg, pending, path, done, g.ids, nextPath, [], g.ids, nextPath);
    if !truncated {
      NothingLostStep(cfg, pending, path, done, 0);
    }
    if limits.maxLoopIters > 0 {
      assert rest + [] == rest;
      SweptStep(cfg, g.seen, rest, item, []);
      VisitIsSeen(cfg, g.seen, visits, incoming, reasons, (item.block, item.path), count, incoming, reasons');
    }
  }

  lemma CoversElsewhere(cfg: Cfg, facts: seq<AssignmentFact>, path: Path, s: StateView, b: nat)
    requires Covers(cfg, facts, path, s)
    ensures Covers(cfg, facts, path, s.(currentBlock := b))
  {
  }

  lemma ExpandDone(
      cfg: Cfg, facts: seq<AssignmentFact>, done: set<Path>, incoming: map<nat, StateView>, reasons: seq<string>,
      path: Path, ids: map<Path, nat>, item: Item, after: map<nat, StateView>, state: StateView)
    requires DoneOk(cfg, facts, done, incoming, reasons) && ItemOk(cfg, facts, item, path, ids)
    requires item.block < |cfg.blocks| && Arrived(incoming, item, after, state)
    requires forall b :: b in incoming ==> incoming[b].relations == []
    ensures DoneOk(cfg, facts, done + {path}, after, reasons)
    ensures forall b :: b in after ==> after[b].relations == []
    ensures Covers(cfg, facts, path, state)
  {
    CoversElsewhere(cfg, facts, path, item.state, item.block);
    EnterKeepsDone(cfg, facts, done, incoming, reasons, path, item.block, At(item), after);
  }

  lemma ExpandQueue(
      cfg: Cfg, facts: seq<AssignmentFact>, rest: seq<Item>, pending: seq<Path>, path: Path, b: nat,
      state: StateView, labels: seq<nat>, ids: map<Path, nat>, ids': map<Path, nat>)
    requires QueueOk(cfg, facts, rest, pending, ids) && Labelled(ids, path, labels, ids')
    requires End(cfg, path) == Some(b) && b < |cfg.blocks| && Covers(cfg, facts, path, state)
    requires |labels| == |Successors(cfg, b)|
    ensures QueueOk(cfg, facts, rest + Pushed(cfg, facts, b, state, labels), pending + Children(path, |labels|), ids')
  {
    if !cfg.blocks[b].terminator.UnreachableEnd? {
      ChildrenQueued(cfg, facts, path, b, state, labels, ids, ids');
    }
    QueueAppend(cfg, facts, rest, pending, Pushed(cfg, facts, b, state, labels), Children(path, |labels|), ids, ids');
  }

  lemma ExpandSweep(
      cfg: Cfg, facts: seq<AssignmentFact>, seen: set<nat>, rest: seq<Item>, item: Item,
      visits: map<(nat, nat), nat>, incoming: map<nat, StateView>, reasons: seq<string>, count: nat,
      after: map<nat, StateView>, state: StateView, labels: seq<nat>)
    requires Swept(cfg, seen, rest + [item]) && SeenOk(cfg, seen, visits, incoming, reasons)
    requires item.block < |cfg.blocks| && |labels| == |Successors(cfg, item.block)|
    requires Arrived(incoming, item, after, state)
    ensures Swept(cfg, seen + {item.block}, rest + Pushed(cfg, facts, item.block, state, labels))
    ensures SeenOk(cfg, seen + {item.block}, visits[(item.block, item.path) := count], after, reasons)
  {
    SweptStep(cfg, seen, rest, item, Pushed(cfg, facts, item.block, state, labels));
    VisitIsSeen(cfg, seen, visits, incoming, reasons, (item.block, item.path), count, after, reasons);
  }

  /** Entering a block and queueing its successors keeps the search sound and
      complete. */
  lemma Expand(
      cfg: Cfg, facts: seq<AssignmentFact>, limits: TraceLimits, rest: seq<Item>, item: Item,
      visits: map<(nat, nat), nat>, incoming: map<nat, StateView>, nextPath: nat, g: Search,
      truncated: bool, reasons: seq<string>, count: nat, after: map<nat, StateView>, state: StateView,
      labels: seq<nat>, next: nat)
    requires SearchOk(cfg, facts, limits, rest + [item], visits, incoming, nextPath, g, truncated, reasons)
    requires item.block < |cfg.blocks| && |labels| == |Successors(cfg, item.block)|
    requires Arrived(incoming, item, after, state)
    requires LabelsFit(cfg, g.pending[|rest|], g.ids, labels, nextPath, next)
    ensures SearchOk(cfg, facts, limits, rest + Pushed(cfg, facts, item.block, state, labels),
                     visits[(item.block, item.path) := count], after, next,
                     Advance(g, |rest|, item.block, labels), truncated, reasons)
  {
    var path, pending, done := g.pending[|rest|], g.pending[..|rest|], Elements(g.log);
    var ids' := LabelChildren(g.ids, path, labels);
    PopQueue(cfg, facts, rest, item, g.pending, g.ids);
    assert path !in done;
    LogExtends(g.log, path);
    ExpandDone(cfg, facts, done, incoming, reasons, path, g.ids, item, after, state);
    ChildrenAreNew(cfg, pending, path, done, g.ids, nextPath, labels);
    LabelsExtend(cfg, pending, path, done, g.ids, nextPath, labels, ids', next);
    ExpandQueue(cfg, facts, rest, pending, path, item.block, state, labels, g.ids, ids');
    if !truncated {
      NothingLostStep(cfg, pending, path, done, |labels|);
    }
    if limits.maxLoopIters > 0 {
      ExpandSweep(cfg, facts, g.seen, rest, item, visits, incoming, reasons, count, after, state, labels);
    }
  }

  function At(item: Item): StateView {
    item.state.(currentBlock := item.block)
  }

  /** The state recorded at the block, and the state execution goes on with. */
  ghost predicate Arrived(
      incoming: map<nat, StateView>, item: Item, after: map<nat, StateView>, state: StateView)
  {
    && after == incoming[item.block :=
                  if item.block in incoming then Merged(incoming[item.block], At(item)) else At(item)]
    && state == if Remerges(incoming, item) then after[item.block] else At(item)
  }

  /** The arriving state weakens what the block already holds. */
  ghost predicate Remerges(incoming: map<nat, StateView>, item: Item) {
    item.block in incoming && Merged(incoming[item.block], At(item)) != incoming[item.block]
  }

  ghost function Pushed(cfg: Cfg, facts: seq<AssignmentFact>, b: nat, state: StateView, labels: seq<nat>): seq<Item>
    requires b < |cfg.blocks| && |labels| == |Successors(cfg, b)|
  {
    var block := cfg.blocks[b];
    Items(Successors(cfg, b), labels, TransferAll(state, block.events, facts), IsFork(block.terminator))
  }

  ghost function Advance(g: Search, n: nat, b: nat, labels: seq<nat>): Search
    requires n < |g.pending|
  {
    var path := g.pending[n];
    Search(g.pending[..n] + Children(path, |labels|), g.log + [path], LabelChildren(g.ids, path, labels), g.seen + {b})
  }

  lemma ReplayStep(cfg: Cfg, ids: map<Path, nat>, log: seq<Path>, path: Path, b: nat)
    requires path in ids && End(cfg, path) == Some(b)
    ensures Replay(cfg, ids, log + [path]) ==
            Replay(cfg, ids, log) + if b < |cfg.blocks| then BlockRows(cfg.blocks[b], ids[path]) else []
  {
  }

  lemma ReplayAdvance(cfg: Cfg, pending: seq<Path>, path: Path, log: seq<Path>, ids: map<Path, nat>, nextPath: nat,
                      labels: seq<nat>)
    requires LabelsOk(cfg, pending + [path], Elements(log), ids, nextPath)
    ensures Replay(cfg, LabelChildren(ids, path, labels), log + [path]) == Replay(cfg, ids, log + [path])
  {
    ChildrenAreNew(cfg, pending, path, Elements(log), ids, nextPath, labels);
    assert (pending + [path])[|pending|] == path;
    assert forall p :: p in log ==> p in Elements(log);
    ReplayRelabelled(cfg, ids, LabelChildren(ids, path, labels), log + [path]);
  }

  /** What holds of a run however it ended: the paths of `log` are the first ones
      the loop budget admits, depth first, each is covered by what entering them
      records or ends at a block reported missing, forks have ids of their own,
      and the trace lists what was entered. */
  ghost predicate Explored(
      cfg: Cfg, facts: seq<AssignmentFact>, func: nat, maxIters: nat, log: seq<Path>, steps: seq<RawStep>,
      reasons: seq<string>)
  {
    && Underway(cfg, log, maxIters)
    && DoneOk(cfg, facts, Elements(log), Recorded(cfg, facts, func, log), reasons)
    && ForksApart(cfg, Ids(cfg, log))
    && Listing(steps) <= Replay(cfg, Ids(cfg, log), log)
  }

  /** The recorded states stand for every configuration that can arrive. */
  ghost predicate Sound(cfg: Cfg, facts: seq<AssignmentFact>, incoming: map<nat, StateView>) {
    forall path, c ::
      Arrives(cfg, facts, path, c) && End(cfg, path).Some? && End(cfg, path).value < |cfg.blocks| ==>
        End(cfg, path).value in incoming && Admits(incoming[End(cfg, path).value], c)
  }

  // ----------------------------------------------------- the run as a replay

  /** The loop follows the reference: order, recorded states, path ids, queued
      states and visit counts are those of the log. */
  ghost predicate Follows(
      cfg: Cfg, facts: seq<AssignmentFact>, func: nat, limits: TraceLimits, worklist: seq<Item>,
      visits: map<(nat, nat), nat>, incoming: map<nat, StateView>, nextPath: nat, g: Search)
  {
    && Ordered(g.pending, g.log)
    && incoming == Recorded(cfg, facts, func, g.log)
    && Minted(cfg, g.log) == Minting(g.ids, nextPath)
    && Sent(cfg, func, Remembered(cfg, facts, func, g.log).left, worklist, g.pending)
    && Counted(cfg, limits.maxLoopIters, visits, g.pending, g.log, g.ids)
  }

  /** Each queued state is the one in which its path arrives. */
  ghost predicate Sent(
      cfg: Cfg, func: nat, left: map<Path, StateView>, worklist: seq<Item>, pending: seq<Path>)
  {
    && |pending| == |worklist|
    && forall k :: 0 <= k < |worklist| ==> worklist[k].state == Arriving(cfg, func, left, pending[k])
  }

  lemma QueuesMatch(
      cfg: Cfg, facts: seq<AssignmentFact>, func: nat, limits: TraceLimits, worklist: seq<Item>,
      visits: map<(nat, nat), nat>, incoming: map<nat, StateView>, nextPath: nat, g: Search)
    requires Follows(cfg, facts, func, limits, worklist, visits, incoming, nextPath, g)
    ensures |g.pending| == |worklist| && g.ids == Ids(cfg, g.log) && incoming == Recorded(cfg, facts, func, g.log)
  {
  }

  lemma FollowStarts(cfg: Cfg, facts: seq<AssignmentFact>, func: nat, limits: TraceLimits)
    ensures Follows(cfg, facts, func, limits, [Item(cfg.entry, 1, EmptyState(func, cfg.entry))], map[], map[], 1,
                    Search([[]], [], map[[] := 1], {}))
  {
    var ids: map<Path, nat> := map[[] := 1];
    assert forall key: (nat, nat) :: Stops(cfg, ids, [], key) == {};
  }

  lemma FollowDrop(
      cfg: Cfg, facts: seq<AssignmentFact>, func: nat, limits: TraceLimits, rest: seq<Item>, item: Item,
      visits: map<(nat, nat), nat>, incoming: map<nat, StateView>, nextPath: nat, g: Search,
      visits': map<(nat, nat), nat>)
    requires Follows(cfg, facts, func, limits, rest + [item], visits, incoming, nextPath, g)
    requires QueueOk(cfg, facts, rest + [item], g.pending, g.ids)
    requires VisitCount(visits, (item.block, item.path)) >= limits.maxLoopIters
    requires forall key :: VisitCount(visits', key) == VisitCount(visits, key)
    ensures Follows(cfg, facts, func, limits, rest, visits', incoming, nextPath,
                    g.(pending := g.pending[..|rest|]))
  {
    hide Counted, Ordered, Covers, Arriving;
    var path, pending := g.pending[|rest|], g.pending[..|rest|];
    PopQueue(cfg, facts, rest, item, g.pending, g.ids);
    PopOrdered(pending, path, g.log);
    DropCounted(cfg, limits.maxLoopIters, visits, pending, path, g.log, g.ids, item.block, visits');
    assert forall k :: 0 <= k < |rest| ==> (rest + [item])[k] == rest[k];
  }

  lemma SentElsewhere(
      cfg: Cfg, func: nat, left: map<Path, StateView>, worklist: seq<Item>, pending: seq<Path>, path: Path,
      s: StateView)
    requires Sent(cfg, func, left, worklist, pending)
    requires forall p :: p in pending && p != [] ==> p[..|p| - 1] != path
    ensures Sent(cfg, func, left[path := s], worklist, pending)
  {
    forall k | 0 <= k < |worklist|
      ensures worklist[k].state == Arriving(cfg, func, left[path := s], pending[k])
    {
      assert pending[k] in pending;
    }
  }

  lemma SentBelow(
      cfg: Cfg, facts: seq<AssignmentFact>, func: nat, left: map<Path, StateView>, path: Path, b: nat,
      state: StateView, labels: seq<nat>)
    requires End(cfg, path) == Some(b) && b < |cfg.blocks| && |labels| == |Successors(cfg, b)|
    requires path in left && left[path] == TransferAll(state, cfg.blocks[b].events, facts)
    ensures Sent(cfg, func, left, Pushed(cfg, facts, b, state, labels), Children(path, |labels|))
  {
    hide TransferAll, End;
    var pushed, children := Pushed(cfg, facts, b, state, labels), Children(path, |labels|);
    forall i | 0 <= i < |labels|
      ensures pushed[i].state == Arriving(cfg, func, left, children[i])
    {
      var child := path + [i];
      EndOfChild(cfg, path, i);
      assert children[i] == child && child[..|child| - 1] == path;
      assert Arriving(cfg, func, left, child) ==
             ChildState(left[path], Successors(cfg, b)[i], i, IsFork(cfg.blocks[b].terminator));
    }
  }

  lemma SentAppend(
      cfg: Cfg, func: nat, left: map<Path, StateView>, a: seq<Item>, pa: seq<Path>, b: seq<Item>, pb: seq<Path>)
    requires Sent(cfg, func, left, a, pa) && Sent(cfg, func, left, b, pb)
    ensures Sent(cfg, func, left, a + b, pa + pb)
  {
  }

  /** A path arrives at its own end. */
  lemma ArrivesHere(cfg: Cfg, facts: seq<AssignmentFact>, func: nat, log: seq<Path>, path: Path)
    requires End(cfg, path).Some? && forall p :: p in log ==> End(cfg, p).Some?
    requires path != [] ==> path[..|path| - 1] in log
    ensures Arriving(cfg, func, Remembered(cfg, facts, func, log).left, path).currentBlock == End(cfg, path).value
  {
    LeftWhere(cfg, facts, func, log);
  }

  /** What a visit records is what the reference records. */
  lemma VisitIsRemembered(
      cfg: Cfg, facts: seq<AssignmentFact>, func: nat, log: seq<Path>, path: Path, item: Item,
      incoming: map<nat, StateView>, after: map<nat, StateView>, state: StateView)
    requires End(cfg, path) == Some(item.block) && item.block < |cfg.blocks|
    requires incoming == Recorded(cfg, facts, func, log)
    requires item.state == Arriving(cfg, func, Remembered(cfg, facts, func, log).left, path)
    requires item.state.currentBlock == item.block
    requires Arrived(incoming, item, after, state)
    ensures var m := Remembered(cfg, facts, func, log);
            Remembered(cfg, facts, func, log + [path]) ==
            Memory(after, m.left[path := TransferAll(state, cfg.blocks[item.block].events, facts)])
  {
    hide Arriving, Merged, TransferAll, End;
    assert At(item) == item.state;
    RememberNext(cfg, facts, func, log, path);
  }

  /** Facts about the entry on top of the stack. */
  lemma TopOfStack(
      cfg: Cfg, facts: seq<AssignmentFact>, func: nat, limits: TraceLimits, rest: seq<Item>, item: Item,
      visits: map<(nat, nat), nat>, incoming: map<nat, StateView>, nextPath: nat, g: Search,
      truncated: bool, reasons: seq<string>)
    requires SearchOk(cfg, facts, limits, rest + [item], visits, incoming, nextPath, g, truncated, reasons)
    requires Follows(cfg, facts, func, limits, rest + [item], visits, incoming, nextPath, g)
    ensures var path, left := g.pending[|rest|], Remembered(cfg, facts, func, g.log).left;
            && g.pending == g.pending[..|rest|] + [path]
            && End(cfg, path) == Some(item.block) && path in g.ids && g.ids[path] == item.path
            && path !in g.log && (forall q :: q in g.log ==> q in g.ids)
            && item.state == Arriving(cfg, func, left, path) && item.state.currentBlock == item.block
            && Sent(cfg, func, left, rest, g.pending[..|rest|])
            && forall p :: p in g.pending && p != [] ==> p[..|p| - 1] in g.log
  {
    var path, pending := g.pending[|rest|], g.pending[..|rest|];
    PopQueue(cfg, facts, rest, item, g.pending, g.ids);
    assert path !in Elements(g.log);
    forall q | q in g.log
      ensures q in g.ids && End(cfg, q).Some?
    {
      assert q in Elements(g.log);
      assert Entered(cfg, facts, q, incoming, reasons);
    }
    forall p | p in g.pending && p != []
      ensures p[..|p| - 1] in g.log
    {
      assert p[..|p| - 1] in Elements(g.log);
    }
    assert path in g.pending;
    ArrivesHere(cfg, facts, func, g.log, path);
    assert (rest + [item])[|rest|] == item;
    assert forall k :: 0 <= k < |rest| ==> (rest + [item])[k] == rest[k];
  }

  lemma MintIsFit(cfg: Cfg, path: Path, ids: map<Path, nat>, labels: seq<nat>, nextPath: nat, next: nat)
    requires End(cfg, path).Some? && |labels| == |Successors(cfg, End(cfg, path).value)|
    requires LabelsFit(cfg, path, ids, labels, nextPath, next)
    ensures Mint(cfg, Minting(ids, nextPath), path) == Minting(LabelChildren(ids, path, labels), next)
  {
    assert labels == Labels(cfg, path, ids[path], nextPath);
  }

  /** A visit keeps to the reference. */
  lemma FollowExpand(
      cfg: Cfg, facts: seq<AssignmentFact>, func: nat, limits: TraceLimits, rest: seq<Item>, item: Item,
      visits: map<(nat, nat), nat>, incoming: map<nat, StateView>, nextPath: nat, g: Search,
      truncated: bool, reasons: seq<string>, after: map<nat, StateView>, state: StateView,
      labels: seq<nat>, next: nat)
    requires SearchOk(cfg, facts, limits, rest + [item], visits, incoming, nextPath, g, truncated, reasons)
    requires Follows(cfg, facts, func, limits, rest + [item], visits, incoming, nextPath, g)
    requires VisitCount(visits, (item.block, item.path)) < limits.maxLoopIters
    requires item.block < |cfg.blocks| && |labels| == |Successors(cfg, item.block)|
    requires Arrived(incoming, item, after, state)
    requires LabelsFit(cfg, g.pending[|rest|], g.ids, labels, nextPath, next)
    ensures Follows(cfg, facts, func, limits, rest + Pushed(cfg, facts, item.block, state, labels),
                    visits[(item.block, item.path) := VisitCount(visits, (item.block, item.path)) + 1],
                    after, next, Advance(g, |rest|, item.block, labels))
  {
    hide SearchOk, Ordered, Counted, Arrived, Arriving, End, Successors, Pushed, TransferAll, LabelChildren, Mint,
         Sent, Remembered, Minted, LabelsFit, VisitCount, Children;
    QueuesMatch(cfg, facts, func, limits, rest + [item], visits, incoming, nextPath, g);
    var path, pending := g.pending[|rest|], g.pending[..|rest|];
    TopOfStack(cfg, facts, func, limits, rest, item, visits, incoming, nextPath, g, truncated, reasons);
    EnterOrdered(pending, path, g.log, |labels|);
    VisitIsRemembered(cfg, facts, func, g.log, path, item, incoming, after, state);
    MintNext(cfg, g.log, path);
    MintIsFit(cfg, path, g.ids, labels, nextPath, next);
    ExpandSent(cfg, facts, func, Remembered(cfg, facts, func, g.log).left, rest, pending, path, item.block, state,
               labels, g.log);
    ExpandCounted(cfg, facts, limits, pending, path, visits, incoming, nextPath, g, truncated, reasons, rest + [item],
                  item.block, labels);
  }

  lemma ExpandSent(
      cfg: Cfg, facts: seq<AssignmentFact>, func: nat, left: map<Path, StateView>, rest: seq<Item>,
      pending: seq<Path>, path: Path, b: nat, state: StateView, labels: seq<nat>, log: seq<Path>)
    requires Sent(cfg, func, left, rest, pending) && End(cfg, path) == Some(b) && b < |cfg.blocks|
    requires |labels| == |Successors(cfg, b)| && path !in log
    requires forall p :: p in pending + [path] && p != [] ==> p[..|p| - 1] in log
    ensures Sent(cfg, func, left[path := TransferAll(state, cfg.blocks[b].events, facts)],
                 rest + Pushed(cfg, facts, b, state, labels), pending + Children(path, |labels|))
  {
    hide Sent, End, TransferAll, Pushed, Successors, Children;
    var left' := left[path := TransferAll(state, cfg.blocks[b].events, facts)];
    assert forall p :: p in pending ==> p in pending + [path];
    SentElsewhere(cfg, func, left, rest, pending, path, left'[path]);
    SentBelow(cfg, facts, func, left', path, b, state, labels);
    SentAppend(cfg, func, left', rest, pending, Pushed(cfg, facts, b, state, labels), Children(path, |labels|));
  }

  lemma ExpandCounted(
      cfg: Cfg, facts: seq<AssignmentFact>, limits: TraceLimits, pending: seq<Path>, path: Path,
      visits: map<(nat, nat), nat>, incoming: map<nat, StateView>, nextPath: nat, g: Search,
      truncated: bool, reasons: seq<string>, worklist: seq<Item>, b: nat, labels: seq<nat>)
    requires SearchOk(cfg, facts, limits, worklist, visits, incoming, nextPath, g, truncated, reasons)
    requires Counted(cfg, limits.maxLoopIters, visits, g.pending, g.log, g.ids) && Ordered(g.pending, g.log)
    requires g.pending == pending + [path] && End(cfg, path) == Some(b) && path in g.ids && path !in g.log
    requires VisitCount(visits, (b, g.ids[path])) < limits.maxLoopIters
    requires forall q :: q in g.log ==> q in g.ids
    ensures var key := (b, g.ids[path]);
            Counted(cfg, limits.maxLoopIters, visits[key := VisitCount(visits, key) + 1],
                    pending + Children(path, |labels|), g.log + [path], LabelChildren(g.ids, path, labels))
  {
    hide Counted, Ordered, QueueOk, DoneOk, Swept, SeenOk, NothingLost, LabelChildren;
    var ids' := LabelChildren(g.ids, path, labels);
    ChildrenAreNew(cfg, pending, path, Elements(g.log), g.ids, nextPath, labels);
    EnterCounted(cfg, limits.maxLoopIters, visits, pending, path, g.log, g.ids, b,
                 pending + Children(path, |labels|), ids');
  }

  /** A visit to a missing block keeps to the reference. */
  lemma FollowMissing(
      cfg: Cfg, facts: seq<AssignmentFact>, func: nat, limits: TraceLimits, rest: seq<Item>, item: Item,
      visits: map<(nat, nat), nat>, incoming: map<nat, StateView>, nextPath: nat, g: Search,
      truncated: bool, reasons: seq<string>)
    requires SearchOk(cfg, facts, limits, rest + [item], visits, incoming, nextPath, g, truncated, reasons)
    requires Follows(cfg, facts, func, limits, rest + [item], visits, incoming, nextPath, g)
    requires VisitCount(visits, (item.block, item.path)) < limits.maxLoopIters
    requires item.block >= |cfg.blocks|
    ensures var path := g.pending[|rest|];
            Follows(cfg, facts, func, limits, rest,
                    visits[(item.block, item.path) := VisitCount(visits, (item.block, item.path)) + 1],
                    incoming, nextPath,
                    g.(pending := g.pending[..|rest|], log := g.log + [path], seen := g.seen + {item.block}))
    ensures Replay(cfg, g.ids, g.log + [g.pending[|rest|]]) == Replay(cfg, g.ids, g.log)
  {
    hide SearchOk, Ordered, Counted, Arriving, End, LabelChildren, Mint, Sent, Remembered, Minted, VisitCount, Replay;
    QueuesMatch(cfg, facts, func, limits, rest + [item], visits, incoming, nextPath, g);
    var path, pending := g.pending[|rest|], g.pending[..|rest|];
    TopOfStack(cfg, facts, func, limits, rest, item, visits, incoming, nextPath, g, truncated, reasons);
    EnterOrdered(pending, path, g.log, 0);
    assert pending + Children(path, 0) == pending;
    ReplayStep(cfg, g.ids, g.log, path, item.block);
    MintNext(cfg, g.log, path);
    MissingLeavesNothing(cfg, facts, func, g.log, path, g.ids, nextPath);
    ExpandCounted(cfg, facts, limits, pending, path, visits, incoming, nextPath, g, truncated, reasons, rest + [item],
                  item.block, []);
  }

  lemma MissingLeavesNothing(
      cfg: Cfg, facts: seq<AssignmentFact>, func: nat, log: seq<Path>, path: Path, ids: map<Path, nat>, nextPath: nat)
    requires End(cfg, path).Some? && End(cfg, path).value >= |cfg.blocks|
    ensures Remembered(cfg, facts, func, log + [path]) == Remembered(cfg, facts, func, log)
    ensures Mint(cfg, Minting(ids, nextPath), path) == Minting(ids, nextPath)
    ensures LabelChildren(ids, path, []) == ids
  {
    RememberNext(cfg, facts, func, log, path);
    assert LabelChildren(ids, path, []) == ids;
  }

  /** Leaving the loop in the middle of a visit. */
  lemma Abandon(
      cfg: Cfg, facts: seq<AssignmentFact>, func: nat, limits: TraceLimits, rest: seq<Item>, item: Item,
      visits: map<(nat, nat), nat>, incoming: map<nat, StateView>, nextPath: nat, g: Search,
      truncated: bool, reasons: seq<string>, after: map<nat, StateView>, state: StateView,
      steps: seq<RawStep>)
    requires SearchOk(cfg, facts, limits, rest + [item], visits, incoming, nextPath, g, truncated, reasons)
    requires Follows(cfg, facts, func, limits, rest + [item], visits, incoming, nextPath, g)
    requires VisitCount(visits, (item.block, item.path)) < limits.maxLoopIters
    requires item.block < |cfg.blocks| && Arrived(incoming, item, after, state)
    requires Listing(steps) <= Replay(cfg, g.ids, g.log) + BlockRows(cfg.blocks[item.block], item.path)
    ensures Explored(cfg, facts, func, limits.maxLoopIters, g.log + [g.pending[|rest|]], steps, reasons)
    ensures after == Recorded(cfg, facts, func, g.log + [g.pending[|rest|]])
  {
    hide Ordered, Counted, Arriving, End, TransferAll, Mint, Labels, Sent;
    var path, pending, done := g.pending[|rest|], g.pending[..|rest|], Elements(g.log);
    TopOfStack(cfg, facts, func, limits, rest, item, visits, incoming, nextPath, g, truncated, reasons);
    LogExtends(g.log, path);
    ExpandDone(cfg, facts, done, incoming, reasons, path, g.ids, item, after, state);
    ReplayStep(cfg, g.ids, g.log, path, item.block);
    VisitIsRemembered(cfg, facts, func, g.log, path, item, incoming, after, state);
    LabelsAfter(cfg, pending, path, g.log, g.ids, nextPath);
    AbandonIsUnderway(cfg, facts, func, limits, rest, item, visits, incoming, nextPath, g, truncated, reasons);
  }

  lemma AbandonIsUnderway(
      cfg: Cfg, facts: seq<AssignmentFact>, func: nat, limits: TraceLimits, rest: seq<Item>, item: Item,
      visits: map<(nat, nat), nat>, incoming: map<nat, StateView>, nextPath: nat, g: Search,
      truncated: bool, reasons: seq<string>)
    requires SearchOk(cfg, facts, limits, rest + [item], visits, incoming, nextPath, g, truncated, reasons)
    requires Follows(cfg, facts, func, limits, rest + [item], visits, incoming, nextPath, g)
    requires VisitCount(visits, (item.block, item.path)) < limits.maxLoopIters
    ensures Underway(cfg, g.log + [g.pending[|rest|]], limits.maxLoopIters)
    ensures RefusedPath(g) ==> LoopRefused(cfg, g.log + [g.pending[|rest|]], limits.maxLoopIters)
  {
    hide SearchOk, Ordered, Counted, Arriving, End, LabelChildren, Sent, Remembered, VisitCount, Labels, Rivals, Mint,
         Minted, Ids, Recorded, LoopRefused, Underway, Children;
    QueuesMatch(cfg, facts, func, limits, rest + [item], visits, incoming, nextPath, g);
    var path, pending, log := g.pending[|rest|], g.pending[..|rest|], g.log + [g.pending[|rest|]];
    TopOfStack(cfg, facts, func, limits, rest, item, visits, incoming, nextPath, g, truncated, reasons);
    var labels := Labels(cfg, path, g.ids[path], nextPath);
    var key := (item.block, item.path);
    IdsAfter(cfg, path, g.log, g.ids, nextPath);
    EnterOrdered(pending, path, g.log, |labels|);
    ExpandCounted(cfg, facts, limits, pending, path, visits, incoming, nextPath, g, truncated, reasons, rest + [item],
                  item.block, labels);
    AbandonKnows(cfg, facts, limits, pending, path, visits, incoming, nextPath, g, truncated, reasons, rest + [item]);
    CountedIsUnderway(cfg, limits.maxLoopIters, visits[key := VisitCount(visits, key) + 1],
                      pending + Children(path, |labels|), log);
    if RefusedPath(g) {
      var p :| p in g.ids && p !in g.log && p !in g.pending;
      RefusedStays(cfg, limits.maxLoopIters, visits[key := VisitCount(visits, key) + 1], pending, path, labels, g.log,
                   g.ids, p);
    }
  }

  lemma IdsAfter(cfg: Cfg, path: Path, log: seq<Path>, ids: map<Path, nat>, nextPath: nat)
    requires Minted(cfg, log) == Minting(ids, nextPath) && path in ids && End(cfg, path).Some?
    ensures Ids(cfg, log + [path]) == LabelChildren(ids, path, Labels(cfg, path, ids[path], nextPath))
  {
    hide End, Labels, LabelChildren;
    MintNext(cfg, log, path);
  }

  lemma AbandonKnows(
      cfg: Cfg, facts: seq<AssignmentFact>, limits: TraceLimits, pending: seq<Path>, path: Path,
      visits: map<(nat, nat), nat>, incoming: map<nat, StateView>, nextPath: nat, g: Search,
      truncated: bool, reasons: seq<string>, worklist: seq<Item>)
    requires SearchOk(cfg, facts, limits, worklist, visits, incoming, nextPath, g, truncated, reasons)
    requires g.pending == pending + [path] && End(cfg, path).Some? && path in g.ids && path !in g.log
    requires Minted(cfg, g.log) == Minting(g.ids, nextPath)
    ensures Elements(g.log + [path]) <= Ids(cfg, g.log + [path]).Keys
    ensures forall i :: 0 <= i < |Labels(cfg, path, g.ids[path], nextPath)| ==> path + [i] !in g.ids
  {
    hide QueueOk, DoneOk, Swept, SeenOk, NothingLost, End, Labels, Replay, ForksApart;
    LabelsAfter(cfg, pending, path, g.log, g.ids, nextPath);
    ChildrenAreNew(cfg, pending, path, Elements(g.log), g.ids, nextPath, Labels(cfg, path, g.ids[path], nextPath));
  }

  /** A path that is known and was dropped. */
  ghost predicate RefusedPath(g: Search) {
    exists p :: p in g.ids && p !in g.log && p !in g.pending
  }

  /** The loop budget refused a path the run knows. */
  ghost predicate LoopRefused(cfg: Cfg, log: seq<Path>, maxIters: nat) {
    exists p :: p in Ids(cfg, log) && p !in log && |Rivals(cfg, Ids(cfg, log), log, p)| >= maxIters
  }

  lemma RefusedStays(
      cfg: Cfg, maxIters: nat, visits: map<(nat, nat), nat>, pending: seq<Path>, path: Path, labels: seq<nat>,
      log: seq<Path>, ids: map<Path, nat>, p: Path)
    requires Counted(cfg, maxIters, visits, pending + Children(path, |labels|), log + [path], Ids(cfg, log + [path]))
    requires Ids(cfg, log + [path]) == LabelChildren(ids, path, labels)
    requires forall i :: 0 <= i < |labels| ==> path + [i] !in ids
    requires p in ids && p !in log && p !in pending + [path]
    ensures LoopRefused(cfg, log + [path], maxIters)
  {
    hide Ids, Rivals, Stops;
    assert path in pending + [path] && forall q :: q in pending ==> q in pending + [path];
    forall i | 0 <= i < |labels|
      ensures Children(path, |labels|)[i] != p
    {
    }
    assert p in Ids(cfg, log + [path]) && p !in log + [path];
  }

  /** The ids the reference gives after one more path are still in order, and
      list what was entered the same way. */
  lemma LabelsAfter(cfg: Cfg, pending: seq<Path>, path: Path, log: seq<Path>, ids: map<Path, nat>, nextPath: nat)
    requires LabelsOk(cfg, pending + [path], Elements(log), ids, nextPath) && path !in log && Distinct(log)
    requires Minted(cfg, log) == Minting(ids, nextPath) && path in ids && End(cfg, path).Some?
    ensures Elements(log + [path]) <= Ids(cfg, log + [path]).Keys && ForksApart(cfg, Ids(cfg, log + [path]))
    ensures Replay(cfg, Ids(cfg, log + [path]), log + [path]) == Replay(cfg, ids, log + [path])
  {
    hide End, Replay, ForksApart, Successors;
    var labels := Labels(cfg, path, ids[path], nextPath);
    var m := Mint(cfg, Minting(ids, nextPath), path);
    MintNext(cfg, log, path);
    LabelsOfFit(cfg, path, ids, nextPath);
    ChildrenAreNew(cfg, pending, path, Elements(log), ids, nextPath, labels);
    LabelsExtend(cfg, pending, path, Elements(log), ids, nextPath, labels, m.ids, m.next);
    LogExtends(log, path);
    ReplayAdvance(cfg, pending, path, log, ids, nextPath, labels);
  }

  lemma LabelsOfFit(cfg: Cfg, path: Path, ids: map<Path, nat>, nextPath: nat)
    requires path in ids && End(cfg, path).Some?
    ensures LabelsFit(cfg, path, ids, Labels(cfg, path, ids[path], nextPath), nextPath,
                      Mint(cfg, Minting(ids, nextPath), path).next)
  {
  }

  /** An empty worklist means the graph is exhausted, up to the loop budget. */
  lemma Exhausted(
      cfg: Cfg, facts: seq<AssignmentFact>, func: nat, limits: TraceLimits, visits: map<(nat, nat), nat>,
      incoming: map<nat, StateView>, nextPath: nat, g: Search, truncated: bool, reasons: seq<string>,
      steps: seq<RawStep>)
    requires SearchOk(cfg, facts, limits, [], visits, incoming, nextPath, g, truncated, reasons)
    requires Follows(cfg, facts, func, limits, [], visits, incoming, nextPath, g)
    requires Listing(steps) == Replay(cfg, g.ids, g.log)
    ensures Explored(cfg, facts, func, limits.maxLoopIters, g.log, steps, reasons)
    ensures Budgeted(cfg, g.log, limits.maxLoopIters)
    ensures RefusedPath(g) ==> LoopRefused(cfg, g.log, limits.maxLoopIters)
    ensures !truncated ==>
      && (forall path :: End(cfg, path).Some? ==> path in g.log)
      && Sound(cfg, facts, incoming) && !ReachableCycle(cfg)
    ensures limits.maxLoopIters > 0 ==>
      forall b :: Reachable(cfg, b) ==> Visited(cfg, g.log, b) || MissingBlock(b) in reasons
  {
    hide Swept, SeenOk, Counted, Ordered, ReachableCycle, Sound, ItemOk, LabelsOk, NothingLost, DoneOk, Visited,
         Budgeted, Arriving, Remembered, Minted, LoopRefused, Underway;
    assert g.pending == [];
    EmptyQueueSettles(cfg, limits.maxLoopIters, visits, g.log, nextPath);
    if !truncated {
      AllEntered(cfg, facts, g.pending, g.log, incoming, reasons);
    }
    if limits.maxLoopIters > 0 {
      AllVisited(cfg, facts, func, g.log, g.seen, visits, reasons);
    }
  }

  lemma EmptyQueueSettles(cfg: Cfg, maxIters: nat, visits: map<(nat, nat), nat>, log: seq<Path>, nextPath: nat)
    requires Ordered([], log) && Counted(cfg, maxIters, visits, [], log, Ids(cfg, log))
    requires LabelsOk(cfg, [], Elements(log), Ids(cfg, log), nextPath)
    ensures Underway(cfg, log, maxIters) && Budgeted(cfg, log, maxIters) && ForksApart(cfg, Ids(cfg, log))
    ensures forall p :: p in Ids(cfg, log) && p !in log ==> LoopRefused(cfg, log, maxIters)
  {
    hide Ids, Rivals, Sooner, Stops;
    CountedIsUnderway(cfg, maxIters, visits, [], log);
  }

  lemma AllEntered(
      cfg: Cfg, facts: seq<AssignmentFact>, pending: seq<Path>, log: seq<Path>, incoming: map<nat, StateView>,
      reasons: seq<string>)
    requires NothingLost(cfg, pending, Elements(log)) && DoneOk(cfg, facts, Elements(log), incoming, reasons)
    requires pending == []
    ensures forall path :: End(cfg, path).Some? ==> path in log
    ensures Sound(cfg, facts, incoming) && !ReachableCycle(cfg)
  {
    forall path | End(cfg, path).Some?
      ensures path in Elements(log)
    {
    }
    FinitePathsMeanNoCycle(cfg, Elements(log));
    forall path, c | Arrives(cfg, facts, path, c) && End(cfg, path).Some? && End(cfg, path).value < |cfg.blocks|
      ensures End(cfg, path).value in incoming && Admits(incoming[End(cfg, path).value], c)
    {
      assert Entered(cfg, facts, path, incoming, reasons);
    }
  }

  lemma AllVisited(
      cfg: Cfg, facts: seq<AssignmentFact>, func: nat, log: seq<Path>, seen: set<nat>,
      visits: map<(nat, nat), nat>, reasons: seq<string>)
    requires Swept(cfg, seen, []) && SeenOk(cfg, seen, visits, Recorded(cfg, facts, func, log), reasons)
    ensures forall b :: Reachable(cfg, b) ==> Visited(cfg, log, b) || MissingBlock(b) in reasons
  {
    forall b: nat | Reachable(cfg, b)
      ensures Visited(cfg, log, b) || MissingBlock(b) in reasons
    {
      var path :| End(cfg, path) == Some(b);
      SweptReachesAll(cfg, seen, path);
      RecordedWhere(cfg, facts, func, log, b);
    }
  }

  /** A path that ends at `b` was entered. */
  ghost predicate Visited(cfg: Cfg, log: seq<Path>, b: nat) {
    exists p :: p in log && End(cfg, p) == Some(b)
  }

  /** Enter a block and run its events. */
  method VisitBlock(
      cfg: Cfg, facts: seq<AssignmentFact>, limits: TraceLimits, func: nat, item: Item,
      incoming: map<nat, StateView>, trace: RawTrace)
    returns (ok: bool, after: map<nat, StateView>, ghost state: StateView, out: StateView)
    requires item.block < |cfg.blocks|
    requires trace.Valid() && |trace.steps| <= limits.maxSteps && Owned(trace.steps, func)
    modifies trace`steps, trace`truncated, trace`truncationReasons
    ensures trace.Valid() && |trace.steps| <= limits.maxSteps
    ensures old(trace.steps) <= trace.steps && Owned(trace.steps, func)
    ensures Splits(trace.steps) == old(Splits(trace.steps))
    ensures Arrived(incoming, item, after, state)
    ensures Listing(trace.steps) <=
            old(Listing(trace.steps)) + EventRows(cfg.blocks[item.block].events, item.path)
    ensures ok ==>
      && out == TransferAll(state, cfg.blocks[item.block].events, facts)
      && |trace.steps| == |old(trace.steps)| + |cfg.blocks[item.block].events|
                          + (if Remerges(incoming, item) then 1 else 0)
      && (Remerges(incoming, item) ==>
            trace.steps[|old(trace.steps)|]
            == RawStep(|old(trace.steps)|, item.path, MergeStep, cfg.blocks[item.block].span, func))
      && Listing(trace.steps) == old(Listing(trace.steps)) + EventRows(cfg.blocks[item.block].events, item.path)
      && trace.truncated == old(trace.truncated)
      && trace.truncationReasons == old(trace.truncationReasons)
    ensures !ok ==>
      && trace.truncated && MAX_STEPS in trace.truncationReasons && |trace.steps| == limits.maxSteps
      && |old(trace.steps)| + |cfg.blocks[item.block].events| + (if Remerges(incoming, item) then 1 else 0)
         > limits.maxSteps
    ensures forall r :: r in trace.truncationReasons ==>
              r in old(trace.truncationReasons) || (!ok && r == MAX_STEPS)
  {
    hide Splits, Listing, TransferAll, Merged;
    var block := cfg.blocks[item.block];
    var changed;
    after, out, changed := EnterBlock(incoming, item.block, At(item));
    state := out;
    if changed {
      ok := trace.Emit(MergeStep, item.path, block.span, func, limits.maxSteps);
      if !ok {
        return;
      }
    }
    ok, out := RunEvents(block.events, item.path, out, facts, func, limits.maxSteps, trace);
  }

  /** The steps one visit takes. */
  ghost function BlockSteps(block: BasicBlock, incoming: map<nat, StateView>, item: Item): nat {
    |block.events| + (if block.terminator.BranchEnd? then 1 else 0) + (if Remerges(incoming, item) then 1 else 0)
  }

  /** Why a visit gave up. */
  ghost predicate GaveUp(
      cfg: Cfg, limits: TraceLimits, block: BasicBlock, taken: nat, branches: nat, nextPath: nat, steps: nat, r: string)
  {
    || (r == MAX_STEPS && steps == limits.maxSteps && taken > limits.maxSteps)
    || (r == MAX_BRANCHES && (block.terminator.BranchEnd? || block.terminator.TryForkEnd?)
        && limits.maxBranches < U32_MAX && branches + 1 > limits.maxBranches)
    || (r == PATH_ID_OVERFLOW && (block.terminator.BranchEnd? || block.terminator.TryForkEnd?)
        && block.successors != [] && nextPath + |block.successors| - 1 > U32_MAX)
  }

  /** Queue the successors of a block that was run, under the branch and path-id
      budgets. */
  method LeaveBlock(
      block: BasicBlock, limits: TraceLimits, func: nat, path: nat, out: StateView, rest: seq<Item>,
      nextPath: u32, branches: u32, trace: RawTrace)
    returns (ok: bool, worklist: seq<Item>, next: u32, spent: u32, ghost labels: seq<nat>)
    requires trace.Valid() && |trace.steps| <= limits.maxSteps && Owned(trace.steps, func)
    requires WithinBranches(limits, trace.steps, branches)
    modifies trace`steps, trace`truncated, trace`truncationReasons
    ensures trace.Valid() && |trace.steps| <= limits.maxSteps
    ensures old(trace.steps) <= trace.steps && Owned(trace.steps, func)
    ensures WithinBranches(limits, trace.steps, if ok then spent else limits.maxBranches)
    ensures var split := if block.terminator.BranchEnd? then [Row(path, BranchSplit, block.span)] else [];
            && Listing(trace.steps) <= old(Listing(trace.steps)) + split
            && (ok ==> Listing(trace.steps) == old(Listing(trace.steps)) + split
                       && |trace.steps| == |old(trace.steps)| + |split|)
    ensures ok ==>
      && |labels| == (if block.terminator.UnreachableEnd? then 0 else |block.successors|)
      && worklist == rest + Items(if block.terminator.UnreachableEnd? then [] else block.successors, labels, out,
                                  IsFork(block.terminator))
      && (if IsFork(block.terminator) then FreshLabels(labels, path, nextPath, next)
          else labels == Repeated(path, |labels|) && next == nextPath)
      && trace.truncated == old(trace.truncated)
      && trace.truncationReasons == old(trace.truncationReasons)
      && (if IsFork(block.terminator)
          then spent == (if branches == U32_MAX then 0 else branches + 1) <= limits.maxBranches
          else spent == branches)
    ensures !ok ==> trace.truncated && StoppedShort(trace.truncationReasons)
    ensures forall r :: r in trace.truncationReasons ==>
      || r in old(trace.truncationReasons)
      || (!ok && (|| (r == MAX_STEPS && block.terminator.BranchEnd?
                      && |old(trace.steps)| == |trace.steps| == limits.maxSteps)
                  || (r == MAX_BRANCHES && IsFork(block.terminator)
                      && limits.maxBranches < U32_MAX && branches + 1 > limits.maxBranches)
                  || (r == PATH_ID_OVERFLOW && IsFork(block.terminator)
                      && block.successors != [] && nextPath + |block.successors| - 1 > U32_MAX)))
  {
    hide Listing, Splits, FreshLabels;
    ok, worklist, next, spent, labels := true, rest, nextPath, branches, [];
    if IsFork(block.terminator) {
      spent := if branches == U32_MAX then 0 else branches + 1;
      if spent > limits.maxBranches {
        trace.MarkTruncated(MAX_BRANCHES);
        ok := false;
        return;
      }
      if block.terminator.BranchEnd? {
        ok := trace.Emit(BranchSplit, path, block.span, func, limits.maxSteps);
        if !ok {
          return;
        }
      }
      ok, next, worklist, labels := PushBranchSuccessors(block.successors, path, out, nextPath, rest, trace);
    } else if !block.terminator.UnreachableEnd? {
      labels := Repeated(path, |block.successors|);
      worklist := PushSuccessors(block.successors, path, out, rest);
    }
  }

  /** Enter a block, run it, and queue its successors under the branch and
      path-id budgets. */
  method ExpandBlock(
      cfg: Cfg, facts: seq<AssignmentFact>, limits: TraceLimits, func: nat, rest: seq<Item>, item: Item,
      incoming: map<nat, StateView>, nextPath: u32, branches: u32, trace: RawTrace)
    returns (ok: bool, worklist: seq<Item>, after: map<nat, StateView>, next: u32, spent: u32,
             ghost state: StateView, ghost labels: seq<nat>)
    requires item.block < |cfg.blocks|
    requires trace.Valid() && |trace.steps| <= limits.maxSteps && Owned(trace.steps, func)
    requires WithinBranches(limits, trace.steps, branches)
    modifies trace`steps, trace`truncated, trace`truncationReasons
    ensures trace.Valid() && |trace.steps| <= limits.maxSteps
    ensures old(trace.steps) <= trace.steps && Owned(trace.steps, func)
    ensures WithinBranches(limits, trace.steps, if ok then spent else limits.maxBranches)
    ensures Arrived(incoming, item, after, state)
    ensures Listing(trace.steps) <= old(Listing(trace.steps)) + BlockRows(cfg.blocks[item.block], item.path)
    ensures ok ==>
      && |labels| == |Successors(cfg, item.block)|
      && worklist == rest + Pushed(cfg, facts, item.block, state, labels)
      && (if cfg.blocks[item.block].terminator.BranchEnd? || cfg.blocks[item.block].terminator.TryForkEnd?
          then FreshLabels(labels, item.path, nextPath, next)
          else labels == Repeated(item.path, |labels|) && next == nextPath)
      && Listing(trace.steps) == old(Listing(trace.steps)) + BlockRows(cfg.blocks[item.block], item.path)
      && trace.truncated == old(trace.truncated)
      && trace.truncationReasons == old(trace.truncationReasons)
      && |trace.steps| == |old(trace.steps)| + BlockSteps(cfg.blocks[item.block], incoming, item)
      && (if cfg.blocks[item.block].terminator.BranchEnd? || cfg.blocks[item.block].terminator.TryForkEnd?
          then spent == (if branches == U32_MAX then 0 else branches + 1) <= limits.maxBranches
          else spent == branches)
    ensures !ok ==> trace.truncated && StoppedShort(trace.truncationReasons)
    ensures forall r :: r in trace.truncationReasons ==>
              || r in old(trace.truncationReasons)
              || (!ok && GaveUp(cfg, limits, cfg.blocks[item.block],
                                |old(trace.steps)| + BlockSteps(cfg.blocks[item.block], incoming, item),
                                branches, nextPath, |trace.steps|, r))
  {
    hide Listing, Splits, Arrived, Remerges, FreshLabels;
    var block, out := cfg.blocks[item.block], item.state;
    worklist, next, spent, labels := rest, nextPath, branches, [];
    ok, after, state, out := VisitBlock(cfg, facts, limits, func, item, incoming, trace);
    if ok {
      ok, worklist, next, spent, labels :=
        LeaveBlock(block, limits, func, item.path, out, rest, nextPath, branches, trace);
    }
  }

  /** The run was abandoned for a budget other than the loop budget. */
  predicate StoppedShort(reasons: seq<string>) {
    MAX_STEPS in reasons || MAX_BRANCHES in reasons || PATH_ID_OVERFLOW in reasons
  }

  /** The branch budget holds: no wrap-around can hide a split. */
  ghost predicate WithinBranches(limits: TraceLimits, steps: seq<RawStep>, branches: nat) {
    limits.maxBranches < U32_MAX ==> Splits(steps) <= branches <= limits.maxBranches
  }

  /** What the run has taken of its budgets: the steps and forks of the log, and
      a truncation reason only for a path the loop budget refused. */
  ghost predicate Taken(
      cfg: Cfg, facts: seq<AssignmentFact>, func: nat, limits: TraceLimits, g: Search, branches: nat, steps: nat,
      reasons: seq<string>)
  {
    && steps == StepsFor(cfg, facts, func, g.log)
    && (limits.maxBranches < U32_MAX ==> branches == |ForksIn(cfg, g.log)|)
    && (forall r :: r in reasons ==> r == MAX_LOOP_ITERS && RefusedPath(g))
  }

  /** A truncation reason is earned: the paths entered need more than the budget
      it names allows. */
  ghost predicate Earned(
      cfg: Cfg, facts: seq<AssignmentFact>, func: nat, limits: TraceLimits, log: seq<Path>, steps: nat, r: string)
  {
    || (r == MAX_STEPS && steps == limits.maxSteps < StepsFor(cfg, facts, func, log))
    || (r == MAX_BRANCHES && limits.maxBranches < U32_MAX && limits.maxBranches < |ForksIn(cfg, log)|)
    || (r == PATH_ID_OVERFLOW && U32_MAX < Minted(cfg, log).next)
    || (r == MAX_LOOP_ITERS && LoopRefused(cfg, log, limits.maxLoopIters))
  }

  /** The budgets suffice for entering the paths of `log`. */
  ghost predicate Affords(cfg: Cfg, facts: seq<AssignmentFact>, func: nat, limits: TraceLimits, log: seq<Path>) {
    && StepsFor(cfg, facts, func, log) <= limits.maxSteps
    && (|ForksIn(cfg, log)| <= limits.maxBranches || limits.maxBranches == U32_MAX)
    && Minted(cfg, log).next <= U32_MAX
  }

  /** The reference counts a visit as the loop does. */
  lemma VisitTakes(
      cfg: Cfg, facts: seq<AssignmentFact>, func: nat, limits: TraceLimits, rest: seq<Item>, item: Item,
      visits: map<(nat, nat), nat>, incoming: map<nat, StateView>, nextPath: nat, g: Search,
      truncated: bool, reasons: seq<string>)
    requires SearchOk(cfg, facts, limits, rest + [item], visits, incoming, nextPath, g, truncated, reasons)
    requires Follows(cfg, facts, func, limits, rest + [item], visits, incoming, nextPath, g)
    requires item.block < |cfg.blocks|
    ensures var path, block := g.pending[|rest|], cfg.blocks[item.block];
            && path !in g.log && path in g.pending && IsForkAt(cfg, path) == IsFork(block.terminator)
            && StepsFor(cfg, facts, func, g.log + [path])
               == StepsFor(cfg, facts, func, g.log) + BlockSteps(block, incoming, item)
            && |ForksIn(cfg, g.log + [path])|
               == |ForksIn(cfg, g.log)| + (if IsFork(block.terminator) then 1 else 0)
            && Minted(cfg, g.log + [path]).next ==
               nextPath + if IsFork(block.terminator) && block.successors != [] then |block.successors| - 1 else 0
  {
    hide SearchOk, Ordered, Counted, Arriving, Sent, ForksIn, LabelChildren, Remembered, VisitSteps, BlockSteps, Minted,
         Mint, StepsFor, Labels;
    QueuesMatch(cfg, facts, func, limits, rest + [item], visits, incoming, nextPath, g);
    var path := g.pending[|rest|];
    TopOfStack(cfg, facts, func, limits, rest, item, visits, incoming, nextPath, g, truncated, reasons);
    StepsNext(cfg, facts, func, g.log, path);
    ForksNext(cfg, g.log, path);
    MintNext(cfg, g.log, path);
    VisitCosts(cfg, func, Remembered(cfg, facts, func, g.log), path, incoming, item);
    MintCosts(cfg, Minting(g.ids, nextPath), path, item.block);
  }

  lemma VisitCosts(
      cfg: Cfg, func: nat, m: Memory, path: Path, incoming: map<nat, StateView>, item: Item)
    requires End(cfg, path) == Some(item.block) && item.block < |cfg.blocks| && incoming == m.recorded
    requires item.state == Arriving(cfg, func, m.left, path) && item.state.currentBlock == item.block
    ensures VisitSteps(cfg, func, m, path) == BlockSteps(cfg.blocks[item.block], incoming, item)
  {
    hide Arriving, Merged, End;
    assert At(item) == item.state;
  }

  lemma MintCosts(cfg: Cfg, m: Minting, path: Path, b: nat)
    requires End(cfg, path) == Some(b) && b < |cfg.blocks| && path in m.ids
    ensures IsForkAt(cfg, path) == IsFork(cfg.blocks[b].terminator)
    ensures var block := cfg.blocks[b];
            Mint(cfg, m, path).next ==
            m.next + if IsFork(block.terminator) && block.successors != [] then |block.successors| - 1 else 0
  {
    hide End, LabelChildren;
  }

  lemma TakenExpand(
      cfg: Cfg, facts: seq<AssignmentFact>, func: nat, limits: TraceLimits, rest: seq<Item>, item: Item,
      visits: map<(nat, nat), nat>, incoming: map<nat, StateView>, nextPath: nat, g: Search,
      truncated: bool, incomplete: seq<string>, labels: seq<nat>, branches: nat, spent: nat, steps: nat,
      reasons: seq<string>)
    requires SearchOk(cfg, facts, limits, rest + [item], visits, incoming, nextPath, g, truncated, incomplete)
    requires Follows(cfg, facts, func, limits, rest + [item], visits, incoming, nextPath, g)
    requires item.block < |cfg.blocks| && Taken(cfg, facts, func, limits, g, branches, steps, reasons)
    requires var block := cfg.blocks[item.block];
             if block.terminator.BranchEnd? || block.terminator.TryForkEnd?
             then spent == (if branches == U32_MAX then 0 else branches + 1) <= limits.maxBranches
             else spent == branches
    requires branches <= U32_MAX && (limits.maxBranches < U32_MAX ==> branches <= limits.maxBranches)
    ensures Taken(cfg, facts, func, limits, Advance(g, |rest|, item.block, labels), spent,
                  steps + BlockSteps(cfg.blocks[item.block], incoming, item), reasons)
  {
    hide SearchOk, Follows, StepsFor, ForksIn, BlockSteps, IsForkAt, RefusedPath, Children, LabelChildren, Minted, Ids,
         Recorded;
    QueuesMatch(cfg, facts, func, limits, rest + [item], visits, incoming, nextPath, g);
    VisitTakes(cfg, facts, func, limits, rest, item, visits, incoming, nextPath, g, truncated, incomplete);
    if RefusedPath(g) {
      RefusedAdvances(cfg, facts, limits, rest, item, visits, incoming, nextPath, g, truncated, incomplete, labels);
    }
  }

  lemma RefusedAdvances(
      cfg: Cfg, facts: seq<AssignmentFact>, limits: TraceLimits, rest: seq<Item>, item: Item,
      visits: map<(nat, nat), nat>, incoming: map<nat, StateView>, nextPath: nat, g: Search,
      truncated: bool, incomplete: seq<string>, labels: seq<nat>)
    requires SearchOk(cfg, facts, limits, rest + [item], visits, incoming, nextPath, g, truncated, incomplete)
    requires RefusedPath(g)
    ensures RefusedPath(Advance(g, |rest|, item.block, labels))
  {
    hide DoneOk, Swept, SeenOk, NothingLost, ForksApart, LabelChildren;
    var p :| p in g.ids && p !in g.log && p !in g.pending;
    var path, pending := g.pending[|rest|], g.pending[..|rest|];
    PopQueue(cfg, facts, rest, item, g.pending, g.ids);
    ChildrenAreNew(cfg, pending, path, Elements(g.log), g.ids, nextPath, labels);
    var g' := Advance(g, |rest|, item.block, labels);
    assert path in g.pending && forall q :: q in pending ==> q in g.pending;
    forall i | 0 <= i < |labels|
      ensures Children(path, |labels|)[i] != p
    {
      assert Children(path, |labels|)[i] == path + [i];
    }
    assert p in g'.ids && p !in g'.log && p !in g'.pending;
  }

  lemma AbandonIsEarned(
      cfg: Cfg, facts: seq<AssignmentFact>, func: nat, limits: TraceLimits, rest: seq<Item>, item: Item,
      visits: map<(nat, nat), nat>, incoming: map<nat, StateView>, nextPath: nat, g: Search,
      truncated: bool, incomplete: seq<string>, branches: nat, steps: nat, reasons: seq<string>, steps': nat,
      reasons': seq<string>)
    requires SearchOk(cfg, facts, limits, rest + [item], visits, incoming, nextPath, g, truncated, incomplete)
    requires Follows(cfg, facts, func, limits, rest + [item], visits, incoming, nextPath, g)
    requires VisitCount(visits, (item.block, item.path)) < limits.maxLoopIters
    requires item.block < |cfg.blocks| && Taken(cfg, facts, func, limits, g, branches, steps, reasons)
    requires forall r :: r in reasons' ==>
               || r in reasons
               || GaveUp(cfg, limits, cfg.blocks[item.block],
                         steps + BlockSteps(cfg.blocks[item.block], incoming, item), branches, nextPath, steps', r)
    ensures forall r :: r in reasons' ==>
              Earned(cfg, facts, func, limits, g.log + [g.pending[|rest|]], steps', r)
  {
    hide SearchOk, Follows, StepsFor, ForksIn, BlockSteps, IsForkAt, LoopRefused, Minted, RefusedPath, VisitCount;
    QueuesMatch(cfg, facts, func, limits, rest + [item], visits, incoming, nextPath, g);
    VisitTakes(cfg, facts, func, limits, rest, item, visits, incoming, nextPath, g, truncated, incomplete);
    AbandonIsUnderway(cfg, facts, func, limits, rest, item, visits, incoming, nextPath, g, truncated, incomplete);
  }

  /** One visit to a block, with what it means for the search. */
  method ExpandStep(
      cfg: Cfg, facts: seq<AssignmentFact>, limits: TraceLimits, func: nat, rest: seq<Item>, item: Item,
      visits: map<(nat, nat), nat>, incoming: map<nat, StateView>, nextPath: u32, branches: u32,
      ghost g: Search, count: nat, trace: RawTrace)
    returns (ok: bool, worklist: seq<Item>, after: map<nat, StateView>, next: u32, spent: u32,
             ghost g': Search, ghost log: seq<Path>)
    requires item.block < |cfg.blocks| && count == VisitCount(visits, (item.block, item.path)) + 1
    requires count <= limits.maxLoopIters
    requires trace.Valid() && |trace.steps| <= limits.maxSteps && Owned(trace.steps, func)
    requires WithinBranches(limits, trace.steps, branches)
    requires Taken(cfg, facts, func, limits, g, branches, |trace.steps|, trace.truncationReasons)
    requires SearchOk(cfg, facts, limits, rest + [item], visits, incoming, nextPath, g,
                      trace.truncated, trace.incompleteReasons)
    requires Follows(cfg, facts, func, limits, rest + [item], visits, incoming, nextPath, g)
    requires Listing(trace.steps) == Replay(cfg, g.ids, g.log)
    modifies trace`steps, trace`truncated, trace`truncationReasons
    ensures trace.Valid() && |trace.steps| <= limits.maxSteps
    ensures old(trace.steps) <= trace.steps && Owned(trace.steps, func)
    ensures WithinBranches(limits, trace.steps, if ok then spent else limits.maxBranches)
    ensures ok ==>
      && next >= nextPath
      && SearchOk(cfg, facts, limits, worklist, visits[(item.block, item.path) := count], after, next, g',
                  trace.truncated, trace.incompleteReasons)
      && Follows(cfg, facts, func, limits, worklist, visits[(item.block, item.path) := count], after, next, g')
      && Listing(trace.steps) == Replay(cfg, g'.ids, g'.log)
      && g.log <= g'.log
      && Taken(cfg, facts, func, limits, g', spent, |trace.steps|, trace.truncationReasons)
    ensures !ok ==>
      && trace.truncated && StoppedShort(trace.truncationReasons) && g.log <= log
      && (forall r :: r in trace.truncationReasons ==> Earned(cfg, facts, func, limits, log, |trace.steps|, r))
      && Explored(cfg, facts, func, limits.maxLoopIters, log, trace.steps, trace.incompleteReasons)
      && after == Recorded(cfg, facts, func, log)
  {
    hide SearchOk, Follows, Explored, Recorded, Taken, Earned, GaveUp, BlockSteps, Replay, Listing, Splits, Arrived,
         Pushed, BlockRows, VisitCount, Ids;
    QueuesMatch(cfg, facts, func, limits, rest + [item], visits, incoming, nextPath, g);
    ghost var state, labels;
    ghost var path, wasTruncated := g.pending[|rest|], trace.truncated;
    ghost var before, reasons := |trace.steps|, trace.truncationReasons;
    ok, worklist, after, next, spent, state, labels :=
      ExpandBlock(cfg, facts, limits, func, rest, item, incoming, nextPath, branches, trace);
    log, g' := g.log + [path], g;
    if ok {
      g' := Advance(g, |rest|, item.block, labels);
      VisitKeeps(cfg, facts, func, limits, rest, item, visits, incoming, nextPath, g, wasTruncated,
                 trace.incompleteReasons, count, after, state, labels, next);
      TakenExpand(cfg, facts, func, limits, rest, item, visits, incoming, nextPath, g, wasTruncated,
                  trace.incompleteReasons, labels, branches, spent, before, reasons);
    } else {
      Abandon(cfg, facts, func, limits, rest, item, visits, incoming, nextPath, g, wasTruncated,
              trace.incompleteReasons, after, state, trace.steps);
      AbandonIsEarned(cfg, facts, func, limits, rest, item, visits, incoming, nextPath, g, wasTruncated,
                      trace.incompleteReasons, branches, before, reasons, |trace.steps|, trace.truncationReasons);
    }
  }

  /** A finished visit keeps both invariants, and replays. */
  lemma VisitKeeps(
      cfg: Cfg, facts: seq<AssignmentFact>, func: nat, limits: TraceLimits, rest: seq<Item>, item: Item,
      visits: map<(nat, nat), nat>, incoming: map<nat, StateView>, nextPath: nat, g: Search,
      truncated: bool, reasons: seq<string>, count: nat, after: map<nat, StateView>, state: StateView,
      labels: seq<nat>, next: nat)
    requires SearchOk(cfg, facts, limits, rest + [item], visits, incoming, nextPath, g, truncated, reasons)
    requires Follows(cfg, facts, func, limits, rest + [item], visits, incoming, nextPath, g)
    requires count == VisitCount(visits, (item.block, item.path)) + 1 <= limits.maxLoopIters
    requires item.block < |cfg.blocks| && |labels| == |Successors(cfg, item.block)|
    requires Arrived(incoming, item, after, state)
    requires if cfg.blocks[item.block].terminator.BranchEnd? || cfg.blocks[item.block].terminator.TryForkEnd?
             then FreshLabels(labels, item.path, nextPath, next)
             else labels == Repeated(item.path, |labels|) && next == nextPath
    ensures SearchOk(cfg, facts, limits, rest + Pushed(cfg, facts, item.block, state, labels),
                     visits[(item.block, item.path) := count], after, next,
                     Advance(g, |rest|, item.block, labels), truncated, reasons)
    ensures Follows(cfg, facts, func, limits, rest + Pushed(cfg, facts, item.block, state, labels),
                    visits[(item.block, item.path) := count], after, next, Advance(g, |rest|, item.block, labels))
    ensures var g' := Advance(g, |rest|, item.block, labels);
            Replay(cfg, g'.ids, g'.log)
            == Replay(cfg, g.ids, g.log) + BlockRows(cfg.blocks[item.block], item.path)
  {
    hide Follows, SearchOk, Arrived, Pushed, Replay, BlockRows, VisitCount, LabelsOk, Remembered, Arriving, Sent,
         LabelChildren, FreshLabels, Repeated, Ids, Recorded;
    QueuesMatch(cfg, facts, func, limits, rest + [item], visits, incoming, nextPath, g);
    var path := g.pending[|rest|];
    TopOfStack(cfg, facts, func, limits, rest, item, visits, incoming, nextPath, g, truncated, reasons);
    SearchIsLabelled(cfg, facts, limits, rest + [item], visits, incoming, nextPath, g, truncated, reasons);
    Expand(cfg, facts, limits, rest, item, visits, incoming, nextPath, g, truncated, reasons, count, after, state,
           labels, next);
    FollowExpand(cfg, facts, func, limits, rest, item, visits, incoming, nextPath, g, truncated, reasons, after, state,
                 labels, next);
    ReplayStep(cfg, g.ids, g.log, path, item.block);
    ReplayAdvance(cfg, g.pending[..|rest|], path, g.log, g.ids, nextPath, labels);
  }

  lemma DropRefuses(
      cfg: Cfg, facts: seq<AssignmentFact>, limits: TraceLimits, rest: seq<Item>, item: Item,
      visits: map<(nat, nat), nat>, incoming: map<nat, StateView>, nextPath: nat, g: Search,
      truncated: bool, incomplete: seq<string>)
    requires SearchOk(cfg, facts, limits, rest + [item], visits, incoming, nextPath, g, truncated, incomplete)
    ensures RefusedPath(g.(pending := g.pending[..|rest|]))
  {
    var path := g.pending[|rest|];
    assert path in g.ids && path !in Elements(g.log) && path !in g.pending[..|rest|];
  }

  /** A visit the loop budget refuses. */
  method DropStep(
      cfg: Cfg, facts: seq<AssignmentFact>, limits: TraceLimits, ghost func: nat, rest: seq<Item>, item: Item,
      visits: map<(nat, nat), nat>, ghost incoming: map<nat, StateView>, nextPath: u32, ghost g: Search,
      trace: RawTrace)
    returns (visits': map<(nat, nat), nat>, ghost g': Search)
    requires trace.Valid() && VisitCount(visits, (item.block, item.path)) >= limits.maxLoopIters
    requires SearchOk(cfg, facts, limits, rest + [item], visits, incoming, nextPath, g,
                      trace.truncated, trace.incompleteReasons)
    requires Follows(cfg, facts, func, limits, rest + [item], visits, incoming, nextPath, g)
    modifies trace`truncated, trace`truncationReasons
    ensures trace.Valid()
    ensures SearchOk(cfg, facts, limits, rest, visits', incoming, nextPath, g',
                     trace.truncated, trace.incompleteReasons)
    ensures Follows(cfg, facts, func, limits, rest, visits', incoming, nextPath, g')
    ensures g'.ids == g.ids && g'.log == g.log && RefusedPath(g')
    ensures forall r :: r in trace.truncationReasons ==> r in old(trace.truncationReasons) || r == MAX_LOOP_ITERS
    ensures VisitsLeft(cfg, nextPath, visits', limits.maxLoopIters)
            == VisitsLeft(cfg, nextPath, visits, limits.maxLoopIters)
  {
    hide Follows, RefusedPath;
    var key := (item.block, item.path);
    visits' := visits[key := VisitCount(visits, key)];
    assert forall k :: VisitCount(visits', k) == VisitCount(visits, k);
    DropCapped(cfg, facts, limits, rest, item, visits, incoming, nextPath, g, trace.truncated,
               trace.incompleteReasons, visits');
    FollowDrop(cfg, facts, func, limits, rest, item, visits, incoming, nextPath, g, visits');
    g' := g.(pending := g.pending[..|rest|]);
    DropRefuses(cfg, facts, limits, rest, item, visits, incoming, nextPath, g, trace.truncated,
                trace.incompleteReasons);
    trace.MarkTruncated(MAX_LOOP_ITERS);
  }

  /** The reason names a block the graph lacks, at the end of a path entered. */
  ghost predicate ReportsMissing(cfg: Cfg, log: seq<Path>, r: string) {
    exists p :: && p in log && End(cfg, p).Some? && End(cfg, p).value >= |cfg.blocks|
                && r == MissingBlock(End(cfg, p).value)
  }

  lemma MissingTakesNothing(
      cfg: Cfg, facts: seq<AssignmentFact>, func: nat, limits: TraceLimits, rest: seq<Item>, item: Item,
      visits: map<(nat, nat), nat>, incoming: map<nat, StateView>, nextPath: nat, g: Search,
      truncated: bool, incomplete: seq<string>)
    requires SearchOk(cfg, facts, limits, rest + [item], visits, incoming, nextPath, g, truncated, incomplete)
    requires Follows(cfg, facts, func, limits, rest + [item], visits, incoming, nextPath, g)
    requires item.block >= |cfg.blocks|
    ensures var path, log := g.pending[|rest|], g.log + [g.pending[|rest|]];
            && StepsFor(cfg, facts, func, log) == StepsFor(cfg, facts, func, g.log)
            && |ForksIn(cfg, log)| == |ForksIn(cfg, g.log)| && ReportsMissing(cfg, log, MissingBlock(item.block))
            && (RefusedPath(g) ==>
                  RefusedPath(g.(pending := g.pending[..|rest|], log := log, seen := g.seen + {item.block})))
  {
    hide SearchOk, Ordered, Counted, Arriving, Sent, ForksIn, Remembered, MissingBlock;
    QueuesMatch(cfg, facts, func, limits, rest + [item], visits, incoming, nextPath, g);
    var path := g.pending[|rest|];
    TopOfStack(cfg, facts, func, limits, rest, item, visits, incoming, nextPath, g, truncated, incomplete);
    StepsNext(cfg, facts, func, g.log, path);
    ForksNext(cfg, g.log, path);
    assert path in g.log + [path];
    if RefusedPath(g) {
      var p :| p in g.ids && p !in g.log && p !in g.pending;
      assert path in g.pending && p != path;
      assert p !in g.log + [path] && p !in g.pending[..|rest|];
    }
  }

  /** A visit to a block the graph does not have. */
  method MissingStep(
      cfg: Cfg, facts: seq<AssignmentFact>, limits: TraceLimits, ghost func: nat, rest: seq<Item>, item: Item,
      ghost visits: map<(nat, nat), nat>, ghost incoming: map<nat, StateView>, nextPath: u32, ghost g: Search,
      ghost count: nat, trace: RawTrace)
    returns (ghost g': Search)
    requires trace.Valid() && item.block >= |cfg.blocks|
    requires count == VisitCount(visits, (item.block, item.path)) + 1 <= limits.maxLoopIters
    requires SearchOk(cfg, facts, limits, rest + [item], visits, incoming, nextPath, g,
                      trace.truncated, trace.incompleteReasons)
    requires Follows(cfg, facts, func, limits, rest + [item], visits, incoming, nextPath, g)
    modifies trace`incompleteReasons
    ensures trace.Valid() && old(trace.incompleteReasons) <= trace.incompleteReasons
    ensures SearchOk(cfg, facts, limits, rest, visits[(item.block, item.path) := count], incoming, nextPath, g',
                     trace.truncated, trace.incompleteReasons)
    ensures Follows(cfg, facts, func, limits, rest, visits[(item.block, item.path) := count], incoming, nextPath, g')
    ensures Replay(cfg, g'.ids, g'.log) == Replay(cfg, g.ids, g.log) && g.log <= g'.log
    ensures StepsFor(cfg, facts, func, g'.log) == StepsFor(cfg, facts, func, g.log)
    ensures |ForksIn(cfg, g'.log)| == |ForksIn(cfg, g.log)| && (RefusedPath(g) ==> RefusedPath(g'))
    ensures forall r :: r in trace.incompleteReasons ==>
              r in old(trace.incompleteReasons) || ReportsMissing(cfg, g'.log, r)
  {
    hide Follows, SearchOk, Replay, VisitCount, Ids, Recorded, RefusedPath, ReportsMissing, StepsFor, ForksIn;
    QueuesMatch(cfg, facts, func, limits, rest + [item], visits, incoming, nextPath, g);
    ghost var path := g.pending[|rest|];
    FollowMissing(cfg, facts, func, limits, rest, item, visits, incoming, nextPath, g, trace.truncated,
                  trace.incompleteReasons);
    MissingTakesNothing(cfg, facts, func, limits, rest, item, visits, incoming, nextPath, g, trace.truncated,
                        trace.incompleteReasons);
    trace.MarkIncomplete(MissingBlock(item.block));
    ReportMissing(cfg, facts, limits, rest, item, visits, incoming, nextPath, g, trace.truncated,
                  old(trace.incompleteReasons), count, trace.incompleteReasons);
    g' := g.(pending := g.pending[..|rest|], log := g.log + [path], seen := g.seen + {item.block});
  }

  /** A queued entry names a block and a path id of the graph's own. */
  lemma QueuedIsCounted(
      cfg: Cfg, facts: seq<AssignmentFact>, limits: TraceLimits, rest: seq<Item>, item: Item,
      visits: map<(nat, nat), nat>, incoming: map<nat, StateView>, nextPath: nat, g: Search,
      truncated: bool, reasons: seq<string>)
    requires SearchOk(cfg, facts, limits, rest + [item], visits, incoming, nextPath, g, truncated, reasons)
    requires VisitCount(visits, (item.block, item.path)) < limits.maxLoopIters
    ensures var key := (item.block, item.path);
            VisitsLeft(cfg, nextPath, visits[key := VisitCount(visits, key) + 1], limits.maxLoopIters)
            < VisitsLeft(cfg, nextPath, visits, limits.maxLoopIters)
  {
    PopQueue(cfg, facts, rest, item, g.pending, g.ids);
    EndIsBlockId(cfg, g.pending[|rest|]);
    VisitUsesBudget(cfg, nextPath, visits, limits.maxLoopIters, (item.block, item.path));
  }

  lemma MissingEntryIsAlone(cfg: Cfg)
    requires cfg.entry >= |cfg.blocks|
    ensures !ReachableCycle(cfg)
  {
    forall p | End(cfg, p).Some?
      ensures p in {[]}
    {
      if p != [] {
        var first := p[..1];
        assert first[..|first| - 1] == [];
        assert Walk(cfg, cfg.entry, []) == Some(cfg.entry);
        assert End(cfg, first).None?;
        PrefixWalks(cfg, p, 1);
      }
    }
    FinitePathsMeanNoCycle(cfg, {[]});
  }

  lemma NothingExplored(
      cfg: Cfg, facts: seq<AssignmentFact>, func: nat, limits: TraceLimits, reasons: seq<string>)
    ensures Explored(cfg, facts, func, limits.maxLoopIters, [], [], reasons)
    ensures limits.maxSteps == 0 ==> Earned(cfg, facts, func, limits, [], 0, MAX_STEPS)
    ensures forall r :: !ReportsMissing(cfg, [], r)
  {
  }

  /** Carry over what the graph itself leaves unanalysed. */
  method ReportIncomplete(cfg: Cfg, trace: RawTrace)
    requires trace.Valid() && trace.incompleteReasons == []
    modifies trace`incompleteReasons
    ensures trace.Valid()
    ensures forall r :: r in trace.incompleteReasons <==> Unanalysed(cfg, r)
  {
    for i := 0 to |cfg.incompleteReasons|
      invariant trace.Valid()
      invariant forall r :: r in trace.incompleteReasons <==> r != "" && r in cfg.incompleteReasons[..i]
    {
      assert cfg.incompleteReasons[..i + 1] == cfg.incompleteReasons[..i] + [cfg.incompleteReasons[i]];
      trace.MarkIncomplete(cfg.incompleteReasons[i]);
    }
    assert cfg.incompleteReasons[..|cfg.incompleteReasons|] == cfg.incompleteReasons;
    assert trace.incompleteReasons != [] ==> trace.incompleteReasons[0] in trace.incompleteReasons;
    if !cfg.analysisComplete && trace.incompleteReasons == [] {
      trace.MarkIncomplete("cfg-incomplete");
    }
  }

  /** What the graph says about its own gaps, or that there are some. */
  predicate Unanalysed(cfg: Cfg, r: string) {
    || (r != "" && r in cfg.incompleteReasons)
    || (r == "cfg-incomplete" && !cfg.analysisComplete && forall x :: x in cfg.incompleteReasons ==> x == "")
  }

  /** Run the interpreter from the entry of `cfg`.  `log` names the paths the run
      entered. */
  method RunEntry(func: nat, cfg: Cfg, limits: TraceLimits, facts: seq<AssignmentFact>)
    returns (trace: RawTrace, ghost log: seq<Path>)
    ensures trace.Valid()
    ensures |trace.steps| <= limits.maxSteps && Splits(trace.steps) <= limits.maxBranches
    ensures Owned(trace.steps, func)
    ensures trace.steps != [] ==>
      cfg.entry < |cfg.blocks| && trace.steps[0] == RawStep(0, 1, EnterFunction, cfg.blocks[cfg.entry].span, func)
    ensures forall r :: r in trace.incompleteReasons <==>
      || (r != "" && r in cfg.incompleteReasons)
      || (r == "cfg-incomplete" && !cfg.analysisComplete && forall x :: x in cfg.incompleteReasons ==> x == "")
      || (r == MISSING_ENTRY && cfg.entry >= |cfg.blocks|)
      || (cfg.entry < |cfg.blocks| && ReportsMissing(cfg, log, r))
    ensures cfg.entry >= |cfg.blocks| ==> trace.steps == [] && !trace.truncated && log == []
    ensures Explored(cfg, facts, func, limits.maxLoopIters, log, trace.steps, trace.incompleteReasons)
    ensures forall i, j :: 0 <= i < j < |log| ==>
      || (log[i] <= log[j] && log[i] != log[j])
      || exists n :: 0 <= n < |log[i]| && n < |log[j]| && log[i][..n] == log[j][..n] && log[i][n] > log[j][n]
    ensures forall r :: r in trace.truncationReasons ==> Earned(cfg, facts, func, limits, log, |trace.steps|, r)
    ensures cfg.entry < |cfg.blocks| ==>
      (!trace.truncated <==>
        exists whole :: Exhaustive(cfg, whole, limits.maxLoopIters) && Affords(cfg, facts, func, limits, whole))
    ensures cfg.entry < |cfg.blocks| && !trace.truncated ==>
              && (forall path :: End(cfg, path).Some? ==> path in log)
              && Sound(cfg, facts, Recorded(cfg, facts, func, log))
    ensures ReachableCycle(cfg) ==> trace.truncated
    ensures cfg.entry < |cfg.blocks| && !StoppedShort(trace.truncationReasons) ==>
              && Listing(trace.steps) == Replay(cfg, Ids(cfg, log), log)
              && |trace.steps| == StepsFor(cfg, facts, func, log)
              && Budgeted(cfg, log, limits.maxLoopIters)
              && (limits.maxLoopIters > 0 ==>
                    forall b :: Reachable(cfg, b) ==>
                      Visited(cfg, log, b) || MissingBlock(b) in trace.incompleteReasons)
  {
    hide Explored, Sound, Reachable, ReachableCycle, Replay, End, Visited, Budgeted, Recorded, Earned, Exhaustive,
         Affords, ReportsMissing, StepsFor;
    trace := new RawTrace();
    log := [];
    ReportIncomplete(cfg, trace);
    if cfg.entry >= |cfg.blocks| {
      trace.MarkIncomplete(MISSING_ENTRY);
      NothingExplored(cfg, facts, func, limits, trace.incompleteReasons);
      MissingEntryIsAlone(cfg);
      return;
    }
    var ok := trace.Emit(EnterFunction, 1, cfg.blocks[cfg.entry].span, func, limits.maxSteps);
    if !ok {
      NothingExplored(cfg, facts, func, limits, trace.incompleteReasons);
      TruncationIsExact(cfg, facts, func, limits, log, trace.steps, trace.truncationReasons, trace.incompleteReasons);
      return;
    }
    var incoming;
    ghost var gaps := trace.incompleteReasons;
    incoming, log := Explore(func, cfg, limits, facts, trace);
    assert forall r :: r in gaps ==> r in trace.incompleteReasons;
    SplitsBounded(trace.steps);
    MissingIsReported(cfg, facts, func, limits.maxLoopIters, log, trace.steps, trace.incompleteReasons);
    TruncationIsExact(cfg, facts, func, limits, log, trace.steps, trace.truncationReasons, trace.incompleteReasons);
  }

  /** Everything the run lists as missing is listed, and the log is in order. */
  lemma MissingIsReported(
      cfg: Cfg, facts: seq<AssignmentFact>, func: nat, maxIters: nat, log: seq<Path>, steps: seq<RawStep>,
      incomplete: seq<string>)
    requires Explored(cfg, facts, func, maxIters, log, steps, incomplete)
    ensures forall r :: ReportsMissing(cfg, log, r) ==> r in incomplete
  {
    hide Underway, ForksApart, Listing, Replay, Recorded, MissingBlock;
    forall p | p in log
      ensures Entered(cfg, facts, p, Recorded(cfg, facts, func, log), incomplete)
    {
      assert p in Elements(log);
    }
  }

  /** A run is untruncated if and only if the graph has finitely many paths and
      the budgets suffice for all of them. */
  lemma TruncationIsExact(
      cfg: Cfg, facts: seq<AssignmentFact>, func: nat, limits: TraceLimits, log: seq<Path>, steps: seq<RawStep>,
      reasons: seq<string>, incomplete: seq<string>)
    requires Explored(cfg, facts, func, limits.maxLoopIters, log, steps, incomplete)
    requires forall r :: r in reasons ==> Earned(cfg, facts, func, limits, log, |steps|, r)
    requires reasons == [] ==>
      && (forall path :: End(cfg, path).Some? ==> path in log)
      && Budgeted(cfg, log, limits.maxLoopIters) && Affords(cfg, facts, func, limits, log)
    ensures reasons == [] <==>
      exists whole :: Exhaustive(cfg, whole, limits.maxLoopIters) && Affords(cfg, facts, func, limits, whole)
    ensures Related(log, Sooner)
  {
    hide Affords, Listing, Replay, DoneOk, ForksApart, Earned, Budgeted, Ids;
    if reasons == [] {
      EnteredIsExhaustive(cfg, log, limits.maxLoopIters);
    } else {
      forall whole | Exhaustive(cfg, whole, limits.maxLoopIters) && Affords(cfg, facts, func, limits, whole)
        ensures false
      {
        assert reasons[0] in reasons;
        AffordedIsNotEarned(cfg, facts, func, limits, log, whole, |steps|, reasons[0]);
      }
    }
  }

  /** `whole` is all the paths of the graph, in visiting order. */
  ghost predicate ListsAll(cfg: Cfg, whole: seq<Path>) {
    Related(whole, Sooner) && forall p :: p in whole <==> End(cfg, p).Some?
  }

  /** In terms of the graph: a run is untruncated if and only if no cycle is
      reachable and the replay of all paths fits every budget. */
  lemma UncutExactlyWhen(cfg: Cfg, facts: seq<AssignmentFact>, func: nat, limits: TraceLimits)
    ensures (exists whole :: Exhaustive(cfg, whole, limits.maxLoopIters) && Affords(cfg, facts, func, limits, whole))
            <==>
            && !ReachableCycle(cfg)
            && forall whole :: ListsAll(cfg, whole) ==>
                 Exhaustive(cfg, whole, limits.maxLoopIters) && Affords(cfg, facts, func, limits, whole)
  {
    hide Affords, ReachableCycle, Rivals, Ids, Sooner, End;
    if !ReachableCycle(cfg) {
      var whole := AcyclicIsListed(cfg);
      assert ListsAll(cfg, whole);
    }
    forall whole | Exhaustive(cfg, whole, limits.maxLoopIters)
      ensures !ReachableCycle(cfg) && forall other :: ListsAll(cfg, other) ==> other == whole
    {
      FinitePathsMeanNoCycle(cfg, Elements(whole));
      forall other | ListsAll(cfg, other)
        ensures other == whole
      {
        assert Elements(other) == Elements(whole);
        LogIsDetermined(other, whole);
      }
    }
  }

  lemma EnteredIsExhaustive(cfg: Cfg, log: seq<Path>, maxIters: nat)
    requires Underway(cfg, log, maxIters) && Budgeted(cfg, log, maxIters)
    requires forall path :: End(cfg, path).Some? ==> path in log
    ensures Exhaustive(cfg, log, maxIters)
  {
    hide Ids, Sooner, Rivals;
    forall p | p in log
      ensures End(cfg, p).Some?
    {
      assert p in Elements(log);
      KnownArePaths(cfg, log, p);
    }
  }

  /** Budgets that suffice for all paths are not exceeded on the way. */
  lemma AffordedIsNotEarned(
      cfg: Cfg, facts: seq<AssignmentFact>, func: nat, limits: TraceLimits, log: seq<Path>, whole: seq<Path>,
      steps: nat, r: string)
    requires Underway(cfg, log, limits.maxLoopIters) && Exhaustive(cfg, whole, limits.maxLoopIters)
    requires Affords(cfg, facts, func, limits, whole)
    ensures !Earned(cfg, facts, func, limits, log, steps, r)
  {
    hide Ids, Sooner, Rivals, StepsFor, ForksIn, Minted, End;
    ExhaustiveIsComplete(cfg, whole, limits.maxLoopIters);
    RunIsPrefix(cfg, log, whole, limits.maxLoopIters);
    PrefixTakesLess(cfg, facts, func, log, whole);
    forall p | p in Ids(cfg, log) && |Rivals(cfg, Ids(cfg, log), log, p)| >= limits.maxLoopIters
      ensures p !in whole && End(cfg, p).Some?
    {
      KnownArePaths(cfg, log, p);
      RefusalStands(cfg, log, whole, p);
    }
  }

  /** The worklist loop.  It ends on every graph: a fork mints path ids, which
      are bounded; any other visit uses up a visit allowed over the ids minted
      so far; a dropped visit shortens the queue. */
  method Explore(func: nat, cfg: Cfg, limits: TraceLimits, facts: seq<AssignmentFact>, trace: RawTrace)
    returns (incoming: map<nat, StateView>, ghost log: seq<Path>)
    requires trace.Valid() && |trace.steps| == 1 <= limits.maxSteps && !trace.truncated && Owned(trace.steps, func)
    requires Listing(trace.steps) == [] && Splits(trace.steps) == 0
    modifies trace
    ensures trace.Valid() && old(trace.steps) <= trace.steps && Owned(trace.steps, func)
    ensures |trace.steps| <= limits.maxSteps && WithinBranches(limits, trace.steps, limits.maxBranches)
    ensures old(trace.incompleteReasons) <= trace.incompleteReasons
    ensures forall r :: r in trace.incompleteReasons ==>
              r in old(trace.incompleteReasons) || ReportsMissing(cfg, log, r)
    ensures forall r :: r in trace.truncationReasons ==> Earned(cfg, facts, func, limits, log, |trace.steps|, r)
    ensures Explored(cfg, facts, func, limits.maxLoopIters, log, trace.steps, trace.incompleteReasons)
    ensures incoming == Recorded(cfg, facts, func, log)
    ensures !trace.truncated ==>
      && (forall path :: End(cfg, path).Some? ==> path in log)
      && Sound(cfg, facts, incoming) && !ReachableCycle(cfg)
    ensures !StoppedShort(trace.truncationReasons) ==>
      && Listing(trace.steps) == Replay(cfg, Ids(cfg, log), log)
      && Budgeted(cfg, log, limits.maxLoopIters)
      && |trace.steps| == StepsFor(cfg, facts, func, log) && Affords(cfg, facts, func, limits, log)
      && (limits.maxLoopIters > 0 ==>
            forall b :: Reachable(cfg, b) ==> Visited(cfg, log, b) || MissingBlock(b) in trace.incompleteReasons)
  {
    hide SearchOk, Follows, Explored, VisitsLeft, Sound, Reachable, ReachableCycle, Replay, Listing, Visited, Budgeted,
         Recorded, Earned, RefusedPath, ReportsMissing, ForksIn, StepsFor;
    var worklist := [Item(cfg.entry, 1, EmptyState(func, cfg.entry))];
    var visits: map<(nat, nat), nat> := map[];
    incoming := map[];
    var branches: u32 := 0;
    var nextPath: u32 := 1;
    ghost var g := Search([[]], [], map[[] := 1], {});
    SearchStarts(cfg, facts, limits, func, trace.incompleteReasons);
    FollowStarts(cfg, facts, func, limits);
    NothingTaken(cfg, facts, func);
    while worklist != []
      invariant trace.Valid() && |trace.steps| <= limits.maxSteps
      invariant old(trace.steps) <= trace.steps && Owned(trace.steps, func)
      invariant WithinBranches(limits, trace.steps, branches)
      invariant old(trace.incompleteReasons) <= trace.incompleteReasons
      invariant forall r :: r in trace.incompleteReasons ==>
                  r in old(trace.incompleteReasons) || ReportsMissing(cfg, g.log, r)
      invariant Taken(cfg, facts, func, limits, g, branches, |trace.steps|, trace.truncationReasons)
      invariant Listing(trace.steps) == Replay(cfg, g.ids, g.log)
      invariant SearchOk(cfg, facts, limits, worklist, visits, incoming, nextPath, g,
                         trace.truncated, trace.incompleteReasons)
      invariant Follows(cfg, facts, func, limits, worklist, visits, incoming, nextPath, g)
      decreases U32_MAX - nextPath, VisitsLeft(cfg, nextPath, visits, limits.maxLoopIters), |worklist|
    {
      var item, rest := worklist[|worklist| - 1], worklist[..|worklist| - 1];
      assert worklist == rest + [item];
      var key := (item.block, item.path);
      var count := VisitCount(visits, key);
      if count >= limits.maxLoopIters {
        visits, g := DropStep(cfg, facts, limits, func, rest, item, visits, incoming, nextPath, g, trace);
        worklist := rest;
        continue;
      }
      QueuedIsCounted(cfg, facts, limits, rest, item, visits, incoming, nextPath, g,
                      trace.truncated, trace.incompleteReasons);
      ghost var was := g.log;
      if item.block >= |cfg.blocks| {
        g := MissingStep(cfg, facts, limits, func, rest, item, visits, incoming, nextPath, g, count + 1, trace);
        worklist, visits := rest, visits[key := count + 1];
        MissingStays(cfg, was, g.log);
        continue;
      }
      var ok, next;
      ok, worklist, incoming, next, branches, g, log :=
        ExpandStep(cfg, facts, limits, func, rest, item, visits, incoming, nextPath, branches, g, count + 1, trace);
      if !ok {
        MissingStays(cfg, was, log);
        return;
      }
      MissingStays(cfg, was, g.log);
      visits, nextPath := visits[key := count + 1], next;
    }
    Exhausted(cfg, facts, func, limits, visits, incoming, nextPath, g, trace.truncated, trace.incompleteReasons,
              trace.steps);
    log := g.log;
    QueuesMatch(cfg, facts, func, limits, worklist, visits, incoming, nextPath, g);
    SettledIsEarned(cfg, facts, func, limits, worklist, visits, incoming, nextPath, g, branches, |trace.steps|,
                    trace.truncationReasons);
  }

  lemma NothingTaken(cfg: Cfg, facts: seq<AssignmentFact>, func: nat)
    ensures StepsFor(cfg, facts, func, []) == 1 && ForksIn(cfg, []) == {}
  {
  }

  lemma MissingStays(cfg: Cfg, log: seq<Path>, more: seq<Path>)
    requires log <= more
    ensures forall r :: ReportsMissing(cfg, log, r) ==> ReportsMissing(cfg, more, r)
  {
    assert forall p :: p in log ==> p in more;
  }

  lemma SettledIsEarned(
      cfg: Cfg, facts: seq<AssignmentFact>, func: nat, limits: TraceLimits, worklist: seq<Item>,
      visits: map<(nat, nat), nat>, incoming: map<nat, StateView>, nextPath: nat, g: Search, branches: nat, steps: nat,
      reasons: seq<string>)
    requires Follows(cfg, facts, func, limits, worklist, visits, incoming, nextPath, g)
    requires Taken(cfg, facts, func, limits, g, branches, steps, reasons)
    requires steps <= limits.maxSteps && nextPath <= U32_MAX
    requires limits.maxBranches < U32_MAX ==> branches <= limits.maxBranches
    requires RefusedPath(g) ==> LoopRefused(cfg, g.log, limits.maxLoopIters)
    requires limits.maxBranches <= U32_MAX
    ensures Affords(cfg, facts, func, limits, g.log)
    ensures forall r :: r in reasons ==> Earned(cfg, facts, func, limits, g.log, steps, r)
  {
  }

  /** The budgets other than the loop budget decide only how far a run gets: any
      two runs they did not stop entered the same paths in the same order,
      recorded the same states and list the same rows. */
  lemma RunsAgree(
      cfg: Cfg, facts: seq<AssignmentFact>, func: nat, maxIters: nat, a: seq<Path>, steps: seq<RawStep>,
      reasons: seq<string>, b: seq<Path>, steps': seq<RawStep>, reasons': seq<string>)
    requires Explored(cfg, facts, func, maxIters, a, steps, reasons)
    requires Explored(cfg, facts, func, maxIters, b, steps', reasons')
    requires Budgeted(cfg, a, maxIters) && Budgeted(cfg, b, maxIters)
    requires Listing(steps) == Replay(cfg, Ids(cfg, a), a) && Listing(steps') == Replay(cfg, Ids(cfg, b), b)
    ensures a == b && Recorded(cfg, facts, func, a) == Recorded(cfg, facts, func, b)
    ensures Listing(steps) == Listing(steps')
  {
    hide Budgeted, Ids, Replay, Listing, DoneOk, Recorded;
    RunIsDetermined(cfg, a, b, maxIters);
  }
}
