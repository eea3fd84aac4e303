/** Control-flow graphs: paths through them, what running a path does to the
    named locals, and the abstract transfer that follows it. */
module ControlFlow {
  import opened Prelude
  import opened AbstractValues
  import opened ExecStates
  import opened FlowEvents

  datatype Terminator =
    | FallthroughEnd | BranchEnd | LoopHeaderEnd | TryForkEnd | ReturnEnd | ThrowEnd
    | BreakEnd | ContinueEnd | UnreachableEnd

  datatype BasicBlock = BasicBlock(
    events: seq<FlowEvent>, successors: seq<nat>, terminator: Terminator, span: Span)

  datatype Cfg = Cfg(
    analysisComplete: bool, incompleteReasons: seq<string>, entry: nat, blocks: seq<BasicBlock>)

  // ---------------------------------------------------------------- paths

  /** A path from the entry, as the successor index taken at each block. */
  type Path = seq<nat>

  /** The blocks control may move to from `b`: none when `b` is missing or ends
      unreachable. */
  function Successors(cfg: Cfg, b: nat): seq<nat> {
    if b < |cfg.blocks| && !cfg.blocks[b].terminator.UnreachableEnd?
    then cfg.blocks[b].successors else []
  }

  predicate IsFork(t: Terminator) {
    t.BranchEnd? || t.TryForkEnd?
  }

  /** Where following `path` from block `b` arrives, if it can be followed. */
  function Walk(cfg: Cfg, b: nat, path: Path): Option<nat> {
    if path == [] then Some(b)
    else
      var at := Walk(cfg, b, path[..|path| - 1]);
      var i := path[|path| - 1];
      if at.Some? && i < |Successors(cfg, at.value)| then Some(Successors(cfg, at.value)[i]) else None
  }

  function End(cfg: Cfg, path: Path): Option<nat> {
    Walk(cfg, cfg.entry, path)
  }

  ghost predicate Reachable(cfg: Cfg, b: nat) {
    exists path :: End(cfg, path) == Some(b)
  }

  /** Some reachable block can be reached again from itself. */
  ghost predicate ReachableCycle(cfg: Cfg) {
    exists path, loop ::
      loop != [] && End(cfg, path).Some? && End(cfg, path + loop) == End(cfg, path)
  }

  lemma {:induction false} WalkAppend(cfg: Cfg, b: nat, p: Path, q: Path)
    ensures Walk(cfg, b, p + q) ==
            if Walk(cfg, b, p).Some? then Walk(cfg, Walk(cfg, b, p).value, q) else None
    decreases |q|
  {
    if q == [] {
      assert p + q == p;
    } else {
      var init := q[..|q| - 1];
      WalkAppend(cfg, b, p, init);
      assert (p + q)[..|p + q| - 1] == p + init;
    }
  }

  lemma PrefixWalks(cfg: Cfg, path: Path, n: nat)
    requires End(cfg, path).Some? && n <= |path|
    ensures End(cfg, path[..n]).Some?
  {
    WalkAppend(cfg, cfg.entry, path[..n], path[n..]);
    assert path[..n] + path[n..] == path;
  }

  lemma EndOfChild(cfg: Cfg, path: Path, i: nat)
    requires End(cfg, path).Some?
    ensures var after := Successors(cfg, End(cfg, path).value);
            End(cfg, path + [i]) == if i < |after| then Some(after[i]) else None
  {
  }

  /** A reachable cycle makes arbitrarily long paths. */
  lemma {:induction false} CyclePumps(cfg: Cfg, path: Path, loop: Path, n: nat) returns (long: Path)
    requires loop != [] && End(cfg, path).Some? && End(cfg, path + loop) == End(cfg, path)
    ensures |long| >= n && End(cfg, long) == End(cfg, path)
  {
    if n == 0 {
      long := path;
    } else {
      var shorter := CyclePumps(cfg, path, loop, n - 1);
      WalkAppend(cfg, cfg.entry, path, loop);
      WalkAppend(cfg, cfg.entry, shorter, loop);
      long := shorter + loop;
    }
  }

  lemma {:induction false} LongestPath(paths: set<Path>) returns (bound: nat)
    ensures forall p :: p in paths ==> |p| < bound
  {
    if paths == {} {
      bound := 0;
    } else {
      var p :| p in paths;
      var rest := LongestPath(paths - {p});
      bound := if |p| < rest then rest else |p| + 1;
    }
  }

  /** No finite set of paths holds every path of a cyclic graph. */
  lemma FinitePathsMeanNoCycle(cfg: Cfg, paths: set<Path>)
    requires forall p :: End(cfg, p).Some? ==> p in paths
    ensures !ReachableCycle(cfg)
  {
    if ReachableCycle(cfg) {
      var path, loop :|
        loop != [] && End(cfg, path).Some? && End(cfg, path + loop) == End(cfg, path);
      var bound := LongestPath(paths);
      var long := CyclePumps(cfg, path, loop, bound);
    }
  }

  // ------------------------------------------------------ assignment facts

  datatype Scalar =
    | StringScalar(s: Text) | BooleanScalar(b: bool) | IntegerScalar(i: int) | NullScalar

  datatype AssignmentFact = AssignmentFact(
    assignmentSpan: Span, factTarget: Option<string>, staticValue: Option<Scalar>)

  predicate SpanBefore(a: Span, b: Span) {
    || a.file < b.file
    || (a.file == b.file && (a.start < b.start || (a.start == b.start && a.end < b.end)))
  }

  /** The first position whose span is not before `span`. */
  function PartitionPoint(facts: seq<AssignmentFact>, span: Span): nat {
    if facts == [] || !SpanBefore(facts[0].assignmentSpan, span) then 0
    else 1 + PartitionPoint(facts[1..], span)
  }

  function FactForSpan(facts: seq<AssignmentFact>, span: Span): Option<AssignmentFact> {
    var k := PartitionPoint(facts, span);
    if k < |facts| && facts[k].assignmentSpan == span then Some(facts[k]) else None
  }

  /** On the sorted table the front end emits, the lookup is exact. */
  lemma {:induction false} FactLookupIsExact(facts: seq<AssignmentFact>, span: Span)
    requires forall i, j :: 0 <= i < j < |facts| ==>
               !SpanBefore(facts[j].assignmentSpan, facts[i].assignmentSpan)
    ensures FactForSpan(facts, span).Some? <==> exists f :: f in facts && f.assignmentSpan == span
    ensures FactForSpan(facts, span).Some? ==>
              && FactForSpan(facts, span).value in facts
              && FactForSpan(facts, span).value.assignmentSpan == span
  {
    if facts != [] && SpanBefore(facts[0].assignmentSpan, span) {
      FactLookupIsExact(facts[1..], span);
      assert FactForSpan(facts, span) == FactForSpan(facts[1..], span);
      assert forall f :: f in facts <==> f == facts[0] || f in facts[1..];
    } else if facts != [] && facts[0].assignmentSpan != span {
      assert SpanBefore(span, facts[0].assignmentSpan);
    }
  }

  /** The literal an assignment is known to store: its fact must name the same
      target. */
  function ScalarFor(facts: seq<AssignmentFact>, e: FlowEvent): Option<Scalar>
    requires e.Assign?
  {
    var fact := FactForSpan(facts, e.span);
    if fact.Some? && fact.value.factTarget == Some(e.target) then fact.value.staticValue else None
  }

  // ---------------------------------------------------- abstract transfer

  function AbstractScalar(x: Scalar): AbstractValue {
    match x
    case IntegerScalar(i) => ConstInt(i)
    case BooleanScalar(b) => ConstBool(b)
    case StringScalar(s) => ConstString(s)
    case NullScalar => Null
  }

  function AssignedValue(s: StateView, e: FlowEvent, facts: seq<AssignmentFact>): AbstractValue
    requires e.Assign?
  {
    var scalar := ScalarFor(facts, e);
    if scalar.Some? then AbstractScalar(scalar.value)
    else if e.sourceCall.None? && e.sourceName.Some? && e.sourceName.value in s.locals
    then s.locals[e.sourceName.value]
    else Unknown
  }

  function Transfer(s: StateView, e: FlowEvent, facts: seq<AssignmentFact>): StateView {
    if e.Assign? then s.(locals := s.locals[e.target := AssignedValue(s, e, facts)]) else s
  }

  function TransferAll(s: StateView, events: seq<FlowEvent>, facts: seq<AssignmentFact>): StateView {
    if events == [] then s
    else Transfer(TransferAll(s, events[..|events| - 1], facts), events[|events| - 1], facts)
  }

  // ----------------------------------------------------- run-time semantics

  predicate ScalarIs(x: Scalar, c: Concrete) {
    match x
    case IntegerScalar(i) => c.CValue? && c.payload == PInt(i)
    case BooleanScalar(b) => c.CValue? && c.payload == PBool(b)
    case StringScalar(s) => c.CValue? && c.payload == PStr(s)
    case NullScalar => c.CNull?
  }

  /** The values an assignment may store: its literal, a copy of a bound name,
      or, for anything else, any value at all. */
  predicate MayStore(facts: seq<AssignmentFact>, e: FlowEvent, store: Store, v: Concrete)
    requires e.Assign?
  {
    var scalar := ScalarFor(facts, e);
    if scalar.Some? then ScalarIs(scalar.value, v)
    else
      e.sourceCall.None? && e.sourceName.Some? && e.sourceName.value in store ==>
        v == store[e.sourceName.value]
  }

  /** One event takes `before` to `after`; only assignments write locals. */
  ghost predicate EventStep(facts: seq<AssignmentFact>, e: FlowEvent, before: Store, after: Store) {
    if e.Assign? then
      && e.target in after && after == before[e.target := after[e.target]]
      && MayStore(facts, e, before, after[e.target])
    else after == before
  }

  ghost predicate Executes(facts: seq<AssignmentFact>, events: seq<FlowEvent>, before: Store, after: Store)
    decreases |events|
  {
    if events == [] then before == after
    else
      var init, last := events[..|events| - 1], events[|events| - 1];
      exists mid: Store :: Executes(facts, init, before, mid) && EventStep(facts, last, mid, after)
  }

  function Choice(i: nat): string {
    "branch successor " + Decimal(i)
  }

  function Decimal(n: nat): string {
    var digit := ['0' + (n % 10) as char];
    if n < 10 then digit else Decimal(n / 10) + digit
  }

  /** `c` is a configuration a run can be in when it arrives along `path`; the
      function may start from any store. */
  ghost predicate Arrives(cfg: Cfg, facts: seq<AssignmentFact>, path: Path, c: Config)
    decreases |path|
  {
    if path == [] then c.choices == []
    else
      var init := path[..|path| - 1];
      && End(cfg, path).Some?
      && End(cfg, init).Some? && End(cfg, init).value < |cfg.blocks|
      && var block := cfg.blocks[End(cfg, init).value];
         exists from: Config ::
           && Arrives(cfg, facts, init, from)
           && Executes(facts, block.events, from.store, c.store)
           && c.choices == from.choices +
                           (if IsFork(block.terminator) then [Choice(path[|path| - 1])] else [])
  }

  /** What an assignment may store, told from the table of facts: on a table with
      one fact per span, the literal of a fact with this span and target if there
      is one, otherwise a copy of the source where it is bound and no call
      intervenes, otherwise anything. */
  lemma MayStoreMeans(facts: seq<AssignmentFact>, e: FlowEvent, store: Store, v: Concrete)
    requires e.Assign?
    requires forall i, j :: 0 <= i < j < |facts| ==> SpanBefore(facts[i].assignmentSpan, facts[j].assignmentSpan)
    ensures MayStore(facts, e, store, v) <==>
      && (forall f :: f in facts && States(f, e) ==> ScalarIs(f.staticValue.value, v))
      && (&& (forall f :: f in facts ==> !States(f, e))
          && e.sourceCall.None? && e.sourceName.Some? && e.sourceName.value in store
          ==> v == store[e.sourceName.value])
  {
    FactLookupIsExact(facts, e.span);
    var found := FactForSpan(facts, e.span);
    assert forall i, j :: 0 <= i < j < |facts| ==> facts[i].assignmentSpan != facts[j].assignmentSpan;
    forall f | f in facts && f.assignmentSpan == e.span
      ensures found == Some(f)
    {
      assert found.Some?;
      var i :| 0 <= i < |facts| && facts[i] == f;
      var j :| 0 <= j < |facts| && facts[j] == found.value;
    }
  }

  /** The fact has this assignment's span and target, and a literal. */
  predicate States(f: AssignmentFact, e: FlowEvent)
    requires e.Assign?
  {
    f.assignmentSpan == e.span && f.factTarget == Some(e.target) && f.staticValue.Some?
  }

  /** The kinds of terminator, by name: a path goes on through every one but
      `Unreachable`, and parts only at `Branch` and `TryFork`. */
  lemma TerminatorsMean(cfg: Cfg, b: nat)
    ensures b >= |cfg.blocks| ==> Successors(cfg, b) == []
    ensures b < |cfg.blocks| ==>
      && Successors(cfg, b) == (if cfg.blocks[b].terminator == UnreachableEnd then [] else cfg.blocks[b].successors)
      && (IsFork(cfg.blocks[b].terminator) <==>
            cfg.blocks[b].terminator == BranchEnd || cfg.blocks[b].terminator == TryForkEnd)
  {
  }

  // ---------------------------------------------------------- soundness

  /** `s` stands for every configuration that can arrive along `path`. */
  ghost predicate Covers(cfg: Cfg, facts: seq<AssignmentFact>, path: Path, s: StateView) {
    && s.relations == []
    && forall c :: Arrives(cfg, facts, path, c) ==> Admits(s, c)
  }

  /** The relation speaks of `name`. */
  predicate Mentions(r: ValueRelation, name: string) {
    r.left == name || r.right == VarTerm(name)
  }

  /** No event assigns a name that a relation speaks of. */
  ghost predicate Untouched(events: seq<FlowEvent>, relations: seq<ValueRelation>) {
    forall e, r :: e in events && e.Assign? && r in relations ==> !Mentions(r, e.target)
  }

  lemma TransferStep(facts: seq<AssignmentFact>, e: FlowEvent, s: StateView, c: Config, after: Store)
    requires Admits(s, c) && EventStep(facts, e, c.store, after) && Untouched([e], s.relations)
    ensures Admits(Transfer(s, e, facts), c.(store := after))
  {
    assert e in [e];
    forall r | r in s.relations
      ensures Holds(r, after)
    {
      assert Holds(r, c.store);
    }
  }

  /** Running a block's events stays inside what the transferred state admits, as
      long as no relation speaks of an assigned name. */
  lemma {:induction false} TransferFollows(
      facts: seq<AssignmentFact>, events: seq<FlowEvent>, s: StateView, c: Config, after: Store)
    requires Admits(s, c) && Executes(facts, events, c.store, after) && Untouched(events, s.relations)
    ensures Admits(TransferAll(s, events, facts), c.(store := after))
    decreases |events|
  {
    if events != [] {
      hide Admits, EventStep, Transfer;
      var init, last := events[..|events| - 1], events[|events| - 1];
      var mid: Store :| Executes(facts, init, c.store, mid) && EventStep(facts, last, mid, after);
      assert last in events;
      TransferFollows(facts, init, s, c, mid);
      TransferKeepsRelations(facts, init, s);
      TransferStep(facts, last, TransferAll(s, init, facts), c.(store := mid), after);
    }
  }

  /** An assignment does not touch the relations, so one about its target can go
      stale: `x < 5` is still held after 10 is stored in `x`. */
  lemma RelationGoesStale()
    ensures var e := Assign(Span(0, 0, 1), "x", None, None, [], [], false, None);
            var facts := [AssignmentFact(e.span, Some("x"), Some(IntegerScalar(10)))];
            var s := StateView(map[], [], [ValueRelation("x", Lt, IntTerm(5))], 0, 0);
            var c := Config(map["x" := CValue(0, PInt(1))], []);
            var after := map["x" := CValue(0, PInt(10))];
            && Admits(s, c) && EventStep(facts, e, c.store, after)
            && !Admits(Transfer(s, e, facts), c.(store := after))
  {
    var e := Assign(Span(0, 0, 1), "x", None, None, [], [], false, None);
    var fact := AssignmentFact(e.span, Some("x"), Some(IntegerScalar(10)));
    assert PartitionPoint([fact], e.span) == 0;
    assert ScalarFor([fact], e) == Some(IntegerScalar(10));
    var before: Store := map["x" := CValue(0, PInt(1))];
    var after: Store := map["x" := CValue(0, PInt(10))];
    assert after == before["x" := after["x"]];
    var r := ValueRelation("x", Lt, IntTerm(5));
    assert r in [r] && !Holds(r, after);
  }

  /** The assignment may store anything: neither a literal nor a copy. */
  predicate Opaque(facts: seq<AssignmentFact>, e: FlowEvent)
    requires e.Assign?
  {
    ScalarFor(facts, e).None? && (e.sourceCall.Some? || e.sourceName.None?)
  }

  ghost predicate TransferIsSound(facts: seq<AssignmentFact>, e: FlowEvent, s: StateView) {
    forall c, after :: Admits(s, c) && EventStep(facts, e, c.store, after) ==>
      Admits(Transfer(s, e, facts), c.(store := after))
  }

  /** Storing an unknown value is followed soundly exactly when the only thing
      held about the target is that it equals itself. */
  lemma OpaqueTransferIsSoundExactlyWhen(facts: seq<AssignmentFact>, e: FlowEvent, s: StateView, c: Config)
    requires e.Assign? && Opaque(facts, e) && Admits(s, c)
    ensures TransferIsSound(facts, e, s) <==>
            forall r :: r in s.relations && Mentions(r, e.target) ==>
              r == ValueRelation(e.target, Eq, VarTerm(e.target))
  {
    var x := e.target;
    if forall r :: r in s.relations && Mentions(r, x) ==> r == ValueRelation(x, Eq, VarTerm(x)) {
      forall c', after | Admits(s, c') && EventStep(facts, e, c'.store, after)
        ensures Admits(Transfer(s, e, facts), c'.(store := after))
      {
        forall r | r in s.relations
          ensures Holds(r, after)
        {
          assert Holds(r, c'.store);
        }
      }
    } else {
      var r :| r in s.relations && Mentions(r, x) && r != ValueRelation(x, Eq, VarTerm(x));
      assert Holds(r, c.store);
      var v := Breaking(r, x, c.store);
      var after := c.store[x := v];
      assert after == c.store[x := after[x]];
      assert EventStep(facts, e, c.store, after);
      assert r in Transfer(s, e, facts).relations;
      assert !Admits(Transfer(s, e, facts), c.(store := after));
    }
  }

  /** A value for `x` that breaks a relation about it. */
  lemma Breaking(r: ValueRelation, x: string, store: Store) returns (v: Concrete)
    requires Mentions(r, x) && Holds(r, store) && r != ValueRelation(x, Eq, VarTerm(x))
    ensures !Holds(r, store[x := v])
  {
    var other := if r.left == x then TermValue(r.right, store).value else store[r.left];
    v := if r.op.Eq? && other.CNull? then CValue(0, PInt(0)) else if r.op.NotEq? then other else CNull;
  }

  /** Transfer admits nothing a run could not store: every value described for
      the target is stored by some run the state stands for. */
  lemma TransferIsExact(facts: seq<AssignmentFact>, e: FlowEvent, s: StateView, c: Config, v: Concrete)
    returns (from: Config)
    requires e.Assign? && s.relations == [] && Admits(s, c)
    requires Describes(AssignedValue(s, e, facts), v)
    ensures Admits(s, from) && MayStore(facts, e, from.store, v)
    ensures EventStep(facts, e, from.store, from.store[e.target := v])
  {
    from := c;
    if ScalarFor(facts, e).None? && e.sourceCall.None? && e.sourceName.Some? {
      from := c.(store := c.store[e.sourceName.value := v]);
      forall name | name in s.locals
        ensures LocalHolds(s.locals[name], name, from.store)
      {
        assert LocalHolds(s.locals[name], name, c.store);
      }
    }
  }

  /** The state a successor starts from. */
  function ChildState(s: StateView, successor: nat, i: nat, fork: bool): StateView {
    s.(currentBlock := successor,
       constraints := if fork then s.constraints + [Choice(i)] else s.constraints)
  }

  lemma {:induction false} TransferKeepsRelations(facts: seq<AssignmentFact>, events: seq<FlowEvent>, s: StateView)
    ensures TransferAll(s, events, facts).relations == s.relations
    ensures TransferAll(s, events, facts).constraints == s.constraints
  {
    if events != [] {
      TransferKeepsRelations(facts, events[..|events| - 1], s);
    }
  }

  /** Coverage is inherited along every edge. */
  lemma CoversChild(cfg: Cfg, facts: seq<AssignmentFact>, path: Path, b: nat, i: nat, s: StateView)
    requires End(cfg, path) == Some(b) && i < |Successors(cfg, b)|
    requires Covers(cfg, facts, path, s)
    ensures var block := cfg.blocks[b];
            Covers(cfg, facts, path + [i],
                   ChildState(TransferAll(s, block.events, facts), block.successors[i], i, IsFork(block.terminator)))
  {
    var block := cfg.blocks[b];
    var out := TransferAll(s, block.events, facts);
    var child := ChildState(out, block.successors[i], i, IsFork(block.terminator));
    TransferKeepsRelations(facts, block.events, s);
    assert (path + [i])[..|path|] == path;
    forall c | Arrives(cfg, facts, path + [i], c)
      ensures Admits(child, c)
    {
      var from: Config :|
        && Arrives(cfg, facts, path, from)
        && Executes(facts, block.events, from.store, c.store)
        && c.choices == from.choices + (if IsFork(block.terminator) then [Choice(i)] else []);
      assert Admits(s, from);
      assert Untouched(block.events, s.relations);
      TransferFollows(facts, block.events, s, from, c.store);
      assert Admits(out, from.(store := c.store));
    }
  }
}
