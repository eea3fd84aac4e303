/** The file-local event table: a nested event forest flattened to rows with an
    explicit stack, and the forest read back from the rows. */
module EventTable {
  import opened Prelude
  import opened FlowEvents

  datatype Region = Root | Then | Else | Condition | Body | Update | Catch | Finally

  /** An event without its nested regions. */
  datatype Payload =
    | PCall(span: Span, name: string, receiver: Option<string>, receiverTypes: seq<string>,
            callKind: string, args: seq<Detail>)
    | PBranch(span: Span, condition: Option<string>)
    | PLoop(span: Span, loopKind: string, loopLabel: Option<string>)
    | PAssign(span: Span, target: string, sourceName: Option<string>, sourceCall: Option<string>,
              sourceCallArgs: seq<string>, sourceNames: seq<string>,
              declaresNewBinding: bool, valueKind: Option<string>)
    | PAggregateAssign(span: Span, target: string, typeName: Option<string>, flow: Detail)
    | PReturn(span: Span, returnKind: Option<string>, text: Option<string>, value: Option<string>, flow: Detail)
    | PThrow(span: Span, value: Option<string>, thrownType: Option<string>)
    | PTry(span: Span, catchParam: Option<string>, catchTypes: seq<string>, catchArms: seq<Detail>)
    | PBreak(span: Span, targetLabel: Option<string>, levels: Option<nat>)
    | PContinue(span: Span, targetLabel: Option<string>, levels: Option<nat>)
    | PYield(span: Span, text: Option<string>, flow: Detail)
    | PAwait(span: Span, value: Option<string>)
    | PDefer(span: Span)
    | PUsing(span: Span)
    | PLifecycle(span: Span, name: string, transition: string)

  datatype Row = Row(
    eventId: nat, owner: nat, parent: Option<nat>, region: Region, ordinal: nat, payload: Payload)

  // ------------------------------------------------------------- structure

  function TargetLabel(t: Option<LoopControlTarget>): Option<string> {
    if t.Some? && t.value.Label? then Some(t.value.loop) else None
  }

  function TargetLevels(t: Option<LoopControlTarget>): Option<nat> {
    if t.Some? && t.value.Levels? then Some(t.value.levels) else None
  }

  function TargetOf(targetLabel: Option<string>, levels: Option<nat>): Option<LoopControlTarget> {
    if targetLabel.Some? then Some(Label(targetLabel.value))
    else if levels.Some? then Some(Levels(levels.value)) else None
  }

  function PayloadOf(e: FlowEvent): Payload {
    match e
    case Call(s, n, r, rt, k, a) => PCall(s, n, r, rt, k, a)
    case Branch(s, c, _, _) => PBranch(s, c)
    case Loop(s, k, l, _, _, _) => PLoop(s, k, l)
    case Assign(s, t, n, c, a, ns, d, v) => PAssign(s, t, n, c, a, ns, d, v)
    case AggregateAssign(s, t, ty, f) => PAggregateAssign(s, t, ty, f)
    case Return(s, k, t, v, f) => PReturn(s, k, t, v, f)
    case Throw(s, v, t) => PThrow(s, v, t)
    case Try(s, _, _, _, p, t, a) => PTry(s, p, t, a)
    case Break(s, t) => PBreak(s, TargetLabel(t), TargetLevels(t))
    case Continue(s, t) => PContinue(s, TargetLabel(t), TargetLevels(t))
    case Yield(s, t, f) => PYield(s, t, f)
    case Await(s, v) => PAwait(s, v)
    case Defer(s, _) => PDefer(s)
    case Using(s, _) => PUsing(s)
    case Lifecycle(s, n, t) => PLifecycle(s, n, t)
  }

  /** The three region slots of an event, in listing order; unused ones are
      empty. */
  datatype Slots = Slots(first: seq<FlowEvent>, second: seq<FlowEvent>, third: seq<FlowEvent>)

  datatype Regions = Regions(first: Region, second: Region, third: Region)

  function SlotsOf(e: FlowEvent): Slots {
    match e
    case Branch(_, _, t, f) => Slots(t, f, [])
    case Loop(_, _, _, c, u, b) => Slots(c, b, u)
    case Try(_, b, c, f, _, _, _) => Slots(b, c, f)
    case Defer(_, b) => Slots(b, [], [])
    case Using(_, b) => Slots(b, [], [])
    case _ => Slots([], [], [])
  }

  function RegionsOf(p: Payload): Regions {
    match p
    case PBranch(_, _) => Regions(Then, Else, Root)
    case PLoop(_, _, _) => Regions(Condition, Body, Update)
    case PTry(_, _, _, _) => Regions(Body, Catch, Finally)
    case _ => Regions(Body, Root, Root)
  }

  /** Put an event back together; slots its kind does not have are ignored. */
  function Assemble(p: Payload, slots: Slots): FlowEvent {
    match p
    case PCall(s, n, r, rt, k, a) => Call(s, n, r, rt, k, a)
    case PBranch(s, c) => Branch(s, c, slots.first, slots.second)
    case PLoop(s, k, l) => Loop(s, k, l, slots.first, slots.third, slots.second)
    case PAssign(s, t, n, c, a, ns, d, v) => Assign(s, t, n, c, a, ns, d, v)
    case PAggregateAssign(s, t, ty, f) => AggregateAssign(s, t, ty, f)
    case PReturn(s, k, t, v, f) => Return(s, k, t, v, f)
    case PThrow(s, v, t) => Throw(s, v, t)
    case PTry(s, p, t, a) => Try(s, slots.first, slots.second, slots.third, p, t, a)
    case PBreak(s, l, n) => Break(s, TargetOf(l, n))
    case PContinue(s, l, n) => Continue(s, TargetOf(l, n))
    case PYield(s, t, f) => Yield(s, t, f)
    case PAwait(s, v) => Await(s, v)
    case PDefer(s) => Defer(s, slots.first)
    case PUsing(s) => Using(s, slots.first)
    case PLifecycle(s, n, t) => Lifecycle(s, n, t)
  }

  /** How many events a tree holds. */
  function Size(e: FlowEvent): nat
    decreases e, 1
  {
    1 + match e
        case Branch(_, _, t, f) => ForestSize(t) + ForestSize(f)
        case Loop(_, _, _, c, u, b) => ForestSize(c) + ForestSize(b) + ForestSize(u)
        case Try(_, b, c, f, _, _, _) => ForestSize(b) + ForestSize(c) + ForestSize(f)
        case Defer(_, b) => ForestSize(b)
        case Using(_, b) => ForestSize(b)
        case _ => 0
  }

  function ForestSize(events: seq<FlowEvent>): nat
    decreases events, 0
  {
    if events == [] then 0 else Size(events[0]) + ForestSize(events[1..])
  }

  lemma SizeUnfolds(e: FlowEvent)
    ensures Size(e) ==
            1 + ForestSize(SlotsOf(e).first) + ForestSize(SlotsOf(e).second) + ForestSize(SlotsOf(e).third)
  {
  }

  // -------------------------------------------------------------- preorder

  /** The rows of one event tree in preorder, numbered from `base`. */
  function EventRows(e: FlowEvent, owner: nat, parent: Option<nat>, region: Region, ordinal: nat, base: nat)
    : (rows: seq<Row>)
    ensures |rows| == Size(e)
    ensures forall j :: 0 <= j < |rows| ==> rows[j].eventId == base + j && rows[j].owner == owner
    decreases Size(e), 0
  {
    SizeUnfolds(e);
    var slots, regions := SlotsOf(e), RegionsOf(PayloadOf(e));
    var second := base + 1 + ForestSize(slots.first);
    var third := second + ForestSize(slots.second);
    [Row(base, owner, parent, region, ordinal, PayloadOf(e))] +
    ForestRows(slots.first, owner, Some(base), regions.first, 0, base + 1) +
    ForestRows(slots.second, owner, Some(base), regions.second, 0, second) +
    ForestRows(slots.third, owner, Some(base), regions.third, 0, third)
  }

  /** The rows of sibling trees, whose ordinals start at `ordinal`. */
  function ForestRows(
      events: seq<FlowEvent>, owner: nat, parent: Option<nat>, region: Region, ordinal: nat, base: nat)
    : (rows: seq<Row>)
    ensures |rows| == ForestSize(events)
    ensures forall j :: 0 <= j < |rows| ==> rows[j].eventId == base + j && rows[j].owner == owner
    decreases ForestSize(events), 1
  {
    if events == [] then []
    else
      EventRows(events[0], owner, parent, region, ordinal, base) +
      ForestRows(events[1..], owner, parent, region, ordinal + 1, base + Size(events[0]))
  }

  /** The ids of the sibling trees' own rows. */
  function Tops(events: seq<FlowEvent>, base: nat): seq<nat> {
    if events == [] then [] else [base] + Tops(events[1..], base + Size(events[0]))
  }

  // ------------------------------------------------------- explicit stack

  datatype Pending = Pending(event: FlowEvent, parent: Option<nat>, region: Region, ordinal: nat)

  /** Siblings as they lie on the stack: the first one on top. */
  function Reversed(events: seq<FlowEvent>, parent: Option<nat>, region: Region, ordinal: nat): seq<Pending> {
    if events == [] then []
    else Reversed(events[1..], parent, region, ordinal + 1) + [Pending(events[0], parent, region, ordinal)]
  }

  /** The rows the stack still owes, top first. */
  ghost function StackRows(stack: seq<Pending>, owner: nat, base: nat): seq<Row> {
    if stack == [] then []
    else
      var top := stack[|stack| - 1];
      EventRows(top.event, owner, top.parent, top.region, top.ordinal, base) +
      StackRows(stack[..|stack| - 1], owner, base + Size(top.event))
  }

  ghost function StackSize(stack: seq<Pending>): nat {
    if stack == [] then 0 else StackSize(stack[..|stack| - 1]) + Size(stack[|stack| - 1].event)
  }

  /** The root ids the stack still owes. */
  ghost function StackRoots(stack: seq<Pending>, base: nat): seq<nat> {
    if stack == [] then []
    else
      var top := stack[|stack| - 1];
      (if top.parent.None? then [base] else []) + StackRoots(stack[..|stack| - 1], base + Size(top.event))
  }

  lemma StackTop(rest: seq<Pending>, top: Pending, owner: nat, base: nat)
    ensures StackRows(rest + [top], owner, base) ==
            EventRows(top.event, owner, top.parent, top.region, top.ordinal, base) +
            StackRows(rest, owner, base + Size(top.event))
    ensures StackSize(rest + [top]) == StackSize(rest) + Size(top.event)
    ensures StackRoots(rest + [top], base) ==
            (if top.parent.None? then [base] else []) + StackRoots(rest, base + Size(top.event))
  {
  }

  lemma FirstOfForest(
      events: seq<FlowEvent>, owner: nat, parent: Option<nat>, region: Region, ordinal: nat, base: nat)
    requires events != []
    ensures ForestRows(events, owner, parent, region, ordinal, base) ==
            EventRows(events[0], owner, parent, region, ordinal, base) +
            ForestRows(events[1..], owner, parent, region, ordinal + 1, base + Size(events[0]))
    ensures ForestSize(events) == Size(events[0]) + ForestSize(events[1..])
    ensures Tops(events, base) == [base] + Tops(events[1..], base + Size(events[0]))
    ensures Reversed(events, parent, region, ordinal) ==
            Reversed(events[1..], parent, region, ordinal + 1) + [Pending(events[0], parent, region, ordinal)]
  {
  }

  lemma Associate<T>(a: seq<T>, b: seq<T>, c: seq<T>)
    ensures a + (b + c) == (a + b) + c
  {
  }

  lemma PushedTop(stack: seq<Pending>, events: seq<FlowEvent>, parent: Option<nat>, region: Region, ordinal: nat)
    requires events != []
    ensures stack + Reversed(events, parent, region, ordinal) ==
            stack + Reversed(events[1..], parent, region, ordinal + 1) + [Pending(events[0], parent, region, ordinal)]
  {
  }

  lemma EmptyRegion(stack: seq<Pending>, owner: nat, parent: Option<nat>, region: Region, ordinal: nat, base: nat)
    ensures stack + Reversed([], parent, region, ordinal) == stack
    ensures ForestRows([], owner, parent, region, ordinal, base) == [] && ForestSize([]) == 0 && Tops([], base) == []
  {
  }

  /** A pushed region is listed before whatever lay below it. */
  lemma {:induction false} PushedRegion(
      stack: seq<Pending>, events: seq<FlowEvent>, owner: nat, parent: Option<nat>, region: Region,
      ordinal: nat, base: nat)
    ensures StackRows(stack + Reversed(events, parent, region, ordinal), owner, base) ==
            ForestRows(events, owner, parent, region, ordinal, base) +
            StackRows(stack, owner, base + ForestSize(events))
    decreases |events|
  {
    hide *;
    if events == [] {
      EmptyRegion(stack, owner, parent, region, ordinal, base);
    } else {
      var rest := stack + Reversed(events[1..], parent, region, ordinal + 1);
      var after := base + Size(events[0]);
      FirstOfForest(events, owner, parent, region, ordinal, base);
      PushedTop(stack, events, parent, region, ordinal);
      StackTop(rest, Pending(events[0], parent, region, ordinal), owner, base);
      PushedRegion(stack, events[1..], owner, parent, region, ordinal + 1, after);
      Associate(EventRows(events[0], owner, parent, region, ordinal, base),
                ForestRows(events[1..], owner, parent, region, ordinal + 1, after),
                StackRows(stack, owner, after + ForestSize(events[1..])));
    }
  }

  lemma {:induction false} PushedCounts(
      stack: seq<Pending>, events: seq<FlowEvent>, parent: Option<nat>, region: Region, ordinal: nat, base: nat)
    ensures var pushed := stack + Reversed(events, parent, region, ordinal);
            && StackSize(pushed) == StackSize(stack) + ForestSize(events)
            && StackRoots(pushed, base) ==
                 (if parent.None? then Tops(events, base) else []) + StackRoots(stack, base + ForestSize(events))
    decreases |events|
  {
    hide *;
    if events == [] {
      EmptyRegion(stack, 0, parent, region, ordinal, base);
    } else {
      var rest := stack + Reversed(events[1..], parent, region, ordinal + 1);
      var after := base + Size(events[0]);
      FirstOfForest(events, 0, parent, region, ordinal, base);
      PushedTop(stack, events, parent, region, ordinal);
      StackTop(rest, Pending(events[0], parent, region, ordinal), 0, base);
      PushedCounts(stack, events[1..], parent, region, ordinal + 1, after);
      Associate([base], Tops(events[1..], after), StackRoots(stack, after + ForestSize(events[1..])));
    }
  }

  method PushFlowRegion(stack: seq<Pending>, events: seq<FlowEvent>, parent: Option<nat>, region: Region)
    returns (pushed: seq<Pending>)
    ensures pushed == stack + Reversed(events, parent, region, 0)
  {
    pushed := stack;
    for i := |events| downto 0
      invariant pushed == stack + Reversed(events[i..], parent, region, i)
    {
      assert events[i..][1..] == events[i + 1..];
      pushed := pushed + [Pending(events[i], parent, region, i)];
    }
    assert events[0..] == events;
  }

  /** Push an event's regions so that the first one ends up on top. */
  method PushRegions(stack: seq<Pending>, e: FlowEvent, id: nat) returns (pushed: seq<Pending>)
    ensures pushed == Unfolded(stack, e, id)
  {
    pushed := stack;
    match e {
      case Branch(_, _, thenEvents, elseEvents) =>
        pushed := PushFlowRegion(pushed, elseEvents, Some(id), Else);
        pushed := PushFlowRegion(pushed, thenEvents, Some(id), Then);
      case Loop(_, _, _, condition, update, body) =>
        pushed := PushFlowRegion(pushed, update, Some(id), Update);
        pushed := PushFlowRegion(pushed, body, Some(id), Body);
        pushed := PushFlowRegion(pushed, condition, Some(id), Condition);
      case Try(_, body, catchEvents, finallyEvents, _, _, _) =>
        pushed := PushFlowRegion(pushed, finallyEvents, Some(id), Finally);
        pushed := PushFlowRegion(pushed, catchEvents, Some(id), Catch);
        pushed := PushFlowRegion(pushed, body, Some(id), Body);
      case Defer(_, body) =>
        pushed := PushFlowRegion(pushed, body, Some(id), Body);
      case Using(_, body) =>
        pushed := PushFlowRegion(pushed, body, Some(id), Body);
      case _ =>
    }
  }

  /** An event's regions as they lie on the stack. */
  function Unfolded(rest: seq<Pending>, e: FlowEvent, id: nat): seq<Pending> {
    var slots, regions := SlotsOf(e), RegionsOf(PayloadOf(e));
    rest + Reversed(slots.third, Some(id), regions.third, 0)
         + Reversed(slots.second, Some(id), regions.second, 0)
         + Reversed(slots.first, Some(id), regions.first, 0)
  }

  lemma RegionsOnStack(rest: seq<Pending>, top: Pending, owner: nat, id: nat)
    ensures var row := Row(id, owner, top.parent, top.region, top.ordinal, PayloadOf(top.event));
            [row] + StackRows(Unfolded(rest, top.event, id), owner, id + 1) ==
            EventRows(top.event, owner, top.parent, top.region, top.ordinal, id) +
            StackRows(rest, owner, id + Size(top.event))
  {
    hide *;
    var e := top.event;
    var slots, regions := SlotsOf(e), RegionsOf(PayloadOf(e));
    var third := rest + Reversed(slots.third, Some(id), regions.third, 0);
    var second := third + Reversed(slots.second, Some(id), regions.second, 0);
    var at2 := id + 1 + ForestSize(slots.first);
    var at3 := at2 + ForestSize(slots.second);
    SizeUnfolds(e);
    UnfoldedIs(rest, e, id);
    PushedRegion(rest, slots.third, owner, Some(id), regions.third, 0, at3);
    PushedRegion(third, slots.second, owner, Some(id), regions.second, 0, at2);
    PushedRegion(second, slots.first, owner, Some(id), regions.first, 0, id + 1);
    RowsOfEvent(e, owner, top.parent, top.region, top.ordinal, id);
    RowsRegroup([Row(id, owner, top.parent, top.region, top.ordinal, PayloadOf(e))],
                ForestRows(slots.first, owner, Some(id), regions.first, 0, id + 1),
                ForestRows(slots.second, owner, Some(id), regions.second, 0, at2),
                ForestRows(slots.third, owner, Some(id), regions.third, 0, at3),
                StackRows(rest, owner, id + Size(e)));
  }

  lemma RowsRegroup<T>(a: seq<T>, b: seq<T>, c: seq<T>, d: seq<T>, e: seq<T>)
    ensures a + (b + (c + (d + e))) == a + b + c + d + e
  {
  }

  lemma UnfoldedIs(rest: seq<Pending>, e: FlowEvent, id: nat)
    ensures var slots, regions := SlotsOf(e), RegionsOf(PayloadOf(e));
            Unfolded(rest, e, id) ==
            rest + Reversed(slots.third, Some(id), regions.third, 0)
                 + Reversed(slots.second, Some(id), regions.second, 0)
                 + Reversed(slots.first, Some(id), regions.first, 0)
  {
  }

  lemma RowsOfEvent(e: FlowEvent, owner: nat, parent: Option<nat>, region: Region, ordinal: nat, base: nat)
    ensures var slots, regions := SlotsOf(e), RegionsOf(PayloadOf(e));
            var second := base + 1 + ForestSize(slots.first);
            EventRows(e, owner, parent, region, ordinal, base) ==
            [Row(base, owner, parent, region, ordinal, PayloadOf(e))] +
            ForestRows(slots.first, owner, Some(base), regions.first, 0, base + 1) +
            ForestRows(slots.second, owner, Some(base), regions.second, 0, second) +
            ForestRows(slots.third, owner, Some(base), regions.third, 0, second + ForestSize(slots.second))
  {
    hide ForestRows, ForestSize, SlotsOf, RegionsOf, PayloadOf, Size;
  }

  lemma RegionCounts(rest: seq<Pending>, e: FlowEvent, id: nat)
    ensures StackSize(Unfolded(rest, e, id)) == StackSize(rest) + Size(e) - 1
    ensures StackRoots(Unfolded(rest, e, id), id + 1) == StackRoots(rest, id + Size(e))
  {
    hide *;
    var slots, regions := SlotsOf(e), RegionsOf(PayloadOf(e));
    var third := rest + Reversed(slots.third, Some(id), regions.third, 0);
    var second := third + Reversed(slots.second, Some(id), regions.second, 0);
    var at2 := id + 1 + ForestSize(slots.first);
    SizeUnfolds(e);
    UnfoldedIs(rest, e, id);
    PushedCounts(rest, slots.third, Some(id), regions.third, 0, at2 + ForestSize(slots.second));
    PushedCounts(third, slots.second, Some(id), regions.second, 0, at2);
    PushedCounts(second, slots.first, Some(id), regions.first, 0, id + 1);
  }

  /** Flatten a forest onto the end of a table, without recursion.  The rows
      added are the preorder, and the ids returned are the forest's own. */
  method FlattenFlowEvents(events: seq<FlowEvent>, owner: nat, table: seq<Row>)
    returns (out: seq<Row>, rootIds: seq<nat>)
    ensures out == table + ForestRows(events, owner, None, Root, 0, |table|)
    ensures rootIds == Tops(events, |table|)
  {
    hide ForestRows, EventRows, Reversed, Unfolded, PayloadOf, Size, ForestSize;
    out, rootIds := table, [];
    var stack := PushFlowRegion([], events, None, Root);
    PushedRegion([], events, owner, None, Root, 0, |table|);
    PushedCounts([], events, None, Root, 0, |table|);
    assert stack == [] + Reversed(events, None, Root, 0);
    ghost var whole := table + ForestRows(events, owner, None, Root, 0, |table|);
    while stack != []
      invariant out + StackRows(stack, owner, |out|) == whole
      invariant rootIds + StackRoots(stack, |out|) == Tops(events, |table|)
      decreases StackSize(stack)
    {
      hide *;
      var pending, rest := stack[|stack| - 1], stack[..|stack| - 1];
      var id := |out|;
      assert stack == rest + [pending];
      FlattenStep(out, rootIds, rest, pending, owner);
      if pending.parent.None? {
        rootIds := rootIds + [id];
      }
      var row := Row(id, owner, pending.parent, pending.region, pending.ordinal, PayloadOf(pending.event));
      stack := PushRegions(rest, pending.event, id);
      out := out + [row];
    }
  }

  /** Popping an event and pushing its regions leaves the rows still owed. */
  lemma FlattenStep(out: seq<Row>, roots: seq<nat>, rest: seq<Pending>, top: Pending, owner: nat)
    ensures var id := |out|;
            var row := Row(id, owner, top.parent, top.region, top.ordinal, PayloadOf(top.event));
            var stack := Unfolded(rest, top.event, id);
            && out + StackRows(rest + [top], owner, id) == out + [row] + StackRows(stack, owner, id + 1)
            && roots + StackRoots(rest + [top], id) ==
                 (if top.parent.None? then roots + [id] else roots) + StackRoots(stack, id + 1)
            && StackSize(stack) < StackSize(rest + [top])
  {
    hide *;
    var id := |out|;
    var row := Row(id, owner, top.parent, top.region, top.ordinal, PayloadOf(top.event));
    var rows := StackRows(Unfolded(rest, top.event, id), owner, id + 1);
    StackTop(rest, top, owner, id);
    RegionsOnStack(rest, top, owner, id);
    RegionCounts(rest, top.event, id);
    assert out + [row] + rows == out + ([row] + rows);
  }

  // ----------------------------------------------------- parents, ordinals

  /** A nested row's parent is an earlier row of the same tree. */
  lemma {:induction false} EventParents(
      e: FlowEvent, owner: nat, parent: Option<nat>, region: Region, ordinal: nat, base: nat, j: nat)
    requires 0 < j < Size(e)
    ensures var p := EventRows(e, owner, parent, region, ordinal, base)[j].parent;
            p.Some? && base <= p.value < base + j
    decreases Size(e), 0
  {
    hide *;
    var slots, regions := SlotsOf(e), RegionsOf(PayloadOf(e));
    var second := base + 1 + ForestSize(slots.first);
    var third := second + ForestSize(slots.second);
    SizeUnfolds(e);
    RowsOfEvent(e, owner, parent, region, ordinal, base);
    if base + j < second {
      ForestParents(slots.first, owner, Some(base), regions.first, 0, base + 1, j - 1);
    } else if base + j < third {
      ForestParents(slots.second, owner, Some(base), regions.second, 0, second, base + j - second);
    } else {
      ForestParents(slots.third, owner, Some(base), regions.third, 0, third, base + j - third);
    }
  }

  lemma {:induction false} ForestParents(
      events: seq<FlowEvent>, owner: nat, parent: Option<nat>, region: Region, ordinal: nat, base: nat, j: nat)
    requires j < ForestSize(events)
    ensures var p := ForestRows(events, owner, parent, region, ordinal, base)[j].parent;
            p == parent || (p.Some? && base <= p.value < base + j)
    decreases ForestSize(events), 1
  {
    hide *;
    if events == [] {
      EmptyRegion([], owner, parent, region, ordinal, base);
    } else {
      FirstOfForest(events, owner, parent, region, ordinal, base);
      OwnRow(events[0], owner, parent, region, ordinal, base);
      if j == 0 {
      } else if j < Size(events[0]) {
        EventParents(events[0], owner, parent, region, ordinal, base, j);
      } else {
        ForestParents(events[1..], owner, parent, region, ordinal + 1, base + Size(events[0]), j - Size(events[0]));
      }
    }
  }

  lemma {:induction false} TopsInside(events: seq<FlowEvent>, base: nat)
    ensures |Tops(events, base)| == |events|
    ensures InRange(Tops(events, base), base, base + ForestSize(events))
  {
    hide Tops, Size, ForestSize;
    if events == [] {
      EmptyRegion([], 0, None, Root, 0, base);
    } else {
      FirstOfForest(events, 0, None, Root, 0, base);
      OwnRow(events[0], 0, None, Root, 0, base);
      TopsInside(events[1..], base + Size(events[0]));
    }
  }

  /** The siblings' own rows carry their parent, their region, and their
      positions as ordinals. */
  lemma {:induction false} TopRows(
      events: seq<FlowEvent>, owner: nat, parent: Option<nat>, region: Region, ordinal: nat, base: nat, k: nat)
    requires k < |events|
    ensures |Tops(events, base)| == |events|
    ensures base <= Tops(events, base)[k] < base + ForestSize(events)
    ensures ForestRows(events, owner, parent, region, ordinal, base)[Tops(events, base)[k] - base] ==
            Row(Tops(events, base)[k], owner, parent, region, ordinal + k, PayloadOf(events[k]))
  {
    hide Tops, Size, ForestSize, EventRows, ForestRows, PayloadOf, SlotsOf, RegionsOf;
    TopsInside(events, base);
    FirstOfForest(events, owner, parent, region, ordinal, base);
    if k == 0 {
      RowsOfEvent(events[0], owner, parent, region, ordinal, base);
    } else {
      TopRows(events[1..], owner, parent, region, ordinal + 1, base + Size(events[0]), k - 1);
    }
  }

  // -------------------------------------------------------------- rebuilding

  predicate InRange(ids: seq<nat>, lo: nat, hi: nat) {
    forall i :: 0 <= i < |ids| ==> lo <= ids[i] < hi
  }

  /** The rows in `[lo, hi)` that name `parent` and `region`, in table order. */
  function KidsRange(table: seq<Row>, parent: nat, region: Region, lo: nat, hi: nat): (ids: seq<nat>)
    requires lo <= hi <= |table|
    ensures InRange(ids, lo, hi)
    decreases hi - lo
  {
    if lo == hi then []
    else
      (if table[lo].parent == Some(parent) && table[lo].region == region then [lo] else []) +
      KidsRange(table, parent, region, lo + 1, hi)
  }

  /** Read the event at row `id` back out of the table. */
  function Rebuild(table: seq<Row>, id: nat): FlowEvent
    requires id < |table|
    decreases |table| - id, 0
  {
    var regions := RegionsOf(table[id].payload);
    Assemble(table[id].payload,
             Slots(RebuildAll(table, id + 1, KidsRange(table, id, regions.first, id + 1, |table|)),
                   RebuildAll(table, id + 1, KidsRange(table, id, regions.second, id + 1, |table|)),
                   RebuildAll(table, id + 1, KidsRange(table, id, regions.third, id + 1, |table|))))
  }

  function RebuildAll(table: seq<Row>, floor: nat, ids: seq<nat>): seq<FlowEvent>
    requires InRange(ids, floor, |table|)
    decreases |table| - floor, 1 + |ids|
  {
    if ids == [] then [] else [Rebuild(table, ids[0])] + RebuildAll(table, floor, ids[1..])
  }

  /** `rows` sit in the table from position `base` on. */
  ghost predicate Sits(table: seq<Row>, rows: seq<Row>, base: nat) {
    base + |rows| <= |table| && table[base..base + |rows|] == rows
  }

  /** No row from `hi` on names a parent in `[lo, hi)`. */
  ghost predicate Closed(table: seq<Row>, lo: nat, hi: nat) {
    forall j :: hi <= j < |table| && table[j].parent.Some? ==> !(lo <= table[j].parent.value < hi)
  }

  lemma SitsParts(table: seq<Row>, a: seq<Row>, b: seq<Row>, base: nat)
    requires Sits(table, a + b, base)
    ensures Sits(table, a, base) && Sits(table, b, base + |a|)
  {
    var whole := table[base..base + |a + b|];
    assert table[base..base + |a|] == whole[..|a|] == a;
    assert table[base + |a|..base + |a| + |b|] == whole[|a|..] == b;
  }

  lemma {:induction false} KidsSplit(table: seq<Row>, parent: nat, region: Region, lo: nat, mid: nat, hi: nat)
    requires lo <= mid <= hi <= |table|
    ensures KidsRange(table, parent, region, lo, hi) ==
            KidsRange(table, parent, region, lo, mid) + KidsRange(table, parent, region, mid, hi)
    decreases mid - lo
  {
    if lo < mid {
      KidsSplit(table, parent, region, lo + 1, mid, hi);
    }
  }

  lemma {:induction false} KidsNone(table: seq<Row>, parent: nat, region: Region, lo: nat, hi: nat)
    requires lo <= hi <= |table|
    requires forall j :: lo <= j < hi ==> table[j].parent != Some(parent)
    ensures KidsRange(table, parent, region, lo, hi) == []
    decreases hi - lo
  {
    if lo < hi {
      KidsNone(table, parent, region, lo + 1, hi);
    }
  }

  lemma SitsAt(table: seq<Row>, rows: seq<Row>, base: nat, j: nat)
    requires Sits(table, rows, base) && j < |rows|
    ensures base + |rows| <= |table| && table[base + j] == rows[j]
  {
  }

  /** In a region's rows, the parent's children are exactly the siblings. */
  lemma {:induction false} KidsInForest(
      table: seq<Row>, events: seq<FlowEvent>, owner: nat, parent: nat, region: Region, ordinal: nat,
      base: nat, wanted: Region)
    requires parent < base
    requires Sits(table, ForestRows(events, owner, Some(parent), region, ordinal, base), base)
    ensures base + ForestSize(events) <= |table|
    ensures KidsRange(table, parent, wanted, base, base + ForestSize(events)) ==
            if wanted == region then Tops(events, base) else []
    decreases |events|
  {
    hide KidsRange, ForestRows, EventRows, ForestSize, Size, Tops;
    if events == [] {
      EmptyRegion([], owner, Some(parent), region, ordinal, base);
      KidsNone(table, parent, wanted, base, base);
    } else {
      var after := base + Size(events[0]);
      var first := EventRows(events[0], owner, Some(parent), region, ordinal, base);
      var rest := ForestRows(events[1..], owner, Some(parent), region, ordinal + 1, after);
      FirstOfForest(events, owner, Some(parent), region, ordinal, base);
      SitsParts(table, first, rest, base);
      KidsInForest(table, events[1..], owner, parent, region, ordinal + 1, after, wanted);
      KidsOfFirst(table, events[0], owner, parent, region, ordinal, base, wanted);
      KidsSplit(table, parent, wanted, base, after, base + ForestSize(events));
    }
  }

  lemma OwnRow(e: FlowEvent, owner: nat, parent: Option<nat>, region: Region, ordinal: nat, base: nat)
    ensures Size(e) > 0
    ensures EventRows(e, owner, parent, region, ordinal, base)[0] ==
            Row(base, owner, parent, region, ordinal, PayloadOf(e))
  {
  }

  lemma KidsOfFirst(
      table: seq<Row>, e: FlowEvent, owner: nat, parent: nat, region: Region, ordinal: nat, base: nat,
      wanted: Region)
    requires parent < base
    requires Sits(table, EventRows(e, owner, Some(parent), region, ordinal, base), base)
    ensures base + Size(e) <= |table|
    ensures KidsRange(table, parent, wanted, base, base + Size(e)) == if wanted == region then [base] else []
  {
    hide EventRows, Size, PayloadOf;
    var rows := EventRows(e, owner, Some(parent), region, ordinal, base);
    OwnRow(e, owner, Some(parent), region, ordinal, base);
    SitsAt(table, rows, base, 0);
    forall j | base + 1 <= j < base + Size(e)
      ensures table[j].parent != Some(parent)
    {
      SitsAt(table, rows, base, j - base);
      EventParents(e, owner, Some(parent), region, ordinal, base, j - base);
    }
    KidsNone(table, parent, wanted, base + 1, base + Size(e));
  }

  lemma ForestIsClosed(
      table: seq<Row>, events: seq<FlowEvent>, owner: nat, parent: Option<nat>, region: Region, ordinal: nat,
      base: nat, lo: nat, j: nat)
    requires Sits(table, ForestRows(events, owner, parent, region, ordinal, base), base)
    requires base <= j < base + ForestSize(events) && lo <= base
    requires parent.Some? ==> parent.value < lo
    ensures table[j].parent.Some? ==> !(lo <= table[j].parent.value < base)
  {
    hide ForestRows, ForestSize;
    assert table[j] == ForestRows(events, owner, parent, region, ordinal, base)[j - base];
    ForestParents(events, owner, parent, region, ordinal, base, j - base);
  }

  lemma {:induction false} RebuildsForest(
      table: seq<Row>, events: seq<FlowEvent>, owner: nat, parent: Option<nat>, region: Region, ordinal: nat,
      base: nat, floor: nat)
    requires floor <= base && (parent.Some? ==> parent.value < base)
    requires Sits(table, ForestRows(events, owner, parent, region, ordinal, base), base)
    requires Closed(table, base, base + ForestSize(events))
    ensures InRange(Tops(events, base), floor, |table|)
    ensures RebuildAll(table, floor, Tops(events, base)) == events
    decreases ForestSize(events), 1
  {
    hide EventRows, ForestRows, ForestSize, Size, Rebuild, Tops, Sits;
    TopsInside(events, base);
    if events == [] {
      EmptyRegion([], owner, parent, region, ordinal, base);
    } else {
      var after := base + Size(events[0]);
      FirstOfForest(events, owner, parent, region, ordinal, base);
      OwnRow(events[0], owner, parent, region, ordinal, base);
      SitsParts(table, EventRows(events[0], owner, parent, region, ordinal, base),
                ForestRows(events[1..], owner, parent, region, ordinal + 1, after), base);
      forall j | after <= j < |table| && table[j].parent.Some?
        ensures !(base <= table[j].parent.value < after)
      {
        if j < base + ForestSize(events) {
          ForestIsClosed(table, events[1..], owner, parent, region, ordinal + 1, after, base, j);
        }
      }
      RebuildsEvent(table, events[0], owner, parent, region, ordinal, base);
      RebuildsForest(table, events[1..], owner, parent, region, ordinal + 1, after, floor);
      assert Tops(events, base)[1..] == Tops(events[1..], after);
    }
  }

  lemma {:induction false} RebuildsEvent(
      table: seq<Row>, e: FlowEvent, owner: nat, parent: Option<nat>, region: Region, ordinal: nat, base: nat)
    requires Sits(table, EventRows(e, owner, parent, region, ordinal, base), base)
    requires Closed(table, base, base + Size(e))
    ensures base < |table| && Rebuild(table, base) == e
    decreases Size(e), 0
  {
    hide *;
    var slots, regions := SlotsOf(e), RegionsOf(PayloadOf(e));
    var at2 := base + 1 + ForestSize(slots.first);
    var at3 := at2 + ForestSize(slots.second);
    SizeUnfolds(e);
    EventSits(table, e, owner, parent, region, ordinal, base);
    SlotsClosed(table, e, owner, base);
    SlotKids(table, e, owner, base);
    RebuildsForest(table, slots.first, owner, Some(base), regions.first, 0, base + 1, base + 1);
    RebuildsForest(table, slots.second, owner, Some(base), regions.second, 0, at2, base + 1);
    RebuildsForest(table, slots.third, owner, Some(base), regions.third, 0, at3, base + 1);
    RebuildUnfolds(table, base);
    Reassembles(e);
  }

  lemma EventSits(
      table: seq<Row>, e: FlowEvent, owner: nat, parent: Option<nat>, region: Region, ordinal: nat, base: nat)
    requires Sits(table, EventRows(e, owner, parent, region, ordinal, base), base)
    ensures base < |table| && table[base].payload == PayloadOf(e)
    ensures SlotsSit(table, e, owner, base)
    ensures var slots, regions := SlotsOf(e), RegionsOf(PayloadOf(e));
            var at2 := base + 1 + ForestSize(slots.first);
            var at3 := at2 + ForestSize(slots.second);
            && Sits(table, ForestRows(slots.first, owner, Some(base), regions.first, 0, base + 1), base + 1)
            && Sits(table, ForestRows(slots.second, owner, Some(base), regions.second, 0, at2), at2)
            && Sits(table, ForestRows(slots.third, owner, Some(base), regions.third, 0, at3), at3)
  {
    hide EventRows, ForestRows, SlotsOf, RegionsOf, PayloadOf, Size, ForestSize, Sits;
    var slots, regions := SlotsOf(e), RegionsOf(PayloadOf(e));
    var at2 := base + 1 + ForestSize(slots.first);
    var at3 := at2 + ForestSize(slots.second);
    RowsOfEvent(e, owner, parent, region, ordinal, base);
    var own := [Row(base, owner, parent, region, ordinal, PayloadOf(e))];
    var f1 := ForestRows(slots.first, owner, Some(base), regions.first, 0, base + 1);
    var f2 := ForestRows(slots.second, owner, Some(base), regions.second, 0, at2);
    var f3 := ForestRows(slots.third, owner, Some(base), regions.third, 0, at3);
    SitsParts(table, own + f1 + f2, f3, base);
    SitsParts(table, own + f1, f2, base);
    SitsParts(table, own, f1, base);
    SitsAt(table, own, base, 0);
  }

  /** The event's three regions lie one after the other behind its row. */
  ghost predicate SlotsSit(table: seq<Row>, e: FlowEvent, owner: nat, base: nat) {
    var slots, regions := SlotsOf(e), RegionsOf(PayloadOf(e));
    var at2 := base + 1 + ForestSize(slots.first);
    var at3 := at2 + ForestSize(slots.second);
    && Sits(table, ForestRows(slots.first, owner, Some(base), regions.first, 0, base + 1), base + 1)
    && Sits(table, ForestRows(slots.second, owner, Some(base), regions.second, 0, at2), at2)
    && Sits(table, ForestRows(slots.third, owner, Some(base), regions.third, 0, at3), at3)
  }

  lemma SlotsClosed(table: seq<Row>, e: FlowEvent, owner: nat, base: nat)
    requires SlotsSit(table, e, owner, base) && Closed(table, base, base + Size(e))
    ensures var slots := SlotsOf(e);
            var at2 := base + 1 + ForestSize(slots.first);
            var at3 := at2 + ForestSize(slots.second);
            && Closed(table, base + 1, at2) && Closed(table, at2, at3)
            && Closed(table, at3, at3 + ForestSize(slots.third))
  {
    hide ForestRows, SlotsOf, RegionsOf, PayloadOf, Size, ForestSize, Sits;
    var slots, regions := SlotsOf(e), RegionsOf(PayloadOf(e));
    var at2 := base + 1 + ForestSize(slots.first);
    var at3 := at2 + ForestSize(slots.second);
    SizeUnfolds(e);
    forall j | at2 <= j < |table| && table[j].parent.Some?
      ensures !(base + 1 <= table[j].parent.value < at2)
    {
      if j < at3 {
        ForestIsClosed(table, slots.second, owner, Some(base), regions.second, 0, at2, base + 1, j);
      } else if j < base + Size(e) {
        ForestIsClosed(table, slots.third, owner, Some(base), regions.third, 0, at3, base + 1, j);
      }
    }
    forall j | at3 <= j < |table| && table[j].parent.Some?
      ensures !(at2 <= table[j].parent.value < at3)
    {
      if j < base + Size(e) {
        ForestIsClosed(table, slots.third, owner, Some(base), regions.third, 0, at3, at2, j);
      }
    }
  }

  /** The children an event has in one region are that region's siblings. */
  lemma KidsOfEvent(table: seq<Row>, e: FlowEvent, owner: nat, base: nat, wanted: Region)
    requires base < |table|
    requires SlotsSit(table, e, owner, base) && Closed(table, base, base + Size(e))
    ensures var slots, regions := SlotsOf(e), RegionsOf(PayloadOf(e));
            var at2 := base + 1 + ForestSize(slots.first);
            var at3 := at2 + ForestSize(slots.second);
            KidsRange(table, base, wanted, base + 1, |table|) ==
            (if wanted == regions.first then Tops(slots.first, base + 1) else []) +
            (if wanted == regions.second then Tops(slots.second, at2) else []) +
            (if wanted == regions.third then Tops(slots.third, at3) else [])
  {
    hide ForestRows, SlotsOf, RegionsOf, PayloadOf, Size, ForestSize, KidsRange, Tops, Sits, InRange, Closed;
    var slots, regions := SlotsOf(e), RegionsOf(PayloadOf(e));
    var at2 := base + 1 + ForestSize(slots.first);
    var at3 := at2 + ForestSize(slots.second);
    var end := at3 + ForestSize(slots.third);
    SizeUnfolds(e);
    KidsInForest(table, slots.first, owner, base, regions.first, 0, base + 1, wanted);
    KidsInForest(table, slots.second, owner, base, regions.second, 0, at2, wanted);
    KidsInForest(table, slots.third, owner, base, regions.third, 0, at3, wanted);
    NoKidsAfter(table, base, wanted, end);
    KidsSplit(table, base, wanted, base + 1, at2, |table|);
    KidsSplit(table, base, wanted, at2, at3, |table|);
    KidsSplit(table, base, wanted, at3, end, |table|);
  }

  lemma NoKidsAfter(table: seq<Row>, parent: nat, wanted: Region, end: nat)
    requires parent < end <= |table| && Closed(table, parent, end)
    ensures KidsRange(table, parent, wanted, end, |table|) == []
  {
    KidsNone(table, parent, wanted, end, |table|);
  }

  lemma RegionsDiffer(e: FlowEvent, at1: nat, at2: nat, at3: nat)
    ensures var slots, regions := SlotsOf(e), RegionsOf(PayloadOf(e));
            && regions.first != regions.second && regions.first != regions.third
            && (regions.second == regions.third ==> Tops(slots.second, at2) == [] && Tops(slots.third, at3) == [])
  {
  }

  lemma SlotKids(table: seq<Row>, e: FlowEvent, owner: nat, base: nat)
    requires base < |table|
    requires SlotsSit(table, e, owner, base) && Closed(table, base, base + Size(e))
    ensures var slots, regions := SlotsOf(e), RegionsOf(PayloadOf(e));
            var at2 := base + 1 + ForestSize(slots.first);
            var at3 := at2 + ForestSize(slots.second);
            && KidsRange(table, base, regions.first, base + 1, |table|) == Tops(slots.first, base + 1)
            && KidsRange(table, base, regions.second, base + 1, |table|) == Tops(slots.second, at2)
            && KidsRange(table, base, regions.third, base + 1, |table|) == Tops(slots.third, at3)
  {
    hide *;
    var slots, regions := SlotsOf(e), RegionsOf(PayloadOf(e));
    var at2 := base + 1 + ForestSize(slots.first);
    KidsOfEvent(table, e, owner, base, regions.first);
    KidsOfEvent(table, e, owner, base, regions.second);
    KidsOfEvent(table, e, owner, base, regions.third);
    RegionsDiffer(e, base + 1, at2, at2 + ForestSize(slots.second));
  }

  lemma RebuildUnfolds(table: seq<Row>, id: nat)
    requires id < |table|
    ensures var regions := RegionsOf(table[id].payload);
            Rebuild(table, id) ==
            Assemble(table[id].payload,
                     Slots(RebuildAll(table, id + 1, KidsRange(table, id, regions.first, id + 1, |table|)),
                           RebuildAll(table, id + 1, KidsRange(table, id, regions.second, id + 1, |table|)),
                           RebuildAll(table, id + 1, KidsRange(table, id, regions.third, id + 1, |table|))))
  {
  }

  lemma Reassembles(e: FlowEvent)
    ensures Assemble(PayloadOf(e), SlotsOf(e)) == e
  {
  }

  /** Flattening loses nothing: whatever table the rows were appended to and
      whatever later forests were appended after them, reading the root ids back
      gives the original forest. */
  lemma FlattenRoundTrips(events: seq<FlowEvent>, owner: nat, table: seq<Row>, later: seq<Row>)
    requires forall r :: r in later && r.parent.Some? ==> r.parent.value >= |table| + ForestSize(events)
    ensures var out := table + ForestRows(events, owner, None, Root, 0, |table|) + later;
            && InRange(Tops(events, |table|), |table|, |out|)
            && RebuildAll(out, |table|, Tops(events, |table|)) == events
  {
    hide ForestRows, ForestSize, RebuildAll, Tops;
    var rows := ForestRows(events, owner, None, Root, 0, |table|);
    var out := table + rows + later;
    assert out[|table|..|table| + |rows|] == rows;
    forall j | |table| + ForestSize(events) <= j < |out| && out[j].parent.Some?
      ensures !(|table| <= out[j].parent.value < |table| + ForestSize(events))
    {
      assert out[j] == later[j - |table| - |rows|];
    }
    RebuildsForest(out, events, owner, None, Root, 0, |table|, |table|);
  }

  // ------------------------------------------------------ the table, literally

  /** An event's rows sit at `id`, and nothing behind them belongs to them. */
  ghost predicate Stands(
      table: seq<Row>, e: FlowEvent, owner: nat, parent: Option<nat>, region: Region, ordinal: nat, id: nat)
  {
    Sits(table, EventRows(e, owner, parent, region, ordinal, id), id) && Closed(table, id, id + Size(e))
  }

  /** The rows behind `p` that name it and this region are the events, in order,
      numbered from zero. */
  ghost predicate Lists(table: seq<Row>, p: nat, region: Region, events: seq<FlowEvent>, owner: nat)
    requires p < |table|
  {
    var ids := KidsRange(table, p, region, p + 1, |table|);
    && |ids| == |events|
    && forall k :: 0 <= k < |events| ==> Stands(table, events[k], owner, Some(p), region, k, ids[k])
  }

  lemma {:induction false} SiblingsStand(
      table: seq<Row>, events: seq<FlowEvent>, owner: nat, parent: Option<nat>, region: Region, ordinal: nat,
      base: nat, k: nat)
    requires k < |events| && (parent.Some? ==> parent.value < base)
    requires Sits(table, ForestRows(events, owner, parent, region, ordinal, base), base)
    requires Closed(table, base, base + ForestSize(events))
    ensures |Tops(events, base)| == |events|
    ensures Stands(table, events[k], owner, parent, region, ordinal + k, Tops(events, base)[k])
    decreases |events|
  {
    hide EventRows, ForestRows, ForestSize, Size, Sits;
    TopRows(events, owner, parent, region, ordinal, base, k);
    var after := base + Size(events[0]);
    FirstOfForest(events, owner, parent, region, ordinal, base);
    SitsParts(table, EventRows(events[0], owner, parent, region, ordinal, base),
              ForestRows(events[1..], owner, parent, region, ordinal + 1, after), base);
    forall j | after <= j < |table| && table[j].parent.Some?
      ensures !(base <= table[j].parent.value < after)
    {
      if j < base + ForestSize(events) {
        ForestIsClosed(table, events[1..], owner, parent, region, ordinal + 1, after, base, j);
      }
    }
    if k > 0 {
      SiblingsStand(table, events[1..], owner, parent, region, ordinal + 1, after, k - 1);
    }
  }

  lemma RegionLists(
      table: seq<Row>, events: seq<FlowEvent>, owner: nat, p: nat, region: Region, base: nat)
    requires p < base && p < |table|
    requires Sits(table, ForestRows(events, owner, Some(p), region, 0, base), base)
    requires Closed(table, base, base + ForestSize(events))
    requires KidsRange(table, p, region, p + 1, |table|) == Tops(events, base)
    ensures Lists(table, p, region, events, owner)
  {
    hide *;
    TopsCount(events, base);
    forall k | 0 <= k < |events|
      ensures Stands(table, events[k], owner, Some(p), region, k, Tops(events, base)[k])
    {
      SiblingsStand(table, events, owner, Some(p), region, 0, base, k);
    }
    ListsFrom(table, p, region, events, owner, base);
  }

  lemma {:induction false} TopsCount(events: seq<FlowEvent>, base: nat)
    ensures |Tops(events, base)| == |events|
    decreases |events|
  {
    if events != [] {
      TopsCount(events[1..], base + Size(events[0]));
    }
  }

  lemma ListsFrom(table: seq<Row>, p: nat, region: Region, events: seq<FlowEvent>, owner: nat, base: nat)
    requires p < |table| && |Tops(events, base)| == |events|
    requires KidsRange(table, p, region, p + 1, |table|) == Tops(events, base)
    requires forall k :: 0 <= k < |events| ==>
               Stands(table, events[k], owner, Some(p), region, k, Tops(events, base)[k])
    ensures Lists(table, p, region, events, owner)
  {
    hide Stands, Tops, KidsRange;
  }

  /** The slots of an event, each listed under its own region. */
  lemma SlotsAreListed(
      table: seq<Row>, e: FlowEvent, owner: nat, parent: Option<nat>, region: Region, ordinal: nat, base: nat)
    requires Stands(table, e, owner, parent, region, ordinal, base)
    ensures base < |table| && table[base] == Row(base, owner, parent, region, ordinal, PayloadOf(e))
    ensures var slots, regions := SlotsOf(e), RegionsOf(PayloadOf(e));
            && Lists(table, base, regions.first, slots.first, owner)
            && Lists(table, base, regions.second, slots.second, owner)
            && Lists(table, base, regions.third, slots.third, owner)
  {
    hide *;
    StandsSits(table, e, owner, parent, region, ordinal, base);
    var slots, regions := SlotsOf(e), RegionsOf(PayloadOf(e));
    var at2 := base + 1 + ForestSize(slots.first);
    var at3 := at2 + ForestSize(slots.second);
    OwnRow(e, owner, parent, region, ordinal, base);
    EventSits(table, e, owner, parent, region, ordinal, base);
    SlotsClosed(table, e, owner, base);
    SlotKids(table, e, owner, base);
    RegionLists(table, slots.first, owner, base, regions.first, base + 1);
    RegionLists(table, slots.second, owner, base, regions.second, at2);
    RegionLists(table, slots.third, owner, base, regions.third, at3);
  }

  lemma StandsSits(
      table: seq<Row>, e: FlowEvent, owner: nat, parent: Option<nat>, region: Region, ordinal: nat, base: nat)
    requires Stands(table, e, owner, parent, region, ordinal, base)
    ensures Sits(table, EventRows(e, owner, parent, region, ordinal, base), base)
    ensures Closed(table, base, base + Size(e))
    ensures base < |table| && table[base] == Row(base, owner, parent, region, ordinal, PayloadOf(e))
  {
    hide EventRows, Size, PayloadOf;
    OwnRow(e, owner, parent, region, ordinal, base);
    SitsAt(table, EventRows(e, owner, parent, region, ordinal, base), base, 0);
  }

  /** What the rows of a nested event say: its own row carries its fields, and its
      regions are listed under their names. */
  lemma RegionsAreNamed(
      table: seq<Row>, e: FlowEvent, owner: nat, parent: Option<nat>, region: Region, ordinal: nat, p: nat)
    requires Stands(table, e, owner, parent, region, ordinal, p)
    ensures p < |table|
    ensures e.Branch? ==>
      && table[p] == Row(p, owner, parent, region, ordinal, PBranch(e.span, e.condition))
      && Lists(table, p, Then, e.thenEvents, owner) && Lists(table, p, Else, e.elseEvents, owner)
    ensures e.Loop? ==>
      && table[p] == Row(p, owner, parent, region, ordinal, PLoop(e.span, e.loopKind, e.loopLabel))
      && Lists(table, p, Condition, e.conditionEvents, owner) && Lists(table, p, Body, e.loopBody, owner)
      && Lists(table, p, Update, e.updateEvents, owner)
    ensures e.Try? ==>
      && table[p] == Row(p, owner, parent, region, ordinal, PTry(e.span, e.catchParam, e.catchTypes, e.catchArms))
      && Lists(table, p, Body, e.tryBody, owner) && Lists(table, p, Catch, e.catchEvents, owner)
      && Lists(table, p, Finally, e.finallyEvents, owner)
    ensures e.Defer? ==>
      table[p] == Row(p, owner, parent, region, ordinal, PDefer(e.span)) && Lists(table, p, Body, e.body, owner)
    ensures e.Using? ==>
      table[p] == Row(p, owner, parent, region, ordinal, PUsing(e.span)) && Lists(table, p, Body, e.body, owner)
  {
    hide Stands, Lists;
    SlotsAreListed(table, e, owner, parent, region, ordinal, p);
  }

  /** What the row of a plain event says. */
  lemma FieldsAreShown(
      table: seq<Row>, e: FlowEvent, owner: nat, parent: Option<nat>, region: Region, ordinal: nat, p: nat)
    requires Stands(table, e, owner, parent, region, ordinal, p)
    ensures p < |table| && table[p] == Row(p, owner, parent, region, ordinal, table[p].payload)
    ensures e.Call? ==>
      table[p].payload == PCall(e.span, e.name, e.receiver, e.receiverTypes, e.callKind, e.args)
    ensures e.Assign? ==>
      table[p].payload == PAssign(e.span, e.target, e.sourceName, e.sourceCall, e.sourceCallArgs, e.sourceNames,
                                  e.declaresNewBinding, e.valueKind)
    ensures e.AggregateAssign? ==>
      table[p].payload == PAggregateAssign(e.span, e.aggregateTarget, e.typeName, e.flow)
    ensures e.Return? ==> table[p].payload == PReturn(e.span, e.returnKind, e.text, e.value, e.flow)
    ensures e.Throw? ==> table[p].payload == PThrow(e.span, e.value, e.thrownType)
    ensures e.Break? ==>
      table[p].payload == match e.control
                          case None => PBreak(e.span, None, None)
                          case Some(Label(loop)) => PBreak(e.span, Some(loop), None)
                          case Some(Levels(levels)) => PBreak(e.span, None, Some(levels))
    ensures e.Continue? ==>
      table[p].payload == match e.control
                          case None => PContinue(e.span, None, None)
                          case Some(Label(loop)) => PContinue(e.span, Some(loop), None)
                          case Some(Levels(levels)) => PContinue(e.span, None, Some(levels))
    ensures e.Yield? ==> table[p].payload == PYield(e.span, e.text, e.flow)
    ensures e.Await? ==> table[p].payload == PAwait(e.span, e.value)
    ensures e.Lifecycle? ==> table[p].payload == PLifecycle(e.span, e.name, e.transition)
  {
    hide Stands, Sits, Closed;
    StandsSits(table, e, owner, parent, region, ordinal, p);
  }

  /** The roots of a flattened forest stand at the ids returned, and so, region by
      region, does every event below them. */
  lemma RootsStand(events: seq<FlowEvent>, owner: nat, table: seq<Row>, later: seq<Row>, k: nat)
    requires forall r :: r in later && r.parent.Some? ==> r.parent.value >= |table| + ForestSize(events)
    requires k < |events|
    ensures var out := table + ForestRows(events, owner, None, Root, 0, |table|) + later;
            && |Tops(events, |table|)| == |events|
            && Stands(out, events[k], owner, None, Root, k, Tops(events, |table|)[k])
  {
    hide ForestRows, ForestSize, Tops, Stands;
    var rows := ForestRows(events, owner, None, Root, 0, |table|);
    var out := table + rows + later;
    assert out[|table|..|table| + |rows|] == rows;
    forall j | |table| + |rows| <= j < |out| && out[j].parent.Some?
      ensures !(|table| <= out[j].parent.value < |table| + |rows|)
    {
      assert out[j] == later[j - |table| - |rows|] && out[j] in later;
    }
    SiblingsStand(out, events, owner, None, Root, 0, |table|, k);
  }

  /** What a later flattening appends never points back into earlier rows. */
  lemma LaterRowsPointForward(events: seq<FlowEvent>, owner: nat, base: nat, r: Row)
    requires r in ForestRows(events, owner, None, Root, 0, base)
    ensures r.parent.Some? ==> base <= r.parent.value < r.eventId
  {
    hide ForestRows, ForestSize;
    var rows := ForestRows(events, owner, None, Root, 0, base);
    var j :| 0 <= j < |rows| && rows[j] == r;
    ForestParents(events, owner, None, Root, 0, base, j);
  }

  // ------------------------------------------------------------- call sites

  function CallSpans(e: FlowEvent): set<Span>
    decreases Size(e), 0
  {
    SizeUnfolds(e);
    var slots := SlotsOf(e);
    (if e.Call? then {e.span} else {}) + ForestCalls(slots.first) + ForestCalls(slots.second) + ForestCalls(slots.third)
  }

  /** The spans of every call anywhere in a forest. */
  function ForestCalls(events: seq<FlowEvent>): set<Span>
    decreases ForestSize(events), 1
  {
    if events == [] then {} else CallSpans(events[0]) + ForestCalls(events[1..])
  }

  /** The spans of the call rows of a table. */
  ghost function RowCalls(rows: seq<Row>): set<Span> {
    set r | r in rows && r.payload.PCall? :: r.payload.span
  }

  lemma RowCallsAppend(a: seq<Row>, b: seq<Row>)
    ensures RowCalls(a + b) == RowCalls(a) + RowCalls(b)
  {
  }

  lemma {:induction false} EventCallsListed(
      e: FlowEvent, owner: nat, parent: Option<nat>, region: Region, ordinal: nat, base: nat)
    ensures RowCalls(EventRows(e, owner, parent, region, ordinal, base)) == CallSpans(e)
    decreases Size(e), 0
  {
    hide EventRows, ForestRows, Size, ForestSize, ForestCalls, SlotsOf, RowCalls;
    var slots, regions := SlotsOf(e), RegionsOf(PayloadOf(e));
    var at2 := base + 1 + ForestSize(slots.first);
    var at3 := at2 + ForestSize(slots.second);
    var own := [Row(base, owner, parent, region, ordinal, PayloadOf(e))];
    var f1 := ForestRows(slots.first, owner, Some(base), regions.first, 0, base + 1);
    var f2 := ForestRows(slots.second, owner, Some(base), regions.second, 0, at2);
    var f3 := ForestRows(slots.third, owner, Some(base), regions.third, 0, at3);
    SizeUnfolds(e);
    RowsOfEvent(e, owner, parent, region, ordinal, base);
    ForestCallsListed(slots.first, owner, Some(base), regions.first, 0, base + 1);
    ForestCallsListed(slots.second, owner, Some(base), regions.second, 0, at2);
    ForestCallsListed(slots.third, owner, Some(base), regions.third, 0, at3);
    RowCallsAppend(own + f1 + f2, f3);
    RowCallsAppend(own + f1, f2);
    RowCallsAppend(own, f1);
    OwnCall(e, owner, parent, region, ordinal, base);
  }

  lemma OwnCall(e: FlowEvent, owner: nat, parent: Option<nat>, region: Region, ordinal: nat, base: nat)
    ensures RowCalls([Row(base, owner, parent, region, ordinal, PayloadOf(e))]) == if e.Call? then {e.span} else {}
  {
  }

  /** The call rows of the table are the call sites of the forest. */
  lemma {:induction false} ForestCallsListed(
      events: seq<FlowEvent>, owner: nat, parent: Option<nat>, region: Region, ordinal: nat, base: nat)
    ensures RowCalls(ForestRows(events, owner, parent, region, ordinal, base)) == ForestCalls(events)
    decreases ForestSize(events), 1
  {
    hide EventRows, ForestRows, Size, ForestSize, CallSpans, ForestCalls, RowCalls;
    if events == [] {
      EmptyRegion([], owner, parent, region, ordinal, base);
      NoCallsInNothing(events);
    } else {
      CallsOfFirst(events);
      var after := base + Size(events[0]);
      FirstOfForest(events, owner, parent, region, ordinal, base);
      SizeUnfolds(events[0]);
      EventCallsListed(events[0], owner, parent, region, ordinal, base);
      ForestCallsListed(events[1..], owner, parent, region, ordinal + 1, after);
      RowCallsAppend(EventRows(events[0], owner, parent, region, ordinal, base),
                     ForestRows(events[1..], owner, parent, region, ordinal + 1, after));
    }
  }

  ghost function PendingCalls(pending: seq<seq<FlowEvent>>): set<Span> {
    if pending == [] then {} else PendingCalls(pending[..|pending| - 1]) + ForestCalls(pending[|pending| - 1])
  }

  /** A bound on the visits still to come: an event queues at most three
      regions. */
  ghost function PendingSize(pending: seq<seq<FlowEvent>>): nat {
    if pending == [] then 0 else PendingSize(pending[..|pending| - 1]) + 3 * ForestSize(pending[|pending| - 1]) + 1
  }

  method PushSlice(pending: seq<seq<FlowEvent>>, events: seq<FlowEvent>) returns (pushed: seq<seq<FlowEvent>>)
    ensures PendingCalls(pushed) == PendingCalls(pending) + ForestCalls(events)
    ensures PendingSize(pushed) == PendingSize(pending) + 3 * ForestSize(events) + 1
  {
    pushed := pending + [events];
  }

  /** One event's contribution: its own span, and its regions to visit. */
  method NoteEvent(e: FlowEvent, pending: seq<seq<FlowEvent>>, sites: set<Span>)
    returns (pushed: seq<seq<FlowEvent>>, noted: set<Span>)
    ensures noted + PendingCalls(pushed) == sites + PendingCalls(pending) + CallSpans(e)
    ensures PendingSize(pushed) <= PendingSize(pending) + 3 * Size(e)
  {
    SizeUnfolds(e);
    CallsUnfold(e);
    hide PendingCalls, PendingSize, CallSpans, Size;
    pushed, noted := pending, sites;
    match e {
      case Call(span, _, _, _, _, _) =>
        noted := noted + {span};
      case Branch(_, _, thenEvents, elseEvents) =>
        pushed := PushSlice(pushed, thenEvents);
        pushed := PushSlice(pushed, elseEvents);
      case Loop(_, _, _, condition, update, body) =>
        pushed := PushSlice(pushed, condition);
        pushed := PushSlice(pushed, body);
        pushed := PushSlice(pushed, update);
      case Try(_, body, catchEvents, finallyEvents, _, _, _) =>
        pushed := PushSlice(pushed, body);
        pushed := PushSlice(pushed, catchEvents);
        pushed := PushSlice(pushed, finallyEvents);
      case Defer(_, body) =>
        pushed := PushSlice(pushed, body);
      case Using(_, body) =>
        pushed := PushSlice(pushed, body);
      case _ =>
    }
  }

  lemma CallsUnfold(e: FlowEvent)
    ensures var slots := SlotsOf(e);
            CallSpans(e) == (if e.Call? then {e.span} else {}) +
                            ForestCalls(slots.first) + ForestCalls(slots.second) + ForestCalls(slots.third)
    ensures ForestCalls([]) == {}
  {
  }

  lemma CallsOfFirst(events: seq<FlowEvent>)
    requires events != []
    ensures ForestCalls(events) == CallSpans(events[0]) + ForestCalls(events[1..])
    ensures ForestSize(events) == Size(events[0]) + ForestSize(events[1..])
  {
  }

  /** Collect the call sites of a forest with an explicit stack of slices. */
  method CollectCallSites(events: seq<FlowEvent>, known: set<Span>) returns (sites: set<Span>)
    ensures sites == known + ForestCalls(events)
  {
    hide ForestCalls, CallSpans, Size, ForestSize;
    sites := known;
    var pending := PushSlice([], events);
    while pending != []
      invariant sites + PendingCalls(pending) == known + ForestCalls(events)
      decreases PendingSize(pending)
    {
      var slice, rest := pending[|pending| - 1], pending[..|pending| - 1];
      assert pending == rest + [slice];
      ghost var budget := PendingSize(pending);
      pending := rest;
      for k := 0 to |slice|
        invariant sites + PendingCalls(pending) + ForestCalls(slice[k..]) == known + ForestCalls(events)
        invariant PendingSize(pending) + 3 * ForestSize(slice[k..]) < budget
      {
        CallsOfFirst(slice[k..]);
        assert slice[k..][1..] == slice[k + 1..];
        pending, sites := NoteEvent(slice[k], pending, sites);
      }
      NoCallsInNothing(slice[|slice|..]);
    }
  }

  lemma NoCallsInNothing(events: seq<FlowEvent>)
    requires events == []
    ensures ForestCalls(events) == {} && ForestSize(events) == 0 && RowCalls([]) == {}
  {
  }

  /** The two walks agree: the call rows appended to a table are the spans the
      collector adds. */
  lemma TableCallsAreCollected(events: seq<FlowEvent>, owner: nat, table: seq<Row>)
    ensures RowCalls(table + ForestRows(events, owner, None, Root, 0, |table|)) ==
            RowCalls(table) + ForestCalls(events)
  {
    hide ForestRows, ForestCalls, RowCalls;
    ForestCallsListed(events, owner, None, Root, 0, |table|);
    RowCallsAppend(table, ForestRows(events, owner, None, Root, 0, |table|));
  }
}
