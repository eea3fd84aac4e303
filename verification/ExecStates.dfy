/** Abstract execution states: the merge at control-flow joins, its in-place
    form, and the run-time configurations a state stands for. */
module ExecStates {
  import opened Prelude
  import opened AbstractValues

  datatype RelationOp = Eq | NotEq | Lt | Le | Gt | Ge

  datatype RelationTerm = VarTerm(name: string) | IntTerm(i: int) | BoolTerm(b: bool) | NullTerm

  datatype ValueRelation = ValueRelation(left: string, op: RelationOp, right: RelationTerm)

  /** The contents of one execution state, as a value. */
  datatype StateView = StateView(
    locals: map<string, AbstractValue>,
    constraints: seq<string>,
    relations: seq<ValueRelation>,
    currentFunc: nat,
    currentBlock: nat)

  function EmptyState(func: nat, entry: nat): StateView {
    StateView(map[], [], [], func, entry)
  }

  // ---------------------------------------------------------------- merge

  /** The elements of `s` that also occur in `t`, in order. */
  function Retain<T(==)>(s: seq<T>, t: seq<T>): seq<T> {
    if s == [] then []
    else
      var kept := Retain(s[..|s| - 1], t);
      if s[|s| - 1] in t then kept + [s[|s| - 1]] else kept
  }

  /** A name survives with a value only when both sides bind it. */
  function MergedLocals(a: map<string, AbstractValue>, b: map<string, AbstractValue>)
    : map<string, AbstractValue>
  {
    map name | name in a.Keys + b.Keys ::
      if name in a && name in b then Join(a[name], b[name]) else Unknown
  }

  function Merged(a: StateView, b: StateView): StateView {
    a.(locals := MergedLocals(a.locals, b.locals),
       constraints := Retain(a.constraints, b.constraints),
       relations := Retain(a.relations, b.relations))
  }

  lemma {:induction false} RetainFacts<T>(s: seq<T>, t: seq<T>)
    ensures forall x :: x in Retain(s, t) <==> x in s && x in t
    ensures |Retain(s, t)| <= |s|
    ensures |Retain(s, t)| == |s| <==> Retain(s, t) == s
    ensures (forall x :: x in s ==> x in t) ==> Retain(s, t) == s
  {
    if s != [] {
      RetainFacts(s[..|s| - 1], t);
      assert s == s[..|s| - 1] + [s[|s| - 1]];
    }
  }

  /** Merging either input again changes nothing. */
  lemma MergeStabilizes(a: StateView, b: StateView)
    ensures Merged(Merged(a, b), b) == Merged(a, b)
    ensures Merged(Merged(a, b), a) == Merged(a, b)
  {
    var m := Merged(a, b);
    forall name | name in a.locals && name in b.locals
      ensures Join(m.locals[name], a.locals[name]) == m.locals[name]
      ensures Join(m.locals[name], b.locals[name]) == m.locals[name]
    {
      JoinAbsorbs(a.locals[name], b.locals[name]);
    }
    assert MergedLocals(m.locals, b.locals) == m.locals;
    assert MergedLocals(m.locals, a.locals) == m.locals;
    RetainFacts(a.constraints, b.constraints);
    RetainFacts(a.relations, b.relations);
    RetainFacts(m.constraints, b.constraints);
    RetainFacts(m.relations, b.relations);
    RetainFacts(m.constraints, a.constraints);
    RetainFacts(m.relations, a.relations);
  }

  /** What the merge binds: a name bound on one side loses its proof; a name bound
      on both loses it only where the two values are too many to list, and
      otherwise describes nothing but what one side describes or what lies
      between them. */
  lemma MergeIsTight(a: StateView, b: StateView, name: string, c: Concrete)
    requires name in a.locals ==> NormalForm(a.locals[name])
    requires name in b.locals ==> NormalForm(b.locals[name])
    ensures name in Merged(a, b).locals <==> name in a.locals || name in b.locals
    ensures name in a.locals && name !in b.locals ==> Merged(a, b).locals[name] == Unknown
    ensures name !in a.locals && name in b.locals ==> Merged(a, b).locals[name] == Unknown
    ensures name in a.locals && name in b.locals ==>
      var v, x, y := Merged(a, b).locals[name], a.locals[name], b.locals[name];
      && (Lost(v) <==> Lost(x) || Lost(y) || Collapses(x, y))
      && (!Lost(v) && Describes(v, c) ==> Describes(x, c) || Describes(y, c) || Between(Stripped(x), Stripped(y), c))
  {
    if name in a.locals && name in b.locals {
      hide Join;
      JoinLosesExactlyWhen(a.locals[name], b.locals[name]);
      if !Lost(Join(a.locals[name], b.locals[name])) && Describes(Join(a.locals[name], b.locals[name]), c) {
        JoinIsTight(a.locals[name], b.locals[name], c);
      }
    }
  }

  /** A constraint or relation is held by the merge if and only if both sides
      hold it, and the place stays that of the state merged into. */
  lemma MergeKeepsShared(a: StateView, b: StateView)
    ensures forall k :: k in Merged(a, b).constraints <==> k in a.constraints && k in b.constraints
    ensures forall r :: r in Merged(a, b).relations <==> r in a.relations && r in b.relations
    ensures Merged(a, b).currentFunc == a.currentFunc && Merged(a, b).currentBlock == a.currentBlock
  {
    RetainFacts(a.constraints, b.constraints);
    RetainFacts(a.relations, b.relations);
  }

  // ------------------------------------------------------- concretization

  type Store = map<string, Concrete>

  /** A run-time configuration: the named locals, and the branch choices made so
      far. */
  datatype Config = Config(store: Store, choices: seq<string>)

  function TermValue(t: RelationTerm, store: Store): Option<Concrete> {
    match t
    case VarTerm(name) => if name in store then Some(store[name]) else None
    case IntTerm(i) => Some(CValue(0, PInt(i)))
    case BoolTerm(b) => Some(CValue(0, PBool(b)))
    case NullTerm => Some(CNull)
  }

  predicate SameValue(x: Concrete, y: Concrete) {
    if x.CNull? || y.CNull? then x.CNull? && y.CNull? else x.payload == y.payload
  }

  function IntOf(c: Concrete): Option<int> {
    if c.CValue? && c.payload.PInt? then Some(c.payload.i) else None
  }

  predicate Holds(r: ValueRelation, store: Store) {
    var right := TermValue(r.right, store);
    && r.left in store && right.Some?
    && var x, y := store[r.left], right.value;
       var m, n := IntOf(x), IntOf(y);
       match r.op
       case Eq => SameValue(x, y)
       case NotEq => !SameValue(x, y)
       case Lt => m.Some? && n.Some? && m.value < n.value
       case Le => m.Some? && n.Some? && m.value <= n.value
       case Gt => m.Some? && n.Some? && m.value > n.value
       case Ge => m.Some? && n.Some? && m.value >= n.value
  }

  /** The binding of one name is truthful: an unbound name carries no proof. */
  ghost predicate LocalHolds(a: AbstractValue, name: string, store: Store) {
    if name in store then Describes(a, store[name]) else a.Unknown?
  }

  /** `c` is one of the configurations `s` stands for. */
  ghost predicate Admits(s: StateView, c: Config) {
    && (forall name :: name in s.locals ==> LocalHolds(s.locals[name], name, c.store))
    && (forall k :: k in s.constraints ==> k in c.choices)
    && (forall r :: r in s.relations ==> Holds(r, c.store))
  }

  /** The merge stands for everything either input stands for. */
  lemma MergeAdmits(a: StateView, b: StateView, c: Config)
    requires Admits(a, c) || Admits(b, c)
    ensures Admits(Merged(a, b), c)
  {
    RetainFacts(a.constraints, b.constraints);
    RetainFacts(a.relations, b.relations);
    forall name | name in a.locals && name in b.locals
      ensures LocalHolds(Join(a.locals[name], b.locals[name]), name, c.store)
    {
      if name in c.store {
        JoinIsUpperBound(a.locals[name], b.locals[name], c.store[name]);
      }
    }
  }

  // -------------------------------------------------------- in-place state

  class ExecState {
    var locals: map<string, AbstractValue>
    var constraints: seq<string>
    var relations: seq<ValueRelation>
    var currentFunc: nat
    var currentBlock: nat

    function View(): StateView
      reads this
    {
      StateView(locals, constraints, relations, currentFunc, currentBlock)
    }

    constructor (view: StateView)
      ensures View() == view
    {
      locals, constraints, relations := view.locals, view.constraints, view.relations;
      currentFunc, currentBlock := view.currentFunc, view.currentBlock;
    }

    /** Join another incoming state into this one, in place.  The answer says
        exactly whether anything changed. */
    method MergeFrom(other: ExecState) returns (changed: bool)
      requires other != this
      modifies this
      ensures View() == Merged(old(View()), old(other.View()))
      ensures changed <==> View() != old(View())
    {
      LocalsChangeOnce(locals, other.locals);
      var dropped := DropMissing(other.locals);
      var joined := JoinBound(old(locals), other.locals);
      RetainFacts(constraints, other.constraints);
      RetainFacts(relations, other.relations);
      var keptConstraints := RetainLoop(constraints, other.constraints);
      var fewerConstraints := |keptConstraints| != |constraints|;
      constraints := keptConstraints;
      var keptRelations := RetainLoop(relations, other.relations);
      var fewerRelations := |keptRelations| != |relations|;
      relations := keptRelations;
      changed := dropped || joined || fewerConstraints || fewerRelations;
    }

    /** First pass: a name the other side does not bind loses its value. */
    method DropMissing(other: map<string, AbstractValue>) returns (changed: bool)
      modifies this`locals
      ensures locals == Dropped(old(locals), other)
      ensures changed <==> locals != old(locals)
    {
      changed := false;
      var names := locals.Keys;
      while names != {}
        invariant names <= locals.Keys == old(locals).Keys
        invariant forall n :: n in locals ==>
          locals[n] == if n in names then old(locals)[n] else Dropped(old(locals), other)[n]
        invariant changed <==> locals != old(locals)
        decreases names
      {
        var name :| name in names;
        if name !in other && locals[name] != Unknown {
          assert old(locals)[name] != Unknown;
          locals := locals[name := Unknown];
          changed := true;
        }
        names := names - {name};
      }
    }

    /** Second pass: join what both sides bind; a name new on this side carries
        no proof. */
    method JoinBound(ghost before: map<string, AbstractValue>, other: map<string, AbstractValue>)
      returns (changed: bool)
      requires locals == Dropped(before, other)
      modifies this`locals
      ensures locals == MergedLocals(before, other)
      ensures changed <==> locals != old(locals)
    {
      changed := false;
      var names := other.Keys;
      while names != {}
        invariant names <= other.Keys
        invariant locals == Joined(before, other, names)
        invariant changed <==> locals != old(locals)
        decreases names
      {
        hide *;
        var name :| name in names;
        JoinStep(before, other, names, name);
        if name in locals {
          var joined := ComputeJoin(locals[name], other[name]);
          if locals[name] != joined {
            locals := locals[name := joined];
            changed := true;
          }
        } else {
          locals := locals[name := Unknown];
          changed := true;
        }
        names := names - {name};
      }
    }

    method AssumeRelation(relation: ValueRelation)
      modifies this`relations
      ensures forall r :: r in relations <==> r in old(relations) || r == relation
      ensures Distinct(old(relations)) ==> Distinct(relations)
      ensures old(relations) <= relations
    {
      if relation !in relations {
        relations := relations + [relation];
      }
    }
  }

  function Dropped(a: map<string, AbstractValue>, b: map<string, AbstractValue>)
    : map<string, AbstractValue>
  {
    map name | name in a :: if name in b then a[name] else Unknown
  }

  /** The second pass with `names` still to come. */
  ghost function Joined(a: map<string, AbstractValue>, b: map<string, AbstractValue>, names: set<string>)
    : map<string, AbstractValue>
  {
    map name | name in a.Keys + (b.Keys - names) ::
      if name in a && name in names then a[name]
      else if name in a && name in b then Join(a[name], b[name])
      else Unknown
  }

  /** Treating one name updates it, and differs from the start exactly when
      something did before or this name does. */
  lemma JoinStep(a: map<string, AbstractValue>, b: map<string, AbstractValue>, names: set<string>, name: string)
    requires name in names && names <= b.Keys
    ensures var now, next := Joined(a, b, names), Joined(a, b, names - {name});
            && next == now[name := if name in now then Join(now[name], b[name]) else Unknown]
            && (next != Dropped(a, b) <==> now != Dropped(a, b) || next != now)
  {
    hide Join;
    var now, next, start := Joined(a, b, names), Joined(a, b, names - {name}), Dropped(a, b);
    assert name in now <==> name in start;
    if now != start {
      var n :| n in now.Keys + start.Keys && (n in now && n in start ==> now[n] != start[n]);
      assert n != name;
      assert n in next.Keys + start.Keys && (n in next && n in start ==> next[n] != start[n]);
    }
  }

  /** The second pass never undoes the first. */
  lemma LocalsChangeOnce(a: map<string, AbstractValue>, b: map<string, AbstractValue>)
    ensures MergedLocals(a, b) != a <==> Dropped(a, b) != a || MergedLocals(a, b) != Dropped(a, b)
  {
  }

  method RetainLoop<T(==)>(s: seq<T>, t: seq<T>) returns (kept: seq<T>)
    ensures kept == Retain(s, t)
  {
    kept := [];
    for k := 0 to |s|
      invariant kept == Retain(s[..k], t)
    {
      assert s[..k + 1][..k] == s[..k];
      if s[k] in t {
        kept := kept + [s[k]];
      }
    }
    assert s[..|s|] == s;
  }
}
