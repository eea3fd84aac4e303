/** The abstract value lattice: intervals, boolean and nullness domains, the
    widening join, the facets read off a value, and what each value stands for. */
module AbstractValues {
  import opened Prelude

  type TypeId = nat

  /** A closed integer interval; `None` leaves that side unbounded. */
  datatype Interval = Interval(min: Option<int>, max: Option<int>) {
    predicate Contains(v: int) {
      && (min.Some? ==> min.value <= v)
      && (max.Some? ==> v <= max.value)
    }

    function Join(other: Interval): Interval {
      Interval(
        if min.Some? && other.min.Some?
        then Some(if min.value <= other.min.value then min.value else other.min.value) else None,
        if max.Some? && other.max.Some?
        then Some(if max.value >= other.max.value then max.value else other.max.value) else None)
    }
  }

  function Singleton(v: int): Interval {
    Interval(Some(v), Some(v))
  }

  datatype BoolDomain = BoolDomain(canBeTrue: bool, canBeFalse: bool) {
    predicate Contains(b: bool) {
      if b then canBeTrue else canBeFalse
    }

    function Join(other: BoolDomain): BoolDomain {
      BoolDomain(canBeTrue || other.canBeTrue, canBeFalse || other.canBeFalse)
    }
  }

  function SingletonBool(b: bool): BoolDomain {
    BoolDomain(b, !b)
  }

  datatype Nullness = UnknownNullness | DefinitelyNull | NonNull | MaybeNull {
    function Join(other: Nullness): Nullness {
      if UnknownNullness? || other.UnknownNullness? then UnknownNullness
      else if DefinitelyNull? && other.DefinitelyNull? then DefinitelyNull
      else if NonNull? && other.NonNull? then NonNull
      else MaybeNull
    }
  }

  datatype AbstractValue =
    | Unknown
    | ConstInt(i: int)
    | IntRange(range: Interval)
    | ConstBool(b: bool)
    | Bool(domain: BoolDomain)
    | ConstString(s: Text)
    | StringWithLength(length: Interval)
    | Null
    | Nullable(inner: AbstractValue)
    | Object(objectType: TypeId)
    | SetOf(values: seq<AbstractValue>)
    | Top(topType: TypeId)

  const SET_WIDEN_THRESHOLD := 8

  // ---------------------------------------------------------------- join

  /** How many `Nullable` wrappers enclose a value. */
  function NullableDepth(a: AbstractValue): nat {
    if a.Nullable? then 1 + NullableDepth(a.inner) else 0
  }

  function WithNull(a: AbstractValue): AbstractValue {
    if a.Unknown? || a.Null? || a.Nullable? then a else Nullable(a)
  }

  /** `left` followed by the members of `right` it does not hold yet. */
  function Absorb(left: seq<AbstractValue>, right: seq<AbstractValue>): seq<AbstractValue>
    decreases |right|
  {
    if right == [] then left
    else
      var last := right[|right| - 1];
      var before := Absorb(left, right[..|right| - 1]);
      if last in before then before else before + [last]
  }

  function Widen(values: seq<AbstractValue>): AbstractValue {
    if |values| > SET_WIDEN_THRESHOLD then Unknown else SetOf(values)
  }

  function Join(a: AbstractValue, b: AbstractValue): AbstractValue
    decreases NullableDepth(a) + NullableDepth(b)
  {
    if a == b then a
    else if a.Unknown? || b.Unknown? then Unknown
    else if a.ConstInt? && b.ConstInt? then IntRange(Singleton(a.i).Join(Singleton(b.i)))
    else if a.ConstInt? && b.IntRange? then IntRange(b.range.Join(Singleton(a.i)))
    else if a.IntRange? && b.ConstInt? then IntRange(a.range.Join(Singleton(b.i)))
    else if a.IntRange? && b.IntRange? then IntRange(a.range.Join(b.range))
    else if a.ConstBool? && b.ConstBool? then Bool(SingletonBool(a.b).Join(SingletonBool(b.b)))
    else if a.ConstBool? && b.Bool? then Bool(b.domain.Join(SingletonBool(a.b)))
    else if a.Bool? && b.ConstBool? then Bool(a.domain.Join(SingletonBool(b.b)))
    else if a.Bool? && b.Bool? then Bool(a.domain.Join(b.domain))
    else if a.ConstString? && b.StringWithLength? then StringWithLength(Singleton(|a.s|).Join(b.length))
    else if a.StringWithLength? && b.ConstString? then StringWithLength(Singleton(|b.s|).Join(a.length))
    else if a.StringWithLength? && b.StringWithLength? then StringWithLength(a.length.Join(b.length))
    else if a.Null? then WithNull(b)
    else if b.Null? then WithNull(a)
    else if a.Nullable? && b.Nullable? then Nullable(Join(a.inner, b.inner))
    else if a.Nullable? then Nullable(Join(a.inner, b))
    else if b.Nullable? then Nullable(Join(b.inner, a))
    else if a.SetOf? && b.SetOf? then Widen(Absorb(a.values, b.values))
    else if a.SetOf? then Widen(Absorb(a.values, [b]))
    else if b.SetOf? then Widen(Absorb(b.values, [a]))
    else SetOf([a, b])
  }

  /** The join as it runs: recursion under `Nullable`, a push loop for sets. */
  method ComputeJoin(a: AbstractValue, b: AbstractValue) returns (r: AbstractValue)
    ensures r == Join(a, b)
    decreases NullableDepth(a) + NullableDepth(b)
  {
    if a == b || a.Unknown? || b.Unknown? || a.Null? || b.Null? {
      return Join(a, b);
    }
    if a.Nullable? || b.Nullable? {
      var inner;
      if a.Nullable? && b.Nullable? {
        inner := ComputeJoin(a.inner, b.inner);
      } else if a.Nullable? {
        inner := ComputeJoin(a.inner, b);
      } else {
        inner := ComputeJoin(b.inner, a);
      }
      return Nullable(inner);
    }
    if a.SetOf? || b.SetOf? {
      var members := if a.SetOf? then a.values else b.values;
      var incoming := if a.SetOf? && b.SetOf? then b.values else if a.SetOf? then [b] else [a];
      ghost var original := members;
      for k := 0 to |incoming|
        invariant members == Absorb(original, incoming[..k])
      {
        assert incoming[..k + 1][..k] == incoming[..k];
        if incoming[k] !in members {
          members := members + [incoming[k]];
        }
      }
      assert incoming[..|incoming|] == incoming;
      return Widen(members);
    }
    return Join(a, b);
  }

  // ------------------------------------------------------- concretization

  datatype Payload = PInt(i: int) | PBool(b: bool) | PStr(s: Text) | PObject(identity: nat)

  /** A run-time value: null, or a payload tagged with its run-time type. */
  datatype Concrete = CNull | CValue(ty: TypeId, payload: Payload)

  /** `c` is one of the run-time values `a` describes. */
  ghost predicate Describes(a: AbstractValue, c: Concrete) {
    match a
    case Unknown => true
    case ConstInt(i) => c.CValue? && c.payload == PInt(i)
    case IntRange(r) => c.CValue? && c.payload.PInt? && r.Contains(c.payload.i)
    case ConstBool(b) => c.CValue? && c.payload == PBool(b)
    case Bool(d) => c.CValue? && c.payload.PBool? && d.Contains(c.payload.b)
    case ConstString(s) => c.CValue? && c.payload == PStr(s)
    case StringWithLength(r) => c.CValue? && c.payload.PStr? && r.Contains(|c.payload.s|)
    case Null => c.CNull?
    case Nullable(inner) => c.CNull? || Describes(inner, c)
    case Object(t) => c.CValue? && c.ty == t && c.payload.PObject?
    case SetOf(values) => exists v :: v in values && Describes(v, c)
    case Top(t) => c.CValue? && c.ty == t
  }

  lemma {:induction false} AbsorbKeeps(left: seq<AbstractValue>, right: seq<AbstractValue>)
    ensures left <= Absorb(left, right)
    ensures forall v :: v in Absorb(left, right) <==> v in left || v in right
    ensures Distinct(left) ==> Distinct(Absorb(left, right))
    ensures (forall v :: v in right ==> v in left) ==> Absorb(left, right) == left
    decreases |right|
  {
    if right != [] {
      var init := right[..|right| - 1];
      AbsorbKeeps(left, init);
      assert right == init + [right[|right| - 1]];
    }
  }

  /** The join describes everything either side describes, whatever the two
      values are. */
  lemma {:induction false} JoinIsUpperBound(a: AbstractValue, b: AbstractValue, c: Concrete)
    requires Describes(a, c) || Describes(b, c)
    ensures Describes(Join(a, b), c)
    decreases NullableDepth(a) + NullableDepth(b)
  {
    if a == b || a.Unknown? || b.Unknown? || a.Null? || b.Null? {
    } else if a.Nullable? && b.Nullable? {
      if !c.CNull? { JoinIsUpperBound(a.inner, b.inner, c); }
    } else if a.Nullable? {
      if Describes(a.inner, c) || Describes(b, c) { JoinIsUpperBound(a.inner, b, c); }
    } else if b.Nullable? {
      if Describes(b.inner, c) || Describes(a, c) { JoinIsUpperBound(b.inner, a, c); }
    } else if a.SetOf? || b.SetOf? {
      SetJoinIsUpperBound(a, b, c);
    } else if Join(a, b).SetOf? {
      assert a in Join(a, b).values && b in Join(a, b).values;
    }
  }

  lemma SetJoinIsUpperBound(a: AbstractValue, b: AbstractValue, c: Concrete)
    requires a != b && (a.SetOf? || b.SetOf?)
    requires !a.Unknown? && !b.Unknown? && !a.Null? && !b.Null? && !a.Nullable? && !b.Nullable?
    requires Describes(a, c) || Describes(b, c)
    ensures Describes(Join(a, b), c)
  {
    var left := if a.SetOf? then a.values else b.values;
    var right := if a.SetOf? && b.SetOf? then b.values else if a.SetOf? then [b] else [a];
    AbsorbKeeps(left, right);
    assert Join(a, b) == Widen(Absorb(left, right));
    var v :| (v in left || v in right) && Describes(v, c);
  }

  // --------------------------------------------------- normal form, absorption

  /** A value that stands alone: neither null, nullable, a set nor unknown. */
  predicate Atom(a: AbstractValue) {
    !a.Unknown? && !a.Null? && !a.Nullable? && !a.SetOf?
  }

  /** An atom, or a flat duplicate-free set of two to eight atoms. */
  ghost predicate Flat(a: AbstractValue) {
    || Atom(a)
    || (a.SetOf? && 2 <= |a.values| <= SET_WIDEN_THRESHOLD && Distinct(a.values)
        && forall v :: v in a.values ==> Atom(v))
  }

  ghost predicate NormalForm(a: AbstractValue) {
    || a.Unknown? || a.Null? || Flat(a)
    || (a.Nullable? && (a.inner.Unknown? || Flat(a.inner)))
  }

  lemma JoinFlat(a: AbstractValue, b: AbstractValue)
    requires Flat(a) && Flat(b)
    ensures Join(a, b).Unknown? || Flat(Join(a, b))
  {
    hide Absorb, Widen;
    if a != b && (a.SetOf? || b.SetOf?) {
      SetJoinFlat(a, b);
    }
  }

  lemma SetJoinFlat(a: AbstractValue, b: AbstractValue)
    requires Flat(a) && Flat(b) && a != b && (a.SetOf? || b.SetOf?)
    ensures Join(a, b).Unknown? || Flat(Join(a, b))
  {
    var left := if a.SetOf? then a.values else b.values;
    var right := if a.SetOf? && b.SetOf? then b.values else if a.SetOf? then [b] else [a];
    hide Absorb;
    AbsorbKeeps(left, right);
    assert Join(a, b) == Widen(Absorb(left, right));
  }

  /** The join never leaves the normal form. */
  lemma JoinKeepsNormalForm(a: AbstractValue, b: AbstractValue)
    requires NormalForm(a) && NormalForm(b)
    ensures NormalForm(Join(a, b))
  {
    var x := if a.Nullable? then a.inner else a;
    var y := if b.Nullable? then b.inner else b;
    if Flat(x) && Flat(y) {
      JoinFlat(x, y);
      JoinFlat(y, x);
    }
  }

  /** Joining either operand again changes nothing.  This needs no normal form:
      a set past the threshold has already collapsed to `Unknown`. */
  lemma {:induction false} JoinAbsorbs(a: AbstractValue, b: AbstractValue)
    ensures Join(Join(a, b), a) == Join(a, b)
    ensures Join(Join(a, b), b) == Join(a, b)
    decreases NullableDepth(a) + NullableDepth(b)
  {
    hide Absorb, Widen;
    if a == b || a.Unknown? || b.Unknown? || a.Null? || b.Null? {
    } else if a.Nullable? && b.Nullable? {
      JoinAbsorbs(a.inner, b.inner);
    } else if a.Nullable? {
      JoinAbsorbs(a.inner, b);
    } else if b.Nullable? {
      JoinAbsorbs(b.inner, a);
    } else if a.SetOf? || b.SetOf? {
      SetJoinAbsorbs(a, b);
    } else {
      AtomJoinAbsorbs(a, b);
    }
  }

  lemma AtomJoinAbsorbs(a: AbstractValue, b: AbstractValue)
    requires Atom(a) && Atom(b) && a != b
    ensures Join(Join(a, b), a) == Join(a, b)
    ensures Join(Join(a, b), b) == Join(a, b)
  {
    var j := Join(a, b);
    if j.SetOf? {
      AbsorbKeeps(j.values, [a]);
      AbsorbKeeps(j.values, [b]);
    }
  }

  /** The members a value contributes to a set. */
  function Members(a: AbstractValue): seq<AbstractValue> {
    if a.SetOf? then a.values else [a]
  }

  lemma SetHolds(all: seq<AbstractValue>, x: AbstractValue)
    requires |all| <= SET_WIDEN_THRESHOLD && (Atom(x) || x.SetOf?)
    requires forall v :: v in Members(x) ==> v in all
    ensures Join(SetOf(all), x) == SetOf(all)
  {
    AbsorbKeeps(all, Members(x));
  }

  /** Every join that involves a set is the widened union of the members. */
  lemma SetJoinUnfolds(a: AbstractValue, b: AbstractValue) returns (all: seq<AbstractValue>)
    requires a != b && (a.SetOf? || b.SetOf?)
    requires (Atom(a) || a.SetOf?) && (Atom(b) || b.SetOf?)
    ensures Join(a, b) == Widen(all)
    ensures forall v :: v in all <==> v in Members(a) || v in Members(b)
    ensures Distinct(Members(a)) && Distinct(Members(b)) ==> Distinct(all)
  {
    var left := if a.SetOf? then a else b;
    var right := if a.SetOf? then b else a;
    all := Absorb(left.values, Members(right));
    AbsorbKeeps(left.values, Members(right));
  }

  lemma SetJoinAbsorbs(a: AbstractValue, b: AbstractValue)
    requires a != b && (a.SetOf? || b.SetOf?)
    requires (Atom(a) || a.SetOf?) && (Atom(b) || b.SetOf?)
    ensures Join(Join(a, b), a) == Join(a, b)
    ensures Join(Join(a, b), b) == Join(a, b)
  {
    var all := SetJoinUnfolds(a, b);
    if |all| <= SET_WIDEN_THRESHOLD {
      SetHolds(all, a);
      SetHolds(all, b);
    }
  }

  // ------------------------------------------------------------- precision

  /** No proof is left about the value, null aside. */
  predicate Lost(a: AbstractValue) {
    a.Unknown? || (a.Nullable? && a.inner.Unknown?)
  }

  function Stripped(a: AbstractValue): AbstractValue {
    if a.Nullable? then a.inner else a
  }

  /** `c` lies between the two operands: in the interval hull of their integers
      or in the hull of their string lengths. */
  ghost predicate Between(a: AbstractValue, b: AbstractValue, c: Concrete) {
    && c.CValue?
    && (|| (c.payload.PInt? && IntRangeOf(a).Some? && IntRangeOf(b).Some?
            && IntRangeOf(a).value.Join(IntRangeOf(b).value).Contains(c.payload.i))
        || (c.payload.PStr? && StringLengthOf(a).Some? && StringLengthOf(b).Some?
            && StringLengthOf(a).value.Join(StringLengthOf(b).value).Contains(|c.payload.s|)))
  }

  lemma FlatJoinIsTight(a: AbstractValue, b: AbstractValue, c: Concrete)
    requires Flat(a) && Flat(b) && !Join(a, b).Unknown?
    requires Describes(Join(a, b), c)
    ensures Describes(a, c) || Describes(b, c) || Between(a, b, c)
  {
    if a != b && (a.SetOf? || b.SetOf?) {
      SetJoinIsTight(a, b, c);
    } else if a != b {
      AtomJoinIsTight(a, b, c);
    }
  }

  lemma SetJoinIsTight(a: AbstractValue, b: AbstractValue, c: Concrete)
    requires Flat(a) && Flat(b) && a != b && (a.SetOf? || b.SetOf?) && !Join(a, b).Unknown?
    requires Describes(Join(a, b), c)
    ensures Describes(a, c) || Describes(b, c)
  {
    hide Join;
    var all := SetJoinUnfolds(a, b);
    var v :| v in all && Describes(v, c);
    assert v in Members(a) || v in Members(b);
  }

  lemma AtomJoinIsTight(a: AbstractValue, b: AbstractValue, c: Concrete)
    requires Atom(a) && Atom(b) && a != b && Describes(Join(a, b), c)
    ensures Describes(a, c) || Describes(b, c) || Between(a, b, c)
  {
    if Join(a, b) == SetOf([a, b]) {
      var v :| v in [a, b] && Describes(v, c);
    }
  }

  /** The join adds nothing but interval hulls: unless the proof is lost, each
      value described is described by an operand or lies between the two. */
  lemma JoinIsTight(a: AbstractValue, b: AbstractValue, c: Concrete)
    requires NormalForm(a) && NormalForm(b) && !Lost(Join(a, b))
    requires Describes(Join(a, b), c)
    ensures Describes(a, c) || Describes(b, c) || Between(Stripped(a), Stripped(b), c)
  {
    var x, y := Stripped(a), Stripped(b);
    if Flat(x) && Flat(y) && a != b && !(c.CNull? && (a.Nullable? || b.Nullable?)) {
      if b.Nullable? && !a.Nullable? {
        FlatJoinIsTight(y, x, c);
      } else {
        FlatJoinIsTight(x, y, c);
      }
    }
  }

  /** The proof is lost exactly when an operand had none, or when a set is
      involved and more than eight distinct members meet. */
  lemma JoinLosesExactlyWhen(a: AbstractValue, b: AbstractValue)
    requires NormalForm(a) && NormalForm(b)
    ensures Lost(Join(a, b)) <==>
            || Lost(a) || Lost(b)
            || (&& Flat(Stripped(a)) && Flat(Stripped(b)) && Stripped(a) != Stripped(b)
                && (Stripped(a).SetOf? || Stripped(b).SetOf?)
                && |Elements(Members(Stripped(a)) + Members(Stripped(b)))| > SET_WIDEN_THRESHOLD)
  {
    var x, y := Stripped(a), Stripped(b);
    if Flat(x) && Flat(y) {
      FlatJoinLosesExactlyWhen(x, y);
      FlatJoinLosesExactlyWhen(y, x);
      assert Elements(Members(x) + Members(y)) == Elements(Members(y) + Members(x));
    }
  }

  /** A set is involved, and more than eight distinct members meet. */
  ghost predicate Collapses(a: AbstractValue, b: AbstractValue) {
    && Flat(Stripped(a)) && Flat(Stripped(b)) && Stripped(a) != Stripped(b)
    && (Stripped(a).SetOf? || Stripped(b).SetOf?)
    && |Elements(Members(Stripped(a)) + Members(Stripped(b)))| > SET_WIDEN_THRESHOLD
  }

  lemma FlatJoinLosesExactlyWhen(a: AbstractValue, b: AbstractValue)
    requires Flat(a) && Flat(b)
    ensures Join(a, b).Unknown? <==>
            && a != b && (a.SetOf? || b.SetOf?)
            && |Elements(Members(a) + Members(b))| > SET_WIDEN_THRESHOLD
  {
    if a != b && (a.SetOf? || b.SetOf?) {
      var all := SetJoinUnfolds(a, b);
      assert Elements(all) == Elements(Members(a) + Members(b));
      DistinctCounts(all);
    }
  }

  lemma {:induction false} DistinctCounts<T>(s: seq<T>)
    requires Distinct(s)
    ensures |Elements(s)| == |s|
  {
    if s != [] {
      var init, last := s[..|s| - 1], s[|s| - 1];
      DistinctCounts(init);
      assert s == init + [last] && last !in init;
      assert Elements(s) == Elements(init) + {last};
    }
  }

  // --------------------------------------------------------------- facets

  function IntRangeOf(a: AbstractValue): Option<Interval>
    decreases a, 1
  {
    match a
    case ConstInt(i) => Some(Singleton(i))
    case IntRange(r) => Some(r)
    case SetOf(values) => IntRangeOfAll(values)
    case _ => None
  }

  function IntRangeOfAll(values: seq<AbstractValue>): Option<Interval>
    decreases values, 0
  {
    if values == [] then None
    else
      var last := IntRangeOf(values[|values| - 1]);
      if |values| == 1 || last.None? then last
      else
        var before := IntRangeOfAll(values[..|values| - 1]);
        if before.None? then None else Some(before.value.Join(last.value))
  }

  function BoolDomainOf(a: AbstractValue): Option<BoolDomain>
    decreases a, 1
  {
    match a
    case ConstBool(b) => Some(SingletonBool(b))
    case Bool(d) => Some(d)
    case SetOf(values) => BoolDomainOfAll(values)
    case _ => None
  }

  function BoolDomainOfAll(values: seq<AbstractValue>): Option<BoolDomain>
    decreases values, 0
  {
    if values == [] then None
    else
      var last := BoolDomainOf(values[|values| - 1]);
      if |values| == 1 || last.None? then last
      else
        var before := BoolDomainOfAll(values[..|values| - 1]);
        if before.None? then None else Some(before.value.Join(last.value))
  }

  function StringLengthOf(a: AbstractValue): Option<Interval>
    decreases a, 1
  {
    match a
    case ConstString(s) => Some(Singleton(|s|))
    case StringWithLength(r) => Some(r)
    case SetOf(values) => StringLengthOfAll(values)
    case Nullable(inner) => StringLengthOf(inner)
    case _ => None
  }

  function StringLengthOfAll(values: seq<AbstractValue>): Option<Interval>
    decreases values, 0
  {
    if values == [] then None
    else
      var last := StringLengthOf(values[|values| - 1]);
      if |values| == 1 || last.None? then last
      else
        var before := StringLengthOfAll(values[..|values| - 1]);
        if before.None? then None else Some(before.value.Join(last.value))
  }

  function NullnessOf(a: AbstractValue): Nullness
    decreases a, 1
  {
    match a
    case Unknown => UnknownNullness
    case Null => DefinitelyNull
    case Nullable(_) => MaybeNull
    case SetOf(values) => if values == [] then UnknownNullness else NullnessOfAll(values)
    case _ => NonNull
  }

  function NullnessOfAll(values: seq<AbstractValue>): Nullness
    requires values != []
    decreases values, 0
  {
    var last := NullnessOf(values[|values| - 1]);
    if |values| == 1 then last else NullnessOfAll(values[..|values| - 1]).Join(last)
  }

  /** The integer facet as it runs: one pass, giving up at the first member
      without a range. */
  method ComputeIntRange(a: AbstractValue) returns (r: Option<Interval>)
    ensures r == IntRangeOf(a)
    decreases a
  {
    if !a.SetOf? {
      return IntRangeOf(a);
    }
    r := None;
    for k := 0 to |a.values|
      invariant r == IntRangeOfAll(a.values[..k])
      invariant k > 0 ==> r.Some?
    {
      assert a.values[..k + 1][..k] == a.values[..k];
      var range := ComputeIntRange(a.values[k]);
      if range.None? {
        IntRangeMissing(a.values, k);
        return None;
      }
      r := Some(if r.None? then range.value else r.value.Join(range.value));
    }
    assert a.values[..|a.values|] == a.values;
  }

  lemma {:induction false} IntRangeMissing(values: seq<AbstractValue>, k: nat)
    requires k < |values| && IntRangeOf(values[k]).None?
    ensures IntRangeOfAll(values).None?
  {
    if k < |values| - 1 {
      IntRangeMissing(values[..|values| - 1], k);
    }
  }

  /** The boolean facet as it runs. */
  method ComputeBoolDomain(a: AbstractValue) returns (r: Option<BoolDomain>)
    ensures r == BoolDomainOf(a)
    decreases a
  {
    if !a.SetOf? {
      return BoolDomainOf(a);
    }
    r := None;
    for k := 0 to |a.values|
      invariant r == BoolDomainOfAll(a.values[..k])
      invariant k > 0 ==> r.Some?
    {
      assert a.values[..k + 1][..k] == a.values[..k];
      var domain := ComputeBoolDomain(a.values[k]);
      if domain.None? {
        BoolDomainMissing(a.values, k);
        return None;
      }
      r := Some(if r.None? then domain.value else r.value.Join(domain.value));
    }
    assert a.values[..|a.values|] == a.values;
  }

  lemma {:induction false} BoolDomainMissing(values: seq<AbstractValue>, k: nat)
    requires k < |values| && BoolDomainOf(values[k]).None?
    ensures BoolDomainOfAll(values).None?
  {
    if k < |values| - 1 {
      BoolDomainMissing(values[..|values| - 1], k);
    }
  }

  /** The string-length facet as it runs. */
  method ComputeStringLength(a: AbstractValue) returns (r: Option<Interval>)
    ensures r == StringLengthOf(a)
    decreases a
  {
    if a.Nullable? {
      r := ComputeStringLength(a.inner);
      return;
    }
    if !a.SetOf? {
      return StringLengthOf(a);
    }
    r := None;
    for k := 0 to |a.values|
      invariant r == StringLengthOfAll(a.values[..k])
      invariant k > 0 ==> r.Some?
    {
      assert a.values[..k + 1][..k] == a.values[..k];
      var range := ComputeStringLength(a.values[k]);
      if range.None? {
        StringLengthMissing(a.values, k);
        return None;
      }
      r := Some(if r.None? then range.value else r.value.Join(range.value));
    }
    assert a.values[..|a.values|] == a.values;
  }

  lemma {:induction false} StringLengthMissing(values: seq<AbstractValue>, k: nat)
    requires k < |values| && StringLengthOf(values[k]).None?
    ensures StringLengthOfAll(values).None?
  {
    if k < |values| - 1 {
      StringLengthMissing(values[..|values| - 1], k);
    }
  }

  /** An integer range, when there is one, bounds every value described. */
  lemma {:induction false} IntRangeIsSound(a: AbstractValue, c: Concrete)
    requires Describes(a, c) && IntRangeOf(a).Some?
    ensures c.CValue? && c.payload.PInt? && IntRangeOf(a).value.Contains(c.payload.i)
    decreases a, 1
  {
    if a.SetOf? {
      var v :| v in a.values && Describes(v, c);
      IntRangeOfMember(a.values, v, c);
    }
  }

  lemma {:induction false} IntRangeOfMember(values: seq<AbstractValue>, v: AbstractValue, c: Concrete)
    requires v in values && Describes(v, c) && IntRangeOfAll(values).Some?
    ensures c.CValue? && c.payload.PInt? && IntRangeOfAll(values).value.Contains(c.payload.i)
    decreases values, 0
  {
    if v == values[|values| - 1] {
      IntRangeIsSound(v, c);
    } else {
      assert v in values[..|values| - 1];
      IntRangeOfMember(values[..|values| - 1], v, c);
    }
  }

  lemma {:induction false} HullHolds(values: seq<AbstractValue>, v: AbstractValue)
    requires v in values && IntRangeOfAll(values).Some?
    ensures IntRangeOf(v).Some?
    ensures IntRangeOfAll(values).value.Join(IntRangeOf(v).value) == IntRangeOfAll(values).value
  {
    if v != values[|values| - 1] {
      assert v in values[..|values| - 1];
      HullHolds(values[..|values| - 1], v);
    }
  }

  lemma {:induction false} HullOfAbsorb(left: seq<AbstractValue>, right: seq<AbstractValue>)
    requires IntRangeOfAll(left).Some? && IntRangeOfAll(right).Some?
    ensures IntRangeOfAll(Absorb(left, right)) ==
            Some(IntRangeOfAll(left).value.Join(IntRangeOfAll(right).value))
    decreases |right|
  {
    hide IntRangeOf;
    var last := right[|right| - 1];
    var before := Absorb(left, right[..|right| - 1]);
    if |right| > 1 {
      HullOfAbsorb(left, right[..|right| - 1]);
    }
    if last in before {
      HullHolds(before, last);
    } else {
      assert (before + [last])[..|before|] == before;
    }
  }

  lemma HullsSwap(r: Interval, s: Interval)
    ensures r.Join(s) == s.Join(r)
  {
  }

  /** The integer facet commutes with the join: while the proof is kept, the
      range of a join is the interval hull of the two ranges, no wider. */
  lemma IntRangeOfJoin(a: AbstractValue, b: AbstractValue)
    requires IntRangeOf(a).Some? && IntRangeOf(b).Some? && !Join(a, b).Unknown?
    ensures IntRangeOf(Join(a, b)) == Some(IntRangeOf(a).value.Join(IntRangeOf(b).value))
  {
    if a != b && (a.SetOf? || b.SetOf?) {
      var left := if a.SetOf? then a else b;
      var right := if a.SetOf? then b else a;
      assert Join(a, b) == Widen(Absorb(left.values, Members(right)));
      hide Join, Absorb;
      HullOfAbsorb(left.values, Members(right));
      HullsSwap(IntRangeOf(a).value, IntRangeOf(b).value);
    }
  }

  /** A boolean domain, when there is one, admits every value described. */
  lemma {:induction false} BoolDomainIsSound(a: AbstractValue, c: Concrete)
    requires Describes(a, c) && BoolDomainOf(a).Some?
    ensures c.CValue? && c.payload.PBool? && BoolDomainOf(a).value.Contains(c.payload.b)
    decreases a, 1
  {
    if a.SetOf? {
      var v :| v in a.values && Describes(v, c);
      BoolDomainOfMember(a.values, v, c);
    }
  }

  lemma {:induction false} BoolDomainOfMember(values: seq<AbstractValue>, v: AbstractValue, c: Concrete)
    requires v in values && Describes(v, c) && BoolDomainOfAll(values).Some?
    ensures c.CValue? && c.payload.PBool? && BoolDomainOfAll(values).value.Contains(c.payload.b)
    decreases values, 0
  {
    if v == values[|values| - 1] {
      BoolDomainIsSound(v, c);
    } else {
      assert v in values[..|values| - 1];
      BoolDomainOfMember(values[..|values| - 1], v, c);
    }
  }

  /** A length range bounds every string described; null alone escapes it. */
  lemma {:induction false} StringLengthIsSound(a: AbstractValue, c: Concrete)
    requires Describes(a, c) && StringLengthOf(a).Some? && !c.CNull?
    ensures c.payload.PStr? && StringLengthOf(a).value.Contains(|c.payload.s|)
    decreases a, 1
  {
    if a.Nullable? {
      StringLengthIsSound(a.inner, c);
    } else if a.SetOf? {
      var v :| v in a.values && Describes(v, c);
      StringLengthOfMember(a.values, v, c);
    }
  }

  lemma {:induction false} StringLengthOfMember(values: seq<AbstractValue>, v: AbstractValue, c: Concrete)
    requires v in values && Describes(v, c) && StringLengthOfAll(values).Some? && !c.CNull?
    ensures c.payload.PStr? && StringLengthOfAll(values).value.Contains(|c.payload.s|)
    decreases values, 0
  {
    if v == values[|values| - 1] {
      StringLengthIsSound(v, c);
    } else {
      assert v in values[..|values| - 1];
      StringLengthOfMember(values[..|values| - 1], v, c);
    }
  }

  /** What a nullness answer claims about one run-time value. */
  predicate NullnessAdmits(n: Nullness, c: Concrete) {
    (n.DefinitelyNull? ==> c.CNull?) && (n.NonNull? ==> !c.CNull?)
  }

  /** A definite nullness answer holds of every value described. */
  lemma {:induction false} NullnessIsSound(a: AbstractValue, c: Concrete)
    requires Describes(a, c)
    ensures NullnessAdmits(NullnessOf(a), c)
    decreases a, 1
  {
    if a.SetOf? {
      var v :| v in a.values && Describes(v, c);
      NullnessOfMember(a.values, v, c);
    }
  }

  lemma {:induction false} NullnessOfMember(values: seq<AbstractValue>, v: AbstractValue, c: Concrete)
    requires v in values && Describes(v, c)
    ensures NullnessAdmits(NullnessOfAll(values), c)
    decreases values, 0
  {
    if v == values[|values| - 1] {
      NullnessIsSound(v, c);
    } else {
      assert v in values[..|values| - 1];
      NullnessOfMember(values[..|values| - 1], v, c);
    }
  }
}
