/** What the facets of a value answer, exactly: when they answer, and what they
    answer of a join. */
module Facets {
  import opened Prelude
  import opened AbstractValues

  // ------------------------------------------------------------- exact facets

  /** Every member describes something. */
  ghost predicate Inhabited(a: AbstractValue) {
    forall v :: v in Members(Stripped(a)) ==> exists c :: Describes(v, c)
  }

  predicate IsInt(c: Concrete) {
    c.CValue? && c.payload.PInt?
  }

  predicate IsBool(c: Concrete) {
    c.CValue? && c.payload.PBool?
  }

  predicate IsString(c: Concrete) {
    c.CValue? && c.payload.PStr?
  }

  /** An atom without a facet describes something of another kind. */
  lemma AtomsHaveOneKind(a: AbstractValue) returns (notInt: Concrete, notBool: Concrete, notString: Concrete)
    requires Atom(a) && exists c :: Describes(a, c)
    ensures Describes(a, notInt) && (IntRangeOf(a).None? ==> !IsInt(notInt))
    ensures Describes(a, notBool) && (BoolDomainOf(a).None? ==> !IsBool(notBool))
    ensures Describes(a, notString) && (StringLengthOf(a).None? ==> !IsString(notString))
  {
    var c :| Describes(a, c);
    notInt, notBool, notString := c, c, c;
    if a.Top? {
      notInt, notBool := CValue(a.topType, PBool(true)), CValue(a.topType, PInt(0));
      notString := notBool;
    }
  }

  /** The integer facet answers if and only if everything described is an
      integer. */
  lemma IntRangeAnswersExactlyWhen(a: AbstractValue)
    requires Flat(a) && Inhabited(a)
    ensures IntRangeOf(a).Some? <==> forall c :: Describes(a, c) ==> IsInt(c)
  {
    if IntRangeOf(a).Some? {
      forall c | Describes(a, c)
        ensures IsInt(c)
      {
        IntRangeIsSound(a, c);
      }
    } else {
      var v := a;
      if a.SetOf? {
        v := IntRangeMissingAt(a.values);
      }
      assert v in Members(Stripped(a));
      var c, _, _ := AtomsHaveOneKind(v);
      assert Describes(a, c) && !IsInt(c);
    }
  }

  lemma {:induction false} IntRangeMissingAt(values: seq<AbstractValue>) returns (v: AbstractValue)
    requires values != [] && IntRangeOfAll(values).None?
    ensures v in values && IntRangeOf(v).None?
    decreases |values|
  {
    v := values[|values| - 1];
    if IntRangeOf(v).Some? {
      v := IntRangeMissingAt(values[..|values| - 1]);
    }
  }

  /** The boolean facet answers if and only if everything described is a
      boolean. */
  lemma BoolDomainAnswersExactlyWhen(a: AbstractValue)
    requires Flat(a) && Inhabited(a)
    ensures BoolDomainOf(a).Some? <==> forall c :: Describes(a, c) ==> IsBool(c)
  {
    if BoolDomainOf(a).Some? {
      forall c | Describes(a, c)
        ensures IsBool(c)
      {
        BoolDomainIsSound(a, c);
      }
    } else {
      var v := a;
      if a.SetOf? {
        v := BoolDomainMissingAt(a.values);
      }
      assert v in Members(Stripped(a));
      var _, c, _ := AtomsHaveOneKind(v);
      assert Describes(a, c) && !IsBool(c);
    }
  }

  lemma {:induction false} BoolDomainMissingAt(values: seq<AbstractValue>) returns (v: AbstractValue)
    requires values != [] && BoolDomainOfAll(values).None?
    ensures v in values && BoolDomainOf(v).None?
    decreases |values|
  {
    v := values[|values| - 1];
    if BoolDomainOf(v).Some? {
      v := BoolDomainMissingAt(values[..|values| - 1]);
    }
  }

  /** The string-length facet answers if and only if everything described, null
      aside, is a string. */
  lemma StringLengthAnswersExactlyWhen(a: AbstractValue)
    requires NormalForm(a) && Flat(Stripped(a)) && Inhabited(a)
    ensures StringLengthOf(a).Some? <==> forall c :: Describes(a, c) && !c.CNull? ==> IsString(c)
  {
    var x := Stripped(a);
    assert StringLengthOf(a) == StringLengthOf(x);
    if StringLengthOf(a).Some? {
      forall c | Describes(a, c) && !c.CNull?
        ensures IsString(c)
      {
        StringLengthIsSound(a, c);
      }
    } else {
      var v := x;
      if x.SetOf? {
        v := StringLengthMissingAt(x.values);
      }
      assert v in Members(Stripped(a));
      var _, _, c := AtomsHaveOneKind(v);
      assert Describes(x, c) && !c.CNull?;
      assert Describes(a, c) && !IsString(c);
    }
  }

  lemma {:induction false} StringLengthMissingAt(values: seq<AbstractValue>) returns (v: AbstractValue)
    requires values != [] && StringLengthOfAll(values).None?
    ensures v in values && StringLengthOf(v).None?
    decreases |values|
  {
    v := values[|values| - 1];
    if StringLengthOf(v).Some? {
      v := StringLengthMissingAt(values[..|values| - 1]);
    }
  }

  /** Nullness is exact: it answers null, or not null, if and only if that is so
      of everything described. */
  lemma NullnessIsExact(a: AbstractValue)
    requires NormalForm(a) && Inhabited(a)
    ensures NullnessOf(a).DefinitelyNull? <==> forall c :: Describes(a, c) ==> c.CNull?
    ensures NullnessOf(a).NonNull? <==> forall c :: Describes(a, c) ==> !c.CNull?
  {
    var x := Stripped(a);
    assert x in Members(x) || (x.SetOf? && x.values != [] && x.values[0] in Members(x)) by {
      assert Members(x) != [];
    }
    if Flat(x) {
      var v := if x.SetOf? then x.values[0] else x;
      assert v in Members(x);
      var c :| Describes(v, c);
      assert Describes(x, c) && !c.CNull?;
      assert Describes(a, c);
      FlatIsNotNull(x);
    }
    assert a.Unknown? || a.Nullable? || a.Null? ==> Describes(a, CNull);
    assert Lost(a) ==> Describes(a, CValue(0, PInt(0)));
    forall c | Describes(a, c)
      ensures NullnessAdmits(NullnessOf(a), c)
    {
      NullnessIsSound(a, c);
    }
  }

  lemma FlatIsNotNull(a: AbstractValue)
    requires Flat(a)
    ensures NullnessOf(a).NonNull?
  {
    if a.SetOf? {
      AtomsAreNotNull(a.values);
    }
  }

  lemma {:induction false} AtomsAreNotNull(values: seq<AbstractValue>)
    requires values != [] && forall v :: v in values ==> Atom(v)
    ensures NullnessOfAll(values).NonNull?
    decreases |values|
  {
    assert values[|values| - 1] in values;
    if |values| > 1 {
      AtomsAreNotNull(values[..|values| - 1]);
    }
  }

  // ------------------------------------------------------------ facets of joins

  /** A facet of a join exists only where both operands have it. */
  lemma {:induction false} FacetsOfAbsorb(left: seq<AbstractValue>, right: seq<AbstractValue>)
    requires left != [] && right != []
    ensures IntRangeOfAll(Absorb(left, right)).Some? <==> IntRangeOfAll(left).Some? && IntRangeOfAll(right).Some?
    ensures BoolDomainOfAll(Absorb(left, right)).Some? <==> BoolDomainOfAll(left).Some? && BoolDomainOfAll(right).Some?
    ensures StringLengthOfAll(Absorb(left, right)).Some? <==>
            StringLengthOfAll(left).Some? && StringLengthOfAll(right).Some?
  {
    AbsorbKeeps(left, right);
    FacetsOfAll(left);
    FacetsOfAll(right);
    FacetsOfAll(Absorb(left, right));
  }

  /** A set has a facet if and only if each member has. */
  lemma {:induction false} FacetsOfAll(values: seq<AbstractValue>)
    requires values != []
    ensures IntRangeOfAll(values).Some? <==> forall v :: v in values ==> IntRangeOf(v).Some?
    ensures BoolDomainOfAll(values).Some? <==> forall v :: v in values ==> BoolDomainOf(v).Some?
    ensures StringLengthOfAll(values).Some? <==> forall v :: v in values ==> StringLengthOf(v).Some?
    decreases |values|
  {
    hide IntRangeOf, BoolDomainOf, StringLengthOf;
    var init, last := values[..|values| - 1], values[|values| - 1];
    assert values == init + [last] && last in values;
    forall v | v in init
      ensures v in values
    {
    }
    forall v | v in values
      ensures v in init || v == last
    {
    }
    if |values| > 1 {
      FacetsOfAll(init);
    }
  }

  lemma {:induction false} DomainHolds(values: seq<AbstractValue>, v: AbstractValue)
    requires v in values && BoolDomainOfAll(values).Some?
    ensures BoolDomainOf(v).Some?
    ensures BoolDomainOfAll(values).value.Join(BoolDomainOf(v).value) == BoolDomainOfAll(values).value
    decreases |values|
  {
    if v != values[|values| - 1] {
      assert v in values[..|values| - 1];
      DomainHolds(values[..|values| - 1], v);
    }
  }

  lemma {:induction false} DomainOfAbsorb(left: seq<AbstractValue>, right: seq<AbstractValue>)
    requires BoolDomainOfAll(left).Some? && BoolDomainOfAll(right).Some?
    ensures BoolDomainOfAll(Absorb(left, right)) ==
            Some(BoolDomainOfAll(left).value.Join(BoolDomainOfAll(right).value))
    decreases |right|
  {
    hide BoolDomainOf;
    var init, last := right[..|right| - 1], right[|right| - 1];
    var before := Absorb(left, init);
    if |right| > 1 {
      DomainOfAbsorb(left, init);
    }
    if last in before {
      DomainHolds(before, last);
    } else {
      assert (before + [last])[..|before|] == before;
    }
  }

  /** The boolean facet commutes with the join. */
  lemma BoolDomainOfJoin(a: AbstractValue, b: AbstractValue)
    requires BoolDomainOf(a).Some? && BoolDomainOf(b).Some? && !Join(a, b).Unknown?
    ensures BoolDomainOf(Join(a, b)) == Some(BoolDomainOf(a).value.Join(BoolDomainOf(b).value))
  {
    if a != b && (a.SetOf? || b.SetOf?) {
      var left := if a.SetOf? then a else b;
      var right := if a.SetOf? then b else a;
      DomainOfAbsorb(left.values, Members(right));
      assert Join(a, b) == Widen(Absorb(left.values, Members(right)));
    }
  }

  lemma {:induction false} LengthHolds(values: seq<AbstractValue>, v: AbstractValue)
    requires v in values && StringLengthOfAll(values).Some?
    ensures StringLengthOf(v).Some?
    ensures StringLengthOfAll(values).value.Join(StringLengthOf(v).value) == StringLengthOfAll(values).value
    decreases |values|
  {
    if v != values[|values| - 1] {
      assert v in values[..|values| - 1];
      LengthHolds(values[..|values| - 1], v);
    }
  }

  lemma {:induction false} LengthOfAbsorb(left: seq<AbstractValue>, right: seq<AbstractValue>)
    requires StringLengthOfAll(left).Some? && StringLengthOfAll(right).Some?
    ensures StringLengthOfAll(Absorb(left, right)) ==
            Some(StringLengthOfAll(left).value.Join(StringLengthOfAll(right).value))
    decreases |right|
  {
    hide StringLengthOf;
    var init, last := right[..|right| - 1], right[|right| - 1];
    var before := Absorb(left, init);
    if |right| > 1 {
      LengthOfAbsorb(left, init);
    }
    if last in before {
      LengthHolds(before, last);
    } else {
      assert (before + [last])[..|before|] == before;
    }
  }

  lemma FlatLengthOfJoin(a: AbstractValue, b: AbstractValue)
    requires Flat(a) && Flat(b) && StringLengthOf(a).Some? && StringLengthOf(b).Some? && !Join(a, b).Unknown?
    ensures StringLengthOf(Join(a, b)) == Some(StringLengthOf(a).value.Join(StringLengthOf(b).value))
  {
    if a != b && (a.SetOf? || b.SetOf?) {
      var left := if a.SetOf? then a else b;
      var right := if a.SetOf? then b else a;
      LengthOfAbsorb(left.values, Members(right));
      assert Join(a, b) == Widen(Absorb(left.values, Members(right)));
    } else if a.ConstString? && b.ConstString? && a != b {
      assert [a, b][..1] == [a];
      assert StringLengthOfAll([a]) == StringLengthOf(a);
    }
  }

  /** The string-length facet commutes with the join, under `Nullable` too. */
  lemma StringLengthOfJoin(a: AbstractValue, b: AbstractValue)
    requires NormalForm(a) && NormalForm(b) && !Lost(Join(a, b))
    requires StringLengthOf(a).Some? && StringLengthOf(b).Some?
    ensures StringLengthOf(Join(a, b)) == Some(StringLengthOf(a).value.Join(StringLengthOf(b).value))
  {
    hide Absorb, Widen;
    var x, y := Stripped(a), Stripped(b);
    assert StringLengthOf(a) == StringLengthOf(x) && StringLengthOf(b) == StringLengthOf(y);
    if b.Nullable? && !a.Nullable? {
      FlatLengthOfJoin(y, x);
    } else {
      FlatLengthOfJoin(x, y);
    }
  }

  /** Nullness commutes with the join, unless a set collapses. */
  lemma NullnessOfJoin(a: AbstractValue, b: AbstractValue)
    requires NormalForm(a) && NormalForm(b) && (Join(a, b).Unknown? ==> a.Unknown? || b.Unknown?)
    ensures NullnessOf(Join(a, b)) == NullnessOf(a).Join(NullnessOf(b))
  {
    hide Absorb, Widen, Flat;
    if Flat(a) {
      FlatIsNotNull(a);
    }
    if Flat(b) {
      FlatIsNotNull(b);
    }
    if Flat(a) && Flat(b) {
      JoinFlat(a, b);
      FlatIsNotNull(Join(a, b));
    }
  }

  // -------------------------------------------------------------- hulls

  /** Two integers, or two ranges, join to every integer between them and nothing
      else. */
  lemma IntJoinIsHull(a: AbstractValue, b: AbstractValue, c: Concrete)
    requires Atom(a) && Atom(b) && IntRangeOf(a).Some? && IntRangeOf(b).Some?
    ensures Describes(Join(a, b), c) <==>
            IsInt(c) && IntRangeOf(a).value.Join(IntRangeOf(b).value).Contains(c.payload.i)
  {
  }

  /** Two booleans join to both. */
  lemma BoolJoinIsHull(a: AbstractValue, b: AbstractValue, c: Concrete)
    requires Atom(a) && Atom(b) && BoolDomainOf(a).Some? && BoolDomainOf(b).Some?
    ensures Describes(Join(a, b), c) <==>
            IsBool(c) && (BoolDomainOf(a).value.Contains(c.payload.b) || BoolDomainOf(b).value.Contains(c.payload.b))
  {
  }

  /** Strings of known length join to every string of a length between, once one
      side knows only the length. */
  lemma LengthJoinIsHull(a: AbstractValue, b: AbstractValue, c: Concrete)
    requires Atom(a) && Atom(b) && StringLengthOf(a).Some? && StringLengthOf(b).Some?
    requires a.StringWithLength? || b.StringWithLength?
    ensures Describes(Join(a, b), c) <==>
            IsString(c) && StringLengthOf(a).value.Join(StringLengthOf(b).value).Contains(|c.payload.s|)
  {
  }

  // ---------------------------------------------------------- joins of many

  /** The values joined one after the other. */
  ghost function JoinAll(values: seq<AbstractValue>): AbstractValue
    requires values != []
  {
    if |values| == 1 then values[0] else Join(JoinAll(values[..|values| - 1]), values[|values| - 1])
  }

  ghost predicate AllNormal(values: seq<AbstractValue>) {
    forall v :: v in values ==> NormalForm(v)
  }

  /** `c` is described by one of the values, or lies between two of them. */
  ghost predicate ComesFrom(values: seq<AbstractValue>, c: Concrete) {
    || (exists x :: x in values && Describes(x, c))
    || (exists x, y :: x in values && y in values && Between(Stripped(x), Stripped(y), c))
  }

  lemma {:induction false} JoinAllIsNormal(values: seq<AbstractValue>)
    requires values != [] && AllNormal(values)
    ensures NormalForm(JoinAll(values))
    decreases |values|
  {
    assert values[|values| - 1] in values;
    if |values| > 1 {
      JoinAllIsNormal(values[..|values| - 1]);
      JoinKeepsNormalForm(JoinAll(values[..|values| - 1]), values[|values| - 1]);
    }
  }

  /** The proof is lost if and only if a value had none or, at some step, a set
      collapses. */
  lemma {:induction false} JoinAllLosesExactlyWhen(values: seq<AbstractValue>)
    requires values != [] && AllNormal(values)
    ensures Lost(JoinAll(values)) <==> exists k :: 0 <= k < |values| && LosesAt(values, k)
    decreases |values|
  {
    var n := |values| - 1;
    assert values[n] in values;
    if n > 0 {
      hide Join;
      var init := values[..n];
      JoinAllIsNormal(init);
      JoinLosesExactlyWhen(JoinAll(init), values[n]);
      JoinAllLosesExactlyWhen(init);
      assert forall k :: 0 <= k < n ==> init[..k] == values[..k] && init[k] == values[k];
      assert Lost(JoinAll(values)) <==> Lost(JoinAll(init)) || LosesAt(values, n);
      if exists k :: 0 <= k < n && LosesAt(init, k) {
        var k :| 0 <= k < n && LosesAt(init, k);
        assert LosesAt(values, k);
      }
      if exists k :: 0 <= k < |values| && LosesAt(values, k) {
        var k :| 0 <= k < |values| && LosesAt(values, k);
        assert k < n ==> LosesAt(init, k);
      }
    } else {
      assert LosesAt(values, 0) <==> Lost(values[0]);
    }
  }

  ghost predicate LosesAt(values: seq<AbstractValue>, k: nat)
    requires k < |values|
  {
    Lost(values[k]) || (k > 0 && Collapses(JoinAll(values[..k]), values[k]))
  }

  /** A flat join has a range only from two ranges. */
  lemma FlatRangeOfJoin(a: AbstractValue, b: AbstractValue)
    requires Flat(a) && Flat(b) && !Join(a, b).Unknown?
    ensures IntRangeOf(Join(a, b)).Some? ==>
      && IntRangeOf(a).Some? && IntRangeOf(b).Some?
      && IntRangeOf(Join(a, b)) == Some(IntRangeOf(a).value.Join(IntRangeOf(b).value))
    ensures StringLengthOf(Join(a, b)).Some? ==>
      && StringLengthOf(a).Some? && StringLengthOf(b).Some?
      && StringLengthOf(Join(a, b)) == Some(StringLengthOf(a).value.Join(StringLengthOf(b).value))
  {
    FlatFacetsOfJoin(a, b);
    hide Join;
    if IntRangeOf(a).Some? && IntRangeOf(b).Some? {
      IntRangeOfJoin(a, b);
    }
    if StringLengthOf(a).Some? && StringLengthOf(b).Some? {
      FlatLengthOfJoin(a, b);
    }
  }

  lemma FlatFacetsOfJoin(a: AbstractValue, b: AbstractValue)
    requires Flat(a) && Flat(b) && !Join(a, b).Unknown?
    ensures IntRangeOf(Join(a, b)).Some? ==> IntRangeOf(a).Some? && IntRangeOf(b).Some?
    ensures StringLengthOf(Join(a, b)).Some? ==> StringLengthOf(a).Some? && StringLengthOf(b).Some?
  {
    if a != b && (a.SetOf? || b.SetOf?) {
      var left := if a.SetOf? then a else b;
      var right := if a.SetOf? then b else a;
      assert Join(a, b) == Widen(Absorb(left.values, Members(right)));
      hide Join, Absorb, IntRangeOfAll, StringLengthOfAll;
      FacetsOfAbsorb(left.values, Members(right));
      FacetsOfMembers(left);
      FacetsOfMembers(right);
    } else if Join(a, b) == SetOf([a, b]) {
      hide Join;
      FacetsOfAll([a, b]);
      assert a in [a, b] && b in [a, b];
    }
  }

  lemma FacetsOfMembers(a: AbstractValue)
    requires Flat(a)
    ensures IntRangeOfAll(Members(a)) == IntRangeOf(a) && StringLengthOfAll(Members(a)) == StringLengthOf(a)
  {
  }

  /** Where a range of a kept join comes from. */
  lemma RangeOfJoin(a: AbstractValue, b: AbstractValue)
    requires NormalForm(a) && NormalForm(b) && !Lost(Join(a, b))
    ensures var x, y, z := Stripped(a), Stripped(b), Stripped(Join(a, b));
      && (IntRangeOf(z).Some? ==>
            || (a.Null? && IntRangeOf(z) == IntRangeOf(y)) || (b.Null? && IntRangeOf(z) == IntRangeOf(x))
            || (IntRangeOf(x).Some? && IntRangeOf(y).Some?
                && IntRangeOf(z).value == IntRangeOf(x).value.Join(IntRangeOf(y).value)))
      && (StringLengthOf(z).Some? ==>
            || (a.Null? && StringLengthOf(z) == StringLengthOf(y))
            || (b.Null? && StringLengthOf(z) == StringLengthOf(x))
            || (StringLengthOf(x).Some? && StringLengthOf(y).Some?
                && StringLengthOf(z).value == StringLengthOf(x).value.Join(StringLengthOf(y).value)))
  {
    hide Absorb, Widen;
    var x, y := Stripped(a), Stripped(b);
    if Flat(x) && Flat(y) {
      if b.Nullable? && !a.Nullable? {
        FlatRangeOfJoin(y, x);
        HullsCommute(x, y);
      } else {
        assert a == b ==> Join(x, y) == x;
        JoinFlat(x, y);
        assert Stripped(Join(a, b)) == Join(x, y);
        FlatRangeOfJoin(x, y);
      }
    }
  }

  lemma HullsCommute(a: AbstractValue, b: AbstractValue)
    ensures IntRangeOf(a).Some? && IntRangeOf(b).Some? ==>
              IntRangeOf(a).value.Join(IntRangeOf(b).value) == IntRangeOf(b).value.Join(IntRangeOf(a).value)
    ensures StringLengthOf(a).Some? && StringLengthOf(b).Some? ==>
              StringLengthOf(a).value.Join(StringLengthOf(b).value)
              == StringLengthOf(b).value.Join(StringLengthOf(a).value)
  {
  }

  /** The bounds of a join of many are bounds of some of them. */
  lemma {:induction false} RangeComesFrom(values: seq<AbstractValue>) returns (lo: AbstractValue, hi: AbstractValue)
    requires values != [] && AllNormal(values) && !Lost(JoinAll(values))
    ensures lo in values && hi in values
    ensures var z := Stripped(JoinAll(values));
      IntRangeOf(z).Some? ==>
        && IntRangeOf(Stripped(lo)).Some? && IntRangeOf(Stripped(hi)).Some?
        && IntRangeOf(z).value.min == IntRangeOf(Stripped(lo)).value.min
        && IntRangeOf(z).value.max == IntRangeOf(Stripped(hi)).value.max
    decreases |values|
  {
    var last := values[|values| - 1];
    assert last in values;
    lo, hi := last, last;
    if |values| > 1 {
      var init := values[..|values| - 1];
      var v := JoinAll(init);
      JoinAllIsNormal(init);
      JoinLosesExactlyWhen(v, last);
      RangeOfJoin(v, last);
      hide Join, IntRangeOf, StringLengthOf, NormalForm;
      var lo', hi' := RangeComesFrom(init);
      var x, z := Stripped(v), Stripped(JoinAll(values));
      if IntRangeOf(z).Some? && IntRangeOf(x).Some? {
        lo := if IntRangeOf(z).value.min == IntRangeOf(x).value.min then lo' else last;
        hi := if IntRangeOf(z).value.max == IntRangeOf(x).value.max then hi' else last;
      }
    }
  }

  /** The same for lengths. */
  lemma {:induction false} LengthComesFrom(values: seq<AbstractValue>)
    returns (short: AbstractValue, long: AbstractValue)
    requires values != [] && AllNormal(values) && !Lost(JoinAll(values))
    ensures short in values && long in values
    ensures var z := Stripped(JoinAll(values));
      StringLengthOf(z).Some? ==>
        && StringLengthOf(Stripped(short)).Some? && StringLengthOf(Stripped(long)).Some?
        && StringLengthOf(z).value.min == StringLengthOf(Stripped(short)).value.min
        && StringLengthOf(z).value.max == StringLengthOf(Stripped(long)).value.max
    decreases |values|
  {
    var last := values[|values| - 1];
    assert last in values;
    short, long := last, last;
    if |values| > 1 {
      var init := values[..|values| - 1];
      var v := JoinAll(init);
      JoinAllIsNormal(init);
      JoinLosesExactlyWhen(v, last);
      RangeOfJoin(v, last);
      hide Join, IntRangeOf, StringLengthOf, NormalForm;
      var short', long' := LengthComesFrom(init);
      var x, z := Stripped(v), Stripped(JoinAll(values));
      if StringLengthOf(z).Some? && StringLengthOf(x).Some? {
        short := if StringLengthOf(z).value.min == StringLengthOf(x).value.min then short' else last;
        long := if StringLengthOf(z).value.max == StringLengthOf(x).value.max then long' else last;
      }
    }
  }

  /** A join of many invents nothing: while the proof is kept, everything it
      describes comes from the values joined. */
  lemma {:induction false} JoinAllIsTight(values: seq<AbstractValue>, c: Concrete)
    requires values != [] && AllNormal(values) && !Lost(JoinAll(values)) && Describes(JoinAll(values), c)
    ensures ComesFrom(values, c)
    decreases |values|
  {
    var last := values[|values| - 1];
    assert last in values;
    if |values| > 1 {
      var init := values[..|values| - 1];
      var v := JoinAll(init);
      JoinAllIsNormal(init);
      JoinLosesExactlyWhen(v, last);
      JoinIsTight(v, last, c);
      assert forall x :: x in init ==> x in values;
      if Describes(v, c) {
        JoinAllIsTight(init, c);
      } else if !Describes(last, c) {
        var lo, hi := RangeComesFrom(init);
        var short, long := LengthComesFrom(init);
        BetweenComesFrom(values, v, last, c, lo, hi, short, long);
      }
    }
  }

  lemma BetweenComesFrom(
      values: seq<AbstractValue>, v: AbstractValue, last: AbstractValue, c: Concrete,
      lo: AbstractValue, hi: AbstractValue, short: AbstractValue, long: AbstractValue)
    requires Between(Stripped(v), Stripped(last), c)
    requires last in values && lo in values && hi in values && short in values && long in values
    requires var z := Stripped(v);
      && (IntRangeOf(z).Some? ==>
            && IntRangeOf(Stripped(lo)).Some? && IntRangeOf(Stripped(hi)).Some?
            && IntRangeOf(z).value.min == IntRangeOf(Stripped(lo)).value.min
            && IntRangeOf(z).value.max == IntRangeOf(Stripped(hi)).value.max)
      && (StringLengthOf(z).Some? ==>
            && StringLengthOf(Stripped(short)).Some? && StringLengthOf(Stripped(long)).Some?
            && StringLengthOf(z).value.min == StringLengthOf(Stripped(short)).value.min
            && StringLengthOf(z).value.max == StringLengthOf(Stripped(long)).value.max)
    ensures ComesFrom(values, c)
  {
    hide IntRangeOf, StringLengthOf, Stripped;
    assert || Between(Stripped(lo), Stripped(hi), c) || Between(Stripped(lo), Stripped(last), c)
           || Between(Stripped(last), Stripped(hi), c) || Between(Stripped(last), Stripped(last), c)
           || Between(Stripped(short), Stripped(long), c) || Between(Stripped(short), Stripped(last), c)
           || Between(Stripped(last), Stripped(long), c);
  }
}
