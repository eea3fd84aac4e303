/** Code-point order on strings, sorting a set of names, stable sorting as an
    arrangement of positions, and why a listing in one strict order leaves no
    choice. */
module Ordering {
  import opened Prelude

  predicate Less(a: string, b: string) {
    if b == "" then false
    else if a == "" then true
    else a[0] < b[0] || (a[0] == b[0] && Less(a[1..], b[1..]))
  }

  lemma {:induction false} LessIsTotal(a: string, b: string)
    ensures a == b || Less(a, b) || Less(b, a)
    ensures !(Less(a, b) && Less(b, a)) && !(a == b && Less(a, b))
  {
    if a != "" && b != "" {
      LessIsTotal(a[1..], b[1..]);
      assert a == [a[0]] + a[1..] && b == [b[0]] + b[1..];
    }
  }

  lemma {:induction false} LessIsTransitive(a: string, b: string, c: string)
    requires Less(a, b) && Less(b, c)
    ensures Less(a, c)
  {
    if a != "" && a[0] == b[0] && b[0] == c[0] {
      LessIsTransitive(a[1..], b[1..], c[1..]);
    }
  }

  ghost predicate Ascending(s: seq<string>) {
    forall i, j :: 0 <= i < j < |s| ==> Less(s[i], s[j])
  }

  method Smallest(names: set<string>) returns (least: string)
    requires names != {}
    ensures least in names && forall n :: n in names ==> n == least || Less(least, n)
  {
    least :| least in names;
    var rest := names - {least};
    while rest != {}
      invariant rest <= names && least in names - rest
      invariant forall n :: n in names - rest ==> n == least || Less(least, n)
      decreases rest
    {
      var n :| n in rest;
      LessIsTotal(n, least);
      if Less(n, least) {
        forall m | m in names - rest && m != least
          ensures Less(n, m)
        {
          LessIsTransitive(n, least, m);
        }
        least := n;
      }
      rest := rest - {n};
    }
  }

  method Sorted(names: set<string>) returns (sorted: seq<string>)
    ensures Ascending(sorted) && Elements(sorted) == names
  {
    sorted := [];
    var rest := names;
    while rest != {}
      invariant rest <= names && Elements(sorted) == names - rest
      invariant Ascending(sorted)
      invariant forall i, n :: 0 <= i < |sorted| && n in rest ==> Less(sorted[i], n)
      decreases rest
    {
      var least := Smallest(rest);
      assert Elements(sorted + [least]) == Elements(sorted) + {least};
      sorted, rest := sorted + [least], rest - {least};
    }
  }

  // ---------------------------------------------------------- stable sorting

  ghost predicate TotalPreorder<T(!new)>(le: (T, T) -> bool) {
    && (forall x, y :: le(x, y) || le(y, x))
    && (forall x, y, z :: le(x, y) && le(y, z) ==> le(x, z))
  }

  /** Ordered by `le`, and by `tie` among equals. */
  ghost predicate StablySorted<T(!new)>(s: seq<T>, le: (T, T) -> bool, tie: (T, T) -> bool) {
    forall i, j :: 0 <= i < j < |s| ==> le(s[i], s[j]) && (le(s[j], s[i]) ==> tie(s[i], s[j]))
  }

  ghost predicate Related<T(!new)>(s: seq<T>, tie: (T, T) -> bool) {
    forall i, j :: 0 <= i < j < |s| ==> tie(s[i], s[j])
  }

  lemma RelatedAppend<T(!new)>(a: seq<T>, b: seq<T>, tie: (T, T) -> bool)
    requires Related(a, tie) && Related(b, tie) && forall x, y :: x in a && y in b ==> tie(x, y)
    ensures Related(a + b, tie)
  {
    forall i, j | 0 <= i < j < |a + b|
      ensures tie((a + b)[i], (a + b)[j])
    {
      assert i < |a| <= j ==> a[i] in a && b[j - |a|] in b;
    }
  }

  /** Position `i` of `s` comes before position `j` in a stable sort. */
  ghost predicate Precedes<T(!new)>(s: seq<T>, le: (T, T) -> bool, i: nat, j: nat) {
    i < |s| && j < |s| && le(s[i], s[j]) && (le(s[j], s[i]) ==> i < j)
  }

  /** `from` lists every position of `s` in sorted order. */
  ghost predicate Arranges<T(!new)>(s: seq<T>, le: (T, T) -> bool, from: seq<nat>) {
    && |from| == |s|
    && (forall k :: 0 <= k < |from| ==> from[k] < |s|)
    && (forall i :: 0 <= i < |s| ==> i in from)
    && forall j, k :: 0 <= j < k < |from| ==> Precedes(s, le, from[j], from[k])
  }

  ghost function Picked<T>(s: seq<T>, from: seq<nat>): seq<T>
    requires forall k :: 0 <= k < |from| ==> from[k] < |s|
  {
    seq(|from|, k requires 0 <= k < |from| => s[from[k]])
  }

  ghost predicate Arranged<T(!new)>(s: seq<T>, le: (T, T) -> bool, from: seq<nat>, sorted: seq<T>) {
    Arranges(s, le, from) && sorted == Picked(s, from)
  }

  ghost predicate SortsTo<T(!new)>(s: seq<T>, le: (T, T) -> bool, sorted: seq<T>) {
    exists from :: Arranged(s, le, from, sorted)
  }

  /** A stable sort: it permutes, orders by `le`, keeps the input order among
      equals, and with it whatever relation `tie` that order had. */
  method StableSort<T(!new)>(s: seq<T>, le: (T, T) -> bool, ghost tie: (T, T) -> bool) returns (sorted: seq<T>)
    requires TotalPreorder(le) && Related(s, tie)
    ensures multiset(sorted) == multiset(s)
    ensures SortsTo(s, le, sorted)
    ensures StablySorted(sorted, le, tie)
  {
    sorted := [];
    ghost var from: seq<nat> := [];
    for k := 0 to |s|
      invariant multiset(sorted) == multiset(s[..k])
      invariant Arranged(s[..k], le, from, sorted)
    {
      hide TotalPreorder, Arranged, Related;
      ArrangedAscends(s[..k], le, from, sorted);
      var at := InsertionPoint(sorted, s[k], le);
      assert s[..k + 1] == s[..k] + [s[k]] && sorted == sorted[..at] + sorted[at..];
      InsertArranges(s[..k], s[k], le, from, sorted, at);
      from := from[..at] + [k] + from[at..];
      sorted := sorted[..at] + [s[k]] + sorted[at..];
    }
    hide TotalPreorder, Arranged, Related, StablySorted;
    assert s[..|s|] == s;
    ArrangedIsStable(s, le, tie, from, sorted);
  }

  lemma ArrangedAscends<T(!new)>(s: seq<T>, le: (T, T) -> bool, from: seq<nat>, sorted: seq<T>)
    requires Arranged(s, le, from, sorted)
    ensures Related(sorted, le) && |from| == |sorted|
  {
  }

  lemma ArrangedIsStable<T(!new)>(
      s: seq<T>, le: (T, T) -> bool, tie: (T, T) -> bool, from: seq<nat>, sorted: seq<T>)
    requires Arranged(s, le, from, sorted) && Related(s, tie)
    ensures StablySorted(sorted, le, tie)
  {
    forall j, k | 0 <= j < k < |from|
      ensures le(s[from[j]], s[from[k]]) && (le(s[from[k]], s[from[j]]) ==> tie(s[from[j]], s[from[k]]))
    {
      assert Precedes(s, le, from[j], from[k]);
    }
  }

  /** Behind everything that may stand before `x`. */
  method InsertionPoint<T(!new)>(s: seq<T>, x: T, le: (T, T) -> bool) returns (at: nat)
    requires TotalPreorder(le) && Related(s, le)
    ensures at <= |s|
    ensures forall i :: 0 <= i < |s| ==> (i < at <==> le(s[i], x))
  {
    at := |s|;
    while at > 0 && !le(s[at - 1], x)
      invariant 0 <= at <= |s|
      invariant forall i :: at <= i < |s| ==> !le(s[i], x)
    {
      at := at - 1;
    }
    forall i | 0 <= i < at
      ensures le(s[i], x)
    {
      if i < at - 1 {
        assert le(s[i], s[at - 1]) && le(s[at - 1], x);
      }
    }
  }

  lemma InsertArranges<T(!new)>(
      s: seq<T>, x: T, le: (T, T) -> bool, from: seq<nat>, sorted: seq<T>, at: nat)
    requires TotalPreorder(le) && Arranged(s, le, from, sorted) && at <= |sorted|
    requires forall i :: 0 <= i < |sorted| ==> (i < at <==> le(sorted[i], x))
    ensures |from| == |sorted|
    ensures Arranged(s + [x], le, from[..at] + [|s|] + from[at..], sorted[..at] + [x] + sorted[at..])
  {
    hide Precedes, TotalPreorder;
    var s', from' := s + [x], from[..at] + [|s|] + from[at..];
    InsertLists(s, from, at);
    forall j, k | 0 <= j < k < |from'|
      ensures Precedes(s', le, from'[j], from'[k])
    {
      InsertPrecedes(s, x, le, from, at, j, k);
    }
    assert Picked(s', from') == sorted[..at] + [x] + sorted[at..];
  }

  lemma InsertLists<T>(s: seq<T>, from: seq<nat>, at: nat)
    requires at <= |from| && forall i :: 0 <= i < |s| ==> i in from
    ensures forall i :: 0 <= i < |s| + 1 ==> i in from[..at] + [|s|] + from[at..]
  {
    forall i | 0 <= i < |s| + 1
      ensures i in from[..at] + [|s|] + from[at..]
    {
      assert i < |s| ==> i in from;
      assert from == from[..at] + from[at..];
    }
  }

  lemma InsertPrecedes<T(!new)>(s: seq<T>, x: T, le: (T, T) -> bool, from: seq<nat>, at: nat, j: nat, k: nat)
    requires TotalPreorder(le) && Arranges(s, le, from) && at <= |from| && j < k <= |from|
    requires forall i :: 0 <= i < |from| ==> (i < at <==> le(Picked(s, from)[i], x))
    ensures var from' := from[..at] + [|s|] + from[at..]; Precedes(s + [x], le, from'[j], from'[k])
  {
    var from' := from[..at] + [|s|] + from[at..];
    if k == at {
      assert from'[j] == from[j] && le(Picked(s, from)[j], x);
    } else if j == at {
      assert from'[k] == from[k - 1] && !le(Picked(s, from)[k - 1], x);
    } else {
      var j', k' := if j < at then j else j - 1, if k < at then k else k - 1;
      assert from'[j] == from[j'] && from'[k] == from[k'];
      assert Precedes(s, le, from[j'], from[k']);
    }
  }

  /** A stable sort leaves no choice. */
  lemma ArrangementIsUnique<T(!new)>(s: seq<T>, le: (T, T) -> bool, a: seq<nat>, b: seq<nat>)
    requires Arranges(s, le, a) && Arranges(s, le, b)
    ensures a == b
  {
    ListingIsUnique(a, b, (i: nat, j: nat) => Precedes(s, le, i, j));
  }

  lemma {:induction false} ArrangementExists<T(!new)>(s: seq<T>, le: (T, T) -> bool) returns (from: seq<nat>)
    requires TotalPreorder(le)
    ensures Arranges(s, le, from)
  {
    if s == [] {
      from := [];
    } else {
      var init, x := s[..|s| - 1], s[|s| - 1];
      assert s == init + [x];
      from := ArrangementExists(init, le);
      var sorted := Picked(init, from);
      ArrangedAscends(init, le, from, sorted);
      var at := PointExists(sorted, x, le);
      InsertArranges(init, x, le, from, sorted, at);
      from := from[..at] + [|init|] + from[at..];
    }
  }

  lemma {:induction false} PointExists<T(!new)>(s: seq<T>, x: T, le: (T, T) -> bool) returns (at: nat)
    requires TotalPreorder(le) && Related(s, le)
    ensures at <= |s| && forall i :: 0 <= i < |s| ==> (i < at <==> le(s[i], x))
    decreases |s|
  {
    if s == [] || le(s[|s| - 1], x) {
      at := |s|;
      forall i | 0 <= i < |s|
        ensures le(s[i], x)
      {
        assert i < |s| - 1 ==> le(s[i], s[|s| - 1]);
      }
    } else {
      at := PointExists(s[..|s| - 1], x, le);
    }
  }

  /** Two listings of one set in one strict order are the same listing. */
  lemma {:induction false} ListingIsUnique<T(!new)>(a: seq<T>, b: seq<T>, before: (T, T) -> bool)
    requires forall x, y :: before(x, y) ==> !before(y, x)
    requires Related(a, before) && Related(b, before)
    requires forall x :: x in a <==> x in b
    ensures a == b
    decreases |a|
  {
    assert a != [] ==> a[0] in a;
    assert b != [] ==> b[0] in b;
    if a != [] && b != [] {
      var x, y := a[|a| - 1], b[|b| - 1];
      assert x in b && y in a;
      assert x == y;
      var a', b' := a[..|a| - 1], b[..|b| - 1];
      forall z: T
        ensures z in a' <==> z in b'
      {
        assert z in a <==> z in a' || z == x;
        assert z in b <==> z in b' || z == x;
        assert x !in a' && x !in b';
      }
      ListingIsUnique(a', b', before);
    }
  }

  /** Sort identifiers and drop repeats. */
  method SortDedup(ids: seq<nat>) returns (r: seq<nat>)
    ensures Elements(r) == Elements(ids)
    ensures forall i, j :: 0 <= i < j < |r| ==> r[i] < r[j]
  {
    ghost var any := (x: nat, y: nat) => true;
    var sorted := StableSort(ids, (x: nat, y: nat) => x <= y, any);
    forall x: nat
      ensures x in sorted <==> x in ids
    {
      assert x in sorted <==> x in multiset(sorted);
      assert x in ids <==> x in multiset(ids);
    }
    assert Elements(sorted) == Elements(ids);
    r := DedupSorted(sorted);
  }

  /** Drop the repeats of a sorted listing. */
  method DedupSorted(s: seq<nat>) returns (r: seq<nat>)
    requires forall i, j :: 0 <= i < j < |s| ==> s[i] <= s[j]
    ensures Elements(r) == Elements(s)
    ensures forall i, j :: 0 <= i < j < |r| ==> r[i] < r[j]
  {
    r := [];
    for k := 0 to |s|
      invariant Elements(r) == Elements(s[..k])
      invariant forall i, j :: 0 <= i < j < |r| ==> r[i] < r[j]
      invariant if k == 0 then r == [] else r != [] && r[|r| - 1] == s[k - 1]
    {
      assert s[..k + 1] == s[..k] + [s[k]];
      assert Elements(s[..k + 1]) == Elements(s[..k]) + {s[k]};
      if k == 0 || r[|r| - 1] != s[k] {
        assert k > 0 ==> r[|r| - 1] < s[k];
        assert Elements(r + [s[k]]) == Elements(r) + {s[k]};
        r := r + [s[k]];
      }
    }
    assert s[..|s|] == s;
  }
}
