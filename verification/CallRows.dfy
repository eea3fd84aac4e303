/** The call listing: rows surfaced twice by different passes are reduced to one
    row per call site without losing a site. */
module CallRows {
  import opened Prelude
  import opened Ordering

  /** One call row.  Names are byte strings compared in code order. */
  datatype CallRow = CallRow(
    callee: string, file: string, line: nat, column: nat, caller: Option<string>, callKind: Option<string>)

  // ---------------------------------------------------------- bare suffixes

  predicate EndsWith(s: string, suffix: string) {
    |suffix| <= |s| && s[|s| - |suffix|..] == suffix
  }

  /** `bare` is `qualified`, or its tail after a member separator. */
  predicate IsBareSuffixOf(bare: string, qualified: string) {
    || bare == qualified
    || (&& |qualified| > |bare| && EndsWith(qualified, bare)
        && var head := qualified[..|qualified| - |bare|];
           EndsWith(head, ".") || EndsWith(head, "->") || EndsWith(head, "::"))
  }

  /** The separator law: the names agree, or the qualified one is the bare one
      behind something that ends in a member separator. */
  lemma BareSuffixMeans(bare: string, qualified: string)
    ensures IsBareSuffixOf(bare, qualified) <==>
      || bare == qualified
      || (exists head :: qualified == head + "." + bare)
      || (exists head :: qualified == head + "->" + bare)
      || (exists head :: qualified == head + "::" + bare)
  {
    SeparatorMeans(bare, qualified, ".");
    SeparatorMeans(bare, qualified, "->");
    SeparatorMeans(bare, qualified, "::");
  }

  lemma SeparatorMeans(bare: string, qualified: string, sep: string)
    requires sep != ""
    ensures (|qualified| > |bare| && EndsWith(qualified, bare) && EndsWith(qualified[..|qualified| - |bare|], sep))
            <==> exists head :: qualified == head + sep + bare
  {
    if |qualified| > |bare| && EndsWith(qualified, bare) && EndsWith(qualified[..|qualified| - |bare|], sep) {
      var front := qualified[..|qualified| - |bare|];
      assert front == front[..|front| - |sep|] + sep;
      assert qualified == front[..|front| - |sep|] + sep + bare;
    }
    forall head | qualified == head + sep + bare
      ensures |qualified| > |bare| && EndsWith(qualified, bare) && EndsWith(qualified[..|qualified| - |bare|], sep)
    {
      assert qualified[..|qualified| - |bare|] == head + sep && qualified[|qualified| - |bare|..] == bare;
    }
  }

  // -------------------------------------------------------------- orderings

  predicate SameSite(a: CallRow, b: CallRow) {
    a.file == b.file && a.line == b.line && a.column == b.column
  }

  predicate SameKey(a: CallRow, b: CallRow) {
    a.callee == b.callee && SameSite(a, b)
  }

  predicate SiteBefore(a: CallRow, b: CallRow) {
    || Less(a.file, b.file)
    || (a.file == b.file && (a.line < b.line || (a.line == b.line && a.column < b.column)))
  }

  /** First order: callee, file, line, column, named callers first. */
  predicate CalleeOrder(a: CallRow, b: CallRow) {
    || Less(a.callee, b.callee)
    || (a.callee == b.callee && (SiteBefore(a, b) || (SameSite(a, b) && (a.caller.None? ==> b.caller.None?))))
  }

  /** Second order: file, line, column, longest callee first. */
  predicate SiteOrder(a: CallRow, b: CallRow) {
    SiteBefore(a, b) || (SameSite(a, b) && |a.callee| >= |b.callee|)
  }

  /** The order the collapsing pass sees: the second order, and the first among
      equals. */
  predicate CollapseBefore(a: CallRow, b: CallRow) {
    || SiteBefore(a, b)
    || (SameSite(a, b) && (|a.callee| > |b.callee| || (|a.callee| == |b.callee| && Less(a.callee, b.callee))))
  }

  lemma SitesCompare(a: CallRow, b: CallRow, c: CallRow)
    ensures SameSite(a, b) || SiteBefore(a, b) || SiteBefore(b, a)
    ensures !(SiteBefore(a, b) && SiteBefore(b, a)) && !(SameSite(a, b) && SiteBefore(a, b))
    ensures SiteBefore(a, b) && SiteBefore(b, c) ==> SiteBefore(a, c)
  {
    LessIsTotal(a.file, b.file);
    LessIsTotal(b.file, c.file);
    if Less(a.file, b.file) && Less(b.file, c.file) {
      LessIsTransitive(a.file, b.file, c.file);
    }
  }

  lemma CalleeOrderIsTotal()
    ensures TotalPreorder(CalleeOrder)
  {
    forall a, b
      ensures CalleeOrder(a, b) || CalleeOrder(b, a)
    {
      LessIsTotal(a.callee, b.callee);
      SitesCompare(a, b, b);
    }
    forall a, b, c | CalleeOrder(a, b) && CalleeOrder(b, c)
      ensures CalleeOrder(a, c)
    {
      SitesCompare(a, b, c);
      if Less(a.callee, b.callee) && Less(b.callee, c.callee) {
        LessIsTransitive(a.callee, b.callee, c.callee);
      }
    }
  }

  lemma SiteOrderIsTotal()
    ensures TotalPreorder(SiteOrder)
  {
    forall a, b
      ensures SiteOrder(a, b) || SiteOrder(b, a)
    {
      SitesCompare(a, b, b);
    }
    forall a, b, c | SiteOrder(a, b) && SiteOrder(b, c)
      ensures SiteOrder(a, c)
    {
      SitesCompare(a, b, c);
    }
  }

  // ------------------------------------------------------------- properties

  predicate Shadows(explicit: CallRow, row: CallRow) {
    && explicit.callKind.Some?
    && explicit.callee == row.callee && explicit.file == row.file
    && explicit.line == row.line && explicit.caller == row.caller
  }

  /** The row is an assignment's, and an explicit call covers it. */
  predicate Covered(rows: seq<CallRow>, row: CallRow) {
    row.callKind.None? && exists x :: x in rows && Shadows(x, row)
  }

  /** No row without a kind stands beside an explicit call of the same callee,
      file, line and caller. */
  ghost predicate Unshadowed(rows: seq<CallRow>) {
    forall x, y :: x in rows && y in rows && Shadows(x, y) ==> y.callKind.Some?
  }

  /** No two rows share callee, file, line and column. */
  ghost predicate KeysDiffer(rows: seq<CallRow>) {
    forall i, j :: 0 <= i < j < |rows| ==> !SameKey(rows[i], rows[j])
  }

  /** `a` comes directly before `b` among the rows of one site. */
  ghost predicate Neighbours(rows: seq<CallRow>, a: CallRow, b: CallRow) {
    && a in rows && b in rows && SameSite(a, b) && CollapseBefore(a, b)
    && !exists m :: m in rows && CollapseBefore(a, m) && CollapseBefore(m, b)
  }

  ghost predicate Uncollapsible(rows: seq<CallRow>) {
    forall a, b :: Neighbours(rows, a, b) ==> !IsBareSuffixOf(b.callee, a.callee)
  }

  /** Rows the pipeline leaves alone. */
  ghost predicate Settled(rows: seq<CallRow>) {
    Unshadowed(rows) && KeysDiffer(rows) && Uncollapsible(rows)
  }

  /** `kept` speaks for `row`: the same file and line, and the same callee or
      one that extends it across a member separator. */
  predicate SpeaksFor(kept: CallRow, row: CallRow) {
    kept.file == row.file && kept.line == row.line && IsBareSuffixOf(row.callee, kept.callee)
  }

  ghost predicate Represented(rows: seq<CallRow>, kept: seq<CallRow>) {
    forall r :: r in rows ==> exists q :: q in kept && SpeaksFor(q, r)
  }

  /** `out` is a selection from `rows`. */
  ghost predicate Selected(out: seq<CallRow>, rows: seq<CallRow>) {
    multiset(out) <= multiset(rows)
  }

  lemma SelectNext(out: seq<CallRow>, rows: seq<CallRow>, k: nat)
    requires k < |rows| && Selected(out, rows[..k])
    ensures Selected(out, rows[..k + 1]) && Selected(out + [rows[k]], rows[..k + 1])
  {
    assert rows[..k + 1] == rows[..k] + [rows[k]];
  }

  lemma SelectedWhere(out: seq<CallRow>, rows: seq<CallRow>, q: CallRow)
    requires Selected(out, rows) && q in out
    ensures q in rows
  {
    assert q in multiset(out);
    assert q in multiset(rows);
  }

  // ----------------------------------------------------------------- stages

  /** Stage zero: drop assignment rows an explicit call already covers. */
  method DropShadowed(rows: seq<CallRow>) returns (out: seq<CallRow>)
    ensures Selected(out, rows)
    ensures Unshadowed(out)
    ensures forall r :: r in out <==> r in rows && !Covered(rows, r)
    ensures forall r :: r in out <==>
      && r in rows
      && !(r.callKind.None? && exists x :: x in rows && x.callKind.Some? && x.callee == r.callee && x.file == r.file
                                           && x.line == r.line && x.caller == r.caller)
    ensures forall r :: r in rows ==> LineKept(out, r)
    ensures Unshadowed(rows) ==> out == rows
  {
    out := [];
    for k := 0 to |rows|
      invariant multiset(out) <= multiset(rows[..k])
      invariant forall r :: r in out <==> r in rows[..k] && !Covered(rows, r)
      invariant Unshadowed(rows) ==> out == rows[..k]
    {
      assert rows[..k + 1] == rows[..k] + [rows[k]];
      var row := rows[k];
      if !Covered(rows, row) {
        out := out + [row];
      }
    }
    assert rows[..|rows|] == rows;
    forall r | r in rows
      ensures LineKept(out, r)
    {
      if r !in out {
        var x :| x in rows && Shadows(x, r);
        assert x in out;
      } else {
        assert r in out;
      }
    }
  }

  ghost predicate LineKept(out: seq<CallRow>, r: CallRow) {
    exists q :: q in out && q.callee == r.callee && q.file == r.file && q.line == r.line
  }

  /** Stage one: of adjacent rows with one key, keep the first. */
  method DedupKeys(rows: seq<CallRow>) returns (out: seq<CallRow>)
    requires StablySorted(rows, CalleeOrder, (a, b) => true)
    ensures Selected(out, rows)
    ensures KeysDiffer(out) && Related(out, CalleeOrder)
    ensures forall r :: r in rows ==> KeyKept(out, r)
    ensures KeysDiffer(rows) ==> out == rows
  {
    out := [];
    for k := 0 to |rows|
      invariant Deduped(rows, k, out)
    {
      hide *;
      DedupStep(rows, k, out);
      if out == [] || !SameKey(rows[k], out[|out| - 1]) {
        out := out + [rows[k]];
      }
    }
    assert rows[..|rows|] == rows;
  }

  /** What holds once the first `k` rows are through. */
  ghost predicate Deduped(rows: seq<CallRow>, k: nat, out: seq<CallRow>)
    requires k <= |rows|
  {
    && Selected(out, rows[..k])
    && KeysDiffer(out) && Related(out, CalleeOrder)
    && (forall i :: 0 <= i < k ==> KeyKept(out, rows[i]))
    && (KeysDiffer(rows) ==> out == rows[..k])
    && (if k == 0 then out == [] else out != [] && SameKey(out[|out| - 1], rows[k - 1]))
  }

  lemma DedupStep(rows: seq<CallRow>, k: nat, out: seq<CallRow>)
    requires StablySorted(rows, CalleeOrder, (a, b) => true)
    requires k < |rows| && Deduped(rows, k, out)
    ensures Deduped(rows, k + 1, if out == [] || !SameKey(rows[k], out[|out| - 1]) then out + [rows[k]] else out)
  {
    hide StablySorted, CalleeOrder, KeysDiffer, Related, SameKey, Selected, KeyKept;
    SelectNext(out, rows, k);
    assert rows[..k + 1] == rows[..k] + [rows[k]];
    SameKeys(rows[k], rows[k], rows[k]);
    if out == [] || !SameKey(rows[k], out[|out| - 1]) {
      NextDiffers(rows, k, out);
      KeptStays(out, rows[k]);
    } else {
      SameKeys(rows[k - 1], out[|out| - 1], rows[k]);
      KeyRepeats(rows, k);
      LastComesBefore(rows, k, out);
      KeptBy(out, out[|out| - 1], rows[k]);
    }
  }

  /** The key stays, and so does the fact that its caller is known. */
  ghost predicate KeyKept(out: seq<CallRow>, r: CallRow) {
    exists q :: q in out && StandsIn(q, r)
  }

  predicate StandsIn(q: CallRow, r: CallRow) {
    SameKey(q, r) && (r.caller.Some? ==> q.caller.Some?)
  }

  /** Named callers sort first, so the row kept names its caller if any does. */
  lemma KeptBy(out: seq<CallRow>, q: CallRow, r: CallRow)
    requires q in out && SameKey(q, r) && CalleeOrder(q, r)
    ensures KeyKept(out, r)
  {
    LessIsTotal(q.callee, r.callee);
    SitesCompare(q, r, r);
    assert StandsIn(q, r);
  }

  lemma LastComesBefore(rows: seq<CallRow>, k: nat, out: seq<CallRow>)
    requires StablySorted(rows, CalleeOrder, (a, b) => true) && k < |rows|
    requires Selected(out, rows[..k]) && out != []
    ensures CalleeOrder(out[|out| - 1], rows[k])
  {
    var q := out[|out| - 1];
    SelectedWhere(out, rows[..k], q);
    var j :| 0 <= j < k && rows[..k][j] == q;
    assert CalleeOrder(rows[j], rows[k]);
  }

  lemma KeptStays(out: seq<CallRow>, row: CallRow)
    ensures forall r :: KeyKept(out, r) ==> KeyKept(out + [row], r)
    ensures KeyKept(out + [row], row)
  {
    assert row in out + [row] && StandsIn(row, row);
    forall r | KeyKept(out, r)
      ensures KeyKept(out + [row], r)
    {
      var q :| q in out && StandsIn(q, r);
      assert q in out + [row];
    }
  }

  lemma SameKeys(a: CallRow, b: CallRow, c: CallRow)
    ensures SameKey(a, a) && (SameKey(a, b) <==> SameKey(b, a)) && (SameKey(b, c) <==> SameKey(c, b))
    ensures SameKey(a, b) && SameKey(b, c) ==> SameKey(a, c)
  {
  }

  lemma KeyRepeats(rows: seq<CallRow>, k: nat)
    requires 0 < k < |rows| && SameKey(rows[k - 1], rows[k])
    ensures !KeysDiffer(rows)
  {
  }

  lemma NextDiffers(rows: seq<CallRow>, k: nat, out: seq<CallRow>)
    requires StablySorted(rows, CalleeOrder, (a, b) => true) && k < |rows|
    requires KeysDiffer(out) && Related(out, CalleeOrder)
    requires Selected(out, rows[..k])
    requires out != [] ==> k > 0 && SameKey(out[|out| - 1], rows[k - 1]) && !SameKey(rows[k], out[|out| - 1])
    ensures KeysDiffer(out + [rows[k]]) && Related(out + [rows[k]], CalleeOrder)
  {
    forall i | 0 <= i < |out|
      ensures CalleeOrder(out[i], rows[k]) && !SameKey(out[i], rows[k])
    {
      SelectedWhere(out, rows[..k], out[i]);
      var j :| 0 <= j < k && rows[..k][j] == out[i];
      assert CalleeOrder(rows[j], rows[k]);
      if SameKey(out[i], rows[k]) {
        SandwichedKey(rows, j, k);
      }
    }
  }

  /** Between two rows of one key, sorted order admits no other key. */
  lemma SandwichedKey(rows: seq<CallRow>, j: nat, k: nat)
    requires StablySorted(rows, CalleeOrder, (a, b) => true) && j < k < |rows| && SameKey(rows[j], rows[k])
    ensures SameKey(rows[k - 1], rows[k])
  {
    var m := rows[k - 1];
    if j < k - 1 {
      assert CalleeOrder(rows[j], m) && CalleeOrder(m, rows[k]);
      LessIsTotal(m.callee, rows[k].callee);
      LessIsTotal(rows[j].callee, m.callee);
      SitesCompare(rows[j], m, rows[k]);
      SitesCompare(m, rows[k], rows[k]);
    }
  }

  /** Stage two: drop a row that is a bare suffix of the row kept before it at
      the same site. */
  method Collapse(rows: seq<CallRow>) returns (out: seq<CallRow>)
    requires Related(rows, CollapseBefore)
    ensures Selected(out, rows)
    ensures Related(out, CollapseBefore) && Uncollapsible(out)
    ensures forall r :: r in rows ==> SiteKept(out, r)
    ensures Uncollapsible(rows) ==> out == rows
  {
    hide CollapseBefore, SameSite, IsBareSuffixOf, Uncollapsible, Related, Spaced, Selected, SiteKept;
    NothingIsSpaced(rows);
    out := [];
    for k := 0 to |rows|
      invariant Selected(out, rows[..k])
      invariant Related(out, CollapseBefore) && Spaced(out)
      invariant forall i :: 0 <= i < k ==> SiteKept(out, rows[i])
      invariant Uncollapsible(rows) ==> out == rows[..k]
    {
      SelectNext(out, rows, k);
      assert rows[..k + 1] == rows[..k] + [rows[k]];
      var row := rows[k];
      if out != [] && SameSite(out[|out| - 1], row) && IsBareSuffixOf(row.callee, out[|out| - 1].callee) {
        if Uncollapsible(rows) {
          UncollapsibleKeeps(rows, k);
        }
        SiteKeptBy(out, out[|out| - 1], row);
      } else {
        CollapseStep(rows, k, out);
        SiteStays(out, row);
        out := out + [row];
      }
    }
    assert rows[..|rows|] == rows;
    SpacedIsUncollapsible(out);
  }

  ghost predicate SiteKept(out: seq<CallRow>, r: CallRow) {
    exists q :: q in out && SameSite(q, r) && IsBareSuffixOf(r.callee, q.callee)
  }

  lemma SiteKeptBy(out: seq<CallRow>, q: CallRow, r: CallRow)
    requires q in out && SameSite(q, r) && IsBareSuffixOf(r.callee, q.callee)
    ensures SiteKept(out, r)
  {
  }

  lemma SiteStays(out: seq<CallRow>, row: CallRow)
    ensures forall r :: SiteKept(out, r) ==> SiteKept(out + [row], r)
    ensures SiteKept(out + [row], row)
  {
  }

  lemma NothingIsSpaced(rows: seq<CallRow>)
    ensures Spaced([]) && Related([], CollapseBefore) && Selected([], rows[..0])
  {
  }

  lemma UncollapsibleKeeps(rows: seq<CallRow>, k: nat)
    requires Related(rows, CollapseBefore) && Uncollapsible(rows) && 0 < k < |rows|
    requires SameSite(rows[k - 1], rows[k])
    ensures !IsBareSuffixOf(rows[k].callee, rows[k - 1].callee)
  {
    ConsecutiveAreNeighbours(rows, k - 1);
  }

  lemma CollapseStep(rows: seq<CallRow>, k: nat, out: seq<CallRow>)
    requires Related(rows, CollapseBefore) && k < |rows|
    requires Related(out, CollapseBefore) && Spaced(out) && Selected(out, rows[..k])
    requires out != [] && SameSite(out[|out| - 1], rows[k]) ==> !IsBareSuffixOf(rows[k].callee, out[|out| - 1].callee)
    ensures Related(out + [rows[k]], CollapseBefore) && Spaced(out + [rows[k]])
  {
    hide CollapseBefore, SameSite, IsBareSuffixOf;
    forall i | 0 <= i < |out|
      ensures CollapseBefore(out[i], rows[k])
    {
      SelectedWhere(out, rows[..k], out[i]);
      var j :| 0 <= j < k && rows[..k][j] == out[i];
      assert CollapseBefore(rows[j], rows[k]);
    }
  }

  ghost predicate Spaced(rows: seq<CallRow>) {
    forall i :: 0 <= i < |rows| - 1 && SameSite(rows[i], rows[i + 1]) ==>
      !IsBareSuffixOf(rows[i + 1].callee, rows[i].callee)
  }

  lemma CollapseIsStrict(a: CallRow, b: CallRow)
    ensures !(CollapseBefore(a, b) && CollapseBefore(b, a)) && !CollapseBefore(a, a)
  {
    SitesCompare(a, b, b);
    SitesCompare(a, a, a);
    LessIsTotal(a.callee, b.callee);
    LessIsTotal(a.callee, a.callee);
  }

  lemma ConsecutiveAreNeighbours(rows: seq<CallRow>, i: nat)
    requires Related(rows, CollapseBefore) && i + 1 < |rows| && SameSite(rows[i], rows[i + 1])
    ensures Neighbours(rows, rows[i], rows[i + 1])
  {
    if exists m :: m in rows && CollapseBefore(rows[i], m) && CollapseBefore(m, rows[i + 1]) {
      var j :| 0 <= j < |rows| && CollapseBefore(rows[i], rows[j]) && CollapseBefore(rows[j], rows[i + 1]);
      CollapseIsStrict(rows[i], rows[j]);
      CollapseIsStrict(rows[j], rows[i + 1]);
    }
  }

  lemma SpacedIsUncollapsible(rows: seq<CallRow>)
    requires Related(rows, CollapseBefore) && Spaced(rows)
    ensures Uncollapsible(rows)
  {
    hide CollapseBefore, IsBareSuffixOf, SameSite;
    forall a, b | Neighbours(rows, a, b)
      ensures !IsBareSuffixOf(b.callee, a.callee)
    {
      var i :| 0 <= i < |rows| && rows[i] == a;
      var j :| 0 <= j < |rows| && rows[j] == b;
      CollapseIsStrict(a, b);
      assert i < j;
      var m := rows[i + 1];
      assert m in rows && CollapseBefore(a, m);
      assert i + 1 < j ==> CollapseBefore(m, b);
    }
  }

  // --------------------------------------------------------------- pipeline

  /** Distinct keys turn the stable second sort into one strict order. */
  lemma SortedForCollapse(rows: seq<CallRow>)
    requires StablySorted(rows, SiteOrder, CalleeOrder) && KeysDiffer(rows)
    ensures Related(rows, CollapseBefore)
  {
  }

  lemma SameRows(a: seq<CallRow>, b: seq<CallRow>)
    requires multiset(a) == multiset(b)
    ensures forall r :: r in a <==> r in b
    ensures KeysDiffer(a) ==> KeysDiffer(b)
  {
    forall r: CallRow
      ensures r in a <==> r in b
    {
      assert r in a <==> r in multiset(a);
      assert r in b <==> r in multiset(b);
    }
    if KeysDiffer(a) {
      KeysCount(a);
      KeysFromCount(b);
    }
  }

  /** Distinct keys, said of the multiset: no row twice, no two rows alike. */
  ghost predicate KeysOnce(rows: multiset<CallRow>) {
    && (forall r :: r in rows ==> rows[r] == 1)
    && (forall a, b :: a in rows && b in rows && SameKey(a, b) ==> a == b)
  }

  lemma KeysCount(rows: seq<CallRow>)
    requires KeysDiffer(rows)
    ensures KeysOnce(multiset(rows))
    decreases |rows|
  {
    if rows != [] {
      var init, last := rows[..|rows| - 1], rows[|rows| - 1];
      assert rows == init + [last];
      KeysCount(init);
      forall r | r in multiset(init)
        ensures !SameKey(r, last)
      {
        assert r in init;
        var i :| 0 <= i < |init| && init[i] == r;
        assert rows[i] == r;
      }
    }
  }

  lemma KeysFromCount(rows: seq<CallRow>)
    requires KeysOnce(multiset(rows))
    ensures KeysDiffer(rows)
  {
    forall i, j | 0 <= i < j < |rows|
      ensures !SameKey(rows[i], rows[j])
    {
      assert rows[i] in multiset(rows) && rows[j] in multiset(rows);
      assert rows == rows[..j] + [rows[j]] + rows[j + 1..];
      assert rows[i] == rows[..j][i];
      assert rows[i] == rows[j] ==> multiset(rows)[rows[j]] >= 2;
    }
  }

  lemma SubsetKeepsUnshadowed(rows: seq<CallRow>, sub: seq<CallRow>)
    requires Unshadowed(rows) && multiset(sub) <= multiset(rows)
    ensures Unshadowed(sub)
  {
    forall r | r in sub
      ensures r in rows
    {
      assert r in multiset(sub);
    }
  }

  lemma SubsetKeepsKeys(rows: seq<CallRow>, sub: seq<CallRow>)
    requires KeysDiffer(rows) && multiset(sub) <= multiset(rows)
    ensures KeysDiffer(sub)
  {
    KeysCount(rows);
    assert KeysOnce(multiset(sub));
    KeysFromCount(sub);
  }

  /** The whole pipeline.  `display` is the final order, whatever the filters
      make it. */
  method ReduceCalls(rows: seq<CallRow>, display: (CallRow, CallRow) -> bool) returns (out: seq<CallRow>)
    requires TotalPreorder(display)
    ensures multiset(out) <= multiset(rows)
    ensures KeysDiffer(out)
    ensures forall i, j :: 0 <= i < j < |out| ==>
      (out[i].callee, out[i].file, out[i].line, out[i].column)
      != (out[j].callee, out[j].file, out[j].line, out[j].column)
    ensures Represented(rows, out)
    ensures forall r :: r in rows ==>
      exists q :: q in out && q.file == r.file && q.line == r.line && IsBareSuffixOf(r.callee, q.callee)
    ensures CallersStay(rows, out)
    ensures Settled(out)
    ensures Settled(rows) ==> multiset(out) == multiset(rows)
    ensures StablySorted(out, display, (a, b) => true)
  {
    hide Covered, StandsIn, SameKey, LineKept, KeyKept, SiteKept, Selected, KeysDiffer, Unshadowed, Uncollapsible,
         CallersStay, Represented, CalleeOrder, SiteOrder, CollapseBefore, IsBareSuffixOf;
    ghost var any := (a: CallRow, b: CallRow) => true;
    var kept := DropShadowed(rows);
    CalleeOrderIsTotal();
    var byCallee := StableSort(kept, CalleeOrder, any);
    var unique := DedupKeys(byCallee);
    SiteOrderIsTotal();
    var bySite := StableSort(unique, SiteOrder, CalleeOrder);
    SameRows(unique, bySite);
    SortedForCollapse(bySite);
    var collapsed := Collapse(bySite);
    out := StableSort(collapsed, display, any);
    SameRows(kept, byCallee);
    SameRows(collapsed, out);
    StagesRepresent(rows, kept, unique, collapsed, out);
    StagesKeepCallers(rows, kept, unique, bySite, collapsed, out);
    StagesSettle(rows, kept, byCallee, unique, bySite, collapsed, out);
    SettledMeans(rows, out);
  }

  lemma SettledMeans(rows: seq<CallRow>, out: seq<CallRow>)
    requires KeysDiffer(out) && Represented(rows, out)
    ensures forall i, j :: 0 <= i < j < |out| ==>
      (out[i].callee, out[i].file, out[i].line, out[i].column)
      != (out[j].callee, out[j].file, out[j].line, out[j].column)
    ensures forall r :: r in rows ==>
      exists q :: q in out && q.file == r.file && q.line == r.line && IsBareSuffixOf(r.callee, q.callee)
  {
    hide IsBareSuffixOf;
    assert forall q, r :: SpeaksFor(q, r) ==>
             q.file == r.file && q.line == r.line && IsBareSuffixOf(r.callee, q.callee);
  }

  /** A row that stays names its caller if any uncovered row of its key does. */
  ghost predicate CallersStay(rows: seq<CallRow>, out: seq<CallRow>) {
    forall q, r :: q in out && r in rows && !Covered(rows, r) && SameKey(q, r) ==> StandsIn(q, r)
  }

  lemma StagesKeepCallers(
      rows: seq<CallRow>, kept: seq<CallRow>, unique: seq<CallRow>, bySite: seq<CallRow>,
      collapsed: seq<CallRow>, out: seq<CallRow>)
    requires forall r :: r in kept <==> r in rows && !Covered(rows, r)
    requires KeysDiffer(unique) && forall r :: r in kept ==> KeyKept(unique, r)
    requires forall r :: r in unique <==> r in bySite
    requires Selected(collapsed, bySite) && forall r :: r in collapsed <==> r in out
    ensures CallersStay(rows, out)
  {
    forall q, r | q in out && r in rows && !Covered(rows, r) && SameKey(q, r)
      ensures StandsIn(q, r)
    {
      SelectedWhere(collapsed, bySite, q);
      assert KeyKept(unique, r);
      var p :| p in unique && StandsIn(p, r);
      var i :| 0 <= i < |unique| && unique[i] == p;
      var j :| 0 <= j < |unique| && unique[j] == q;
      assert SameKey(p, q) && SameKey(q, p);
      assert i == j;
    }
  }

  lemma StagesRepresent(
      rows: seq<CallRow>, kept: seq<CallRow>, unique: seq<CallRow>, collapsed: seq<CallRow>, out: seq<CallRow>)
    requires forall r :: r in rows ==> LineKept(kept, r)
    requires forall r :: r in kept ==> KeyKept(unique, r)
    requires forall r :: r in unique ==> SiteKept(collapsed, r)
    requires forall r :: r in collapsed ==> r in out
    ensures Represented(rows, out)
  {
  }

  /** A settled listing passes through unchanged, and every result is settled. */
  lemma StagesSettle(
      rows: seq<CallRow>, kept: seq<CallRow>, byCallee: seq<CallRow>, unique: seq<CallRow>,
      bySite: seq<CallRow>, collapsed: seq<CallRow>, out: seq<CallRow>)
    requires Selected(kept, rows) && Unshadowed(kept) && (Unshadowed(rows) ==> kept == rows)
    requires multiset(byCallee) == multiset(kept)
    requires Selected(unique, byCallee) && (KeysDiffer(byCallee) ==> unique == byCallee)
    requires multiset(bySite) == multiset(unique) && KeysDiffer(bySite)
    requires Selected(collapsed, bySite) && Uncollapsible(collapsed) && (Uncollapsible(bySite) ==> collapsed == bySite)
    requires multiset(out) == multiset(collapsed)
    ensures multiset(out) <= multiset(rows) && Settled(out)
    ensures Settled(rows) ==> multiset(out) == multiset(rows)
  {
    hide Unshadowed, KeysDiffer, Uncollapsible;
    SameRows(collapsed, out);
    SubsetKeepsUnshadowed(kept, out);
    SubsetKeepsKeys(bySite, out);
    SameNeighbours(collapsed, out);
    if Settled(rows) {
      SameRows(rows, byCallee);
      SameRows(rows, bySite);
      SameNeighbours(rows, bySite);
    }
  }

  lemma SameNeighbours(a: seq<CallRow>, b: seq<CallRow>)
    requires forall r :: r in a <==> r in b
    requires Uncollapsible(a)
    ensures Uncollapsible(b)
  {
  }
}
