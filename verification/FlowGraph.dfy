/** The exported flow graph: one row per function, streamed from persisted
    partitions or built from the resident graph. */
module FlowGraph {
  import opened Prelude
  import opened Ordering
  import opened CallGraphs

  datatype FlowRow = FlowRow(
    func: FuncId, name: string, callerIds: seq<FuncId>, outgoingIds: seq<FuncId>,
    callers: seq<string>, outgoing: seq<string>, entryPoint: bool)

  ghost function CallersOf(edges: seq<Edge>, f: FuncId): set<FuncId> {
    set e | e in edges && e.to == f :: e.from
  }

  ghost function CalleesOf(edges: seq<Edge>, f: FuncId): set<FuncId> {
    set e | e in edges && e.from == f :: e.to
  }

  predicate Below(x: nat, y: nat) {
    x < y
  }

  /** `shown` lists the display names of `ids`, sorted and once each. */
  ghost predicate NamesOf(shown: seq<string>, ids: set<FuncId>, names: map<FuncId, string>) {
    Ascending(shown) && Elements(shown) == set id | id in ids :: NameOf(names, id)
  }

  /** The row of a function: sorted duplicate-free callers and callees, and their
      names; an entry point is a function nobody calls. */
  ghost predicate RowOf(row: FlowRow, f: FuncId, edges: seq<Edge>, names: map<FuncId, string>) {
    && row.func == f && row.name == NameOf(names, f)
    && Related(row.callerIds, Below) && Elements(row.callerIds) == CallersOf(edges, f)
    && Related(row.outgoingIds, Below) && Elements(row.outgoingIds) == CalleesOf(edges, f)
    && NamesOf(row.callers, CallersOf(edges, f), names) && NamesOf(row.outgoing, CalleesOf(edges, f), names)
    && (row.entryPoint <==> CallersOf(edges, f) == {})
  }

  /** Functions of one file by display name, then id. */
  predicate NameOrder(names: map<FuncId, string>, f: FuncId, g: FuncId) {
    var m, n := NameOf(names, f), NameOf(names, g);
    Less(m, n) || (m == n && f < g)
  }

  function NameOf(names: map<FuncId, string>, f: FuncId): string {
    if f in names then names[f] else "<unknown>"
  }

  /** Export order: by file, then by name and id. */
  predicate ExportOrder(fileOf: map<FuncId, FileId>, names: map<FuncId, string>, f: FuncId, g: FuncId) {
    f in fileOf && g in fileOf &&
    (fileOf[f] < fileOf[g] || (fileOf[f] == fileOf[g] && NameOrder(names, f, g)))
  }

  function Listed(rows: seq<FlowRow>): seq<FuncId> {
    seq(|rows|, i requires 0 <= i < |rows| => rows[i].func)
  }

  ghost predicate RowsOf(rows: seq<FlowRow>, edges: seq<Edge>, names: map<FuncId, string>) {
    forall i :: 0 <= i < |rows| ==> RowOf(rows[i], rows[i].func, edges, names)
  }

  function FunctionsIn(index: map<FileId, seq<FuncId>>, file: FileId): seq<FuncId> {
    if file in index then index[file] else []
  }

  /** Every indexed function once, in export order, with its row. */
  ghost predicate Export(
      rows: seq<FlowRow>, g: Graph, index: map<FileId, seq<FuncId>>, names: map<FuncId, string>)
  {
    && Related(Listed(rows), (f, h) => ExportOrder(g.fileOf, names, f, h))
    && (forall f :: f in Listed(rows) <==> exists file :: f in FunctionsIn(index, file))
    && RowsOf(rows, g.edges, names)
  }

  // ------------------------------------------------------------ determinism

  lemma RowIsDetermined(a: FlowRow, b: FlowRow, f: FuncId, edges: seq<Edge>, names: map<FuncId, string>)
    requires RowOf(a, f, edges, names) && RowOf(b, f, edges, names)
    ensures a == b
  {
    hide CallersOf, CalleesOf;
    IdsAreDetermined(a.callerIds, b.callerIds);
    IdsAreDetermined(a.outgoingIds, b.outgoingIds);
    NamesAreDetermined(a.callers, b.callers);
    NamesAreDetermined(a.outgoing, b.outgoing);
  }

  lemma IdsAreDetermined(a: seq<FuncId>, b: seq<FuncId>)
    requires Related(a, Below) && Related(b, Below) && Elements(a) == Elements(b)
    ensures a == b
  {
    assert forall x: nat :: x in a <==> x in Elements(a);
    assert forall x: nat :: x in b <==> x in Elements(b);
    ListingIsUnique(a, b, Below);
  }

  lemma NamesAreDetermined(a: seq<string>, b: seq<string>)
    requires Ascending(a) && Ascending(b) && Elements(a) == Elements(b)
    ensures a == b
  {
    forall m, n | Less(m, n)
      ensures !Less(n, m)
    {
      LessIsTotal(m, n);
    }
    assert forall x: string :: x in a <==> x in Elements(a);
    assert forall x: string :: x in b <==> x in Elements(b);
    ListingIsUnique(a, b, Less);
  }

  lemma NameOrderIsStrict(names: map<FuncId, string>)
    ensures forall f, g :: NameOrder(names, f, g) ==> !NameOrder(names, g, f)
  {
    forall f, g | NameOrder(names, f, g)
      ensures !NameOrder(names, g, f)
    {
      LessIsTotal(NameOf(names, f), NameOf(names, g));
    }
  }

  /** Cold equals warm: two exports of one workspace are the same rows in the
      same order, whatever they were read from. */
  lemma ExportIsDetermined(
      a: seq<FlowRow>, b: seq<FlowRow>, g: Graph, index: map<FileId, seq<FuncId>>, names: map<FuncId, string>)
    requires Export(a, g, index, names) && Export(b, g, index, names)
    ensures a == b
  {
    var before := (f, h) => ExportOrder(g.fileOf, names, f, h);
    NameOrderIsStrict(names);
    assert |Listed(a)| == |a| && |Listed(b)| == |b|;
    ListingIsUnique(Listed(a), Listed(b), before);
    forall i | 0 <= i < |a|
      ensures a[i] == b[i]
    {
      assert Listed(a)[i] == Listed(b)[i];
      RowIsDetermined(a[i], b[i], a[i].func, g.edges, names);
    }
  }

  /** Rows are dual: g is among f's callees exactly when f is among g's callers. */
  lemma RowsAreDual(
      rf: FlowRow, f: FuncId, rg: FlowRow, g: FuncId, edges: seq<Edge>, names: map<FuncId, string>)
    requires RowOf(rf, f, edges, names) && RowOf(rg, g, edges, names)
    ensures g in rf.outgoingIds <==> f in rg.callerIds
  {
    assert g in rf.outgoingIds <==> g in Elements(rf.outgoingIds);
    assert f in rg.callerIds <==> f in Elements(rg.callerIds);
    if g in CalleesOf(edges, f) {
      var e :| e in edges && e.from == f && e.to == g;
    }
    if f in CallersOf(edges, g) {
      var e :| e in edges && e.to == g && e.from == f;
    }
  }

  /** An exported row, told from the edges: who calls, who is called, under which
      names, and whether nobody calls. */
  lemma RowMeans(row: FlowRow, f: FuncId, edges: seq<Edge>, names: map<FuncId, string>)
    requires RowOf(row, f, edges, names)
    ensures row.func == f && row.name == (if f in names then names[f] else "<unknown>")
    ensures forall x :: x in row.callerIds <==> exists e :: e in edges && e.from == x && e.to == f
    ensures forall x :: x in row.outgoingIds <==> exists e :: e in edges && e.from == f && e.to == x
    ensures forall i, j :: 0 <= i < j < |row.callerIds| ==> row.callerIds[i] < row.callerIds[j]
    ensures forall i, j :: 0 <= i < j < |row.outgoingIds| ==> row.outgoingIds[i] < row.outgoingIds[j]
    ensures forall n :: n in row.callers <==>
              exists x :: x in row.callerIds && n == if x in names then names[x] else "<unknown>"
    ensures forall n :: n in row.outgoing <==>
              exists x :: x in row.outgoingIds && n == if x in names then names[x] else "<unknown>"
    ensures row.entryPoint <==> forall e :: e in edges ==> e.to != f
  {
    hide Ascending;
    forall x: FuncId
      ensures x in row.callerIds <==> exists e :: e in edges && e.from == x && e.to == f
      ensures x in row.outgoingIds <==> exists e :: e in edges && e.from == f && e.to == x
    {
      assert x in row.callerIds <==> x in Elements(row.callerIds);
      assert x in row.outgoingIds <==> x in Elements(row.outgoingIds);
    }
    NamesMean(row.callers, row.callerIds, names);
    NamesMean(row.outgoing, row.outgoingIds, names);
    if exists e :: e in edges && e.to == f {
      var e :| e in edges && e.to == f;
      assert e.from in CallersOf(edges, f);
    }
  }

  lemma NamesMean(shown: seq<string>, ids: seq<FuncId>, names: map<FuncId, string>)
    requires NamesOf(shown, Elements(ids), names)
    ensures forall n :: n in shown <==> exists x :: x in ids && n == if x in names then names[x] else "<unknown>"
  {
    hide Ascending;
    forall n: string
      ensures n in shown <==> exists x :: x in ids && n == if x in names then names[x] else "<unknown>"
    {
      assert n in shown <==> n in Elements(shown);
      if n in shown {
        var x :| x in Elements(ids) && n == NameOf(names, x);
        assert x in ids;
      }
      if exists x :: x in ids && n == if x in names then names[x] else "<unknown>" {
        var x :| x in ids && n == if x in names then names[x] else "<unknown>";
        assert x in Elements(ids) && n == NameOf(names, x);
      }
    }
  }

  /** The order of the export: by file, then by display name, then by id. */
  lemma ExportIsOrdered(
      rows: seq<FlowRow>, g: Graph, index: map<FileId, seq<FuncId>>, names: map<FuncId, string>, i: nat, j: nat)
    requires Export(rows, g, index, names) && i < j < |rows|
    ensures var f, h := rows[i].func, rows[j].func;
            && f in g.fileOf && h in g.fileOf
            && (|| g.fileOf[f] < g.fileOf[h]
                || (g.fileOf[f] == g.fileOf[h]
                    && (Less(rows[i].name, rows[j].name) || (rows[i].name == rows[j].name && f < h))))
  {
    assert Listed(rows)[i] == rows[i].func && Listed(rows)[j] == rows[j].func;
    assert RowOf(rows[i], rows[i].func, g.edges, names) && RowOf(rows[j], rows[j].func, g.edges, names);
  }

  // -------------------------------------------------------------- streaming

  method ExportFlowNode(
      f: FuncId, callers: seq<FuncId>, outgoing: seq<FuncId>, names: map<FuncId, string>, ghost edges: seq<Edge>)
    returns (row: FlowRow)
    requires Elements(callers) == CallersOf(edges, f) && Elements(outgoing) == CalleesOf(edges, f)
    ensures RowOf(row, f, edges, names) && row.func == f
  {
    hide CallersOf, CalleesOf;
    var callerIds := SortDedup(callers);
    var outgoingIds := SortDedup(outgoing);
    var callerNames := DisplayNames(callerIds, names);
    var outgoingNames := DisplayNames(outgoingIds, names);
    row := FlowRow(f, NameOf(names, f), callerIds, outgoingIds, callerNames, outgoingNames, callerIds == []);
    if callerIds != [] {
      assert callerIds[0] in Elements(callerIds);
    }
  }

  /** The names of some functions, sorted and once each. */
  method DisplayNames(ids: seq<FuncId>, names: map<FuncId, string>) returns (shown: seq<string>)
    ensures NamesOf(shown, Elements(ids), names)
  {
    var all: set<string> := {};
    for k := 0 to |ids|
      invariant all == set id | id in Elements(ids[..k]) :: NameOf(names, id)
    {
      hide NameOf;
      assert ids[..k + 1] == ids[..k] + [ids[k]];
      assert Elements(ids[..k + 1]) == Elements(ids[..k]) + {ids[k]};
      all := all + {NameOf(names, ids[k])};
    }
    assert ids[..|ids|] == ids;
    shown := Sorted(all);
  }

  method SortFunctions(funcs: seq<FuncId>, names: map<FuncId, string>) returns (sorted: seq<FuncId>)
    requires Distinct(funcs)
    ensures |sorted| == |funcs| && (forall f :: f in sorted <==> f in funcs)
    ensures Related(sorted, (f, g) => NameOrder(names, f, g))
  {
    var le := (f: FuncId, g: FuncId) => NameOrder(names, f, g) || f == g;
    ghost var apart := (f: FuncId, g: FuncId) => f != g;
    NameOrderIsTotal(names);
    sorted := StableSort(funcs, le, apart);
    SameLength(sorted, funcs);
    NameOrderIsStrict(names);
    forall i, j | 0 <= i < j < |sorted|
      ensures NameOrder(names, sorted[i], sorted[j])
    {
      assert le(sorted[i], sorted[j]) && (le(sorted[j], sorted[i]) ==> apart(sorted[i], sorted[j]));
    }
  }

  lemma SameLength(a: seq<FuncId>, b: seq<FuncId>)
    requires multiset(a) == multiset(b)
    ensures |a| == |b| && forall f :: f in a <==> f in b
  {
    assert |multiset(a)| == |a| && |multiset(b)| == |b|;
    forall f: FuncId
      ensures f in a <==> f in b
    {
      assert f in a <==> f in multiset(a);
      assert f in b <==> f in multiset(b);
    }
  }

  lemma NameOrderIsTotal(names: map<FuncId, string>)
    ensures TotalPreorder((f: FuncId, g: FuncId) => NameOrder(names, f, g) || f == g)
  {
    forall f, g
      ensures NameOrder(names, f, g) || f == g || NameOrder(names, g, f)
    {
      LessIsTotal(NameOf(names, f), NameOf(names, g));
    }
    forall f, g, h | NameOrder(names, f, g) && NameOrder(names, g, h)
      ensures NameOrder(names, f, h)
    {
      if Less(NameOf(names, f), NameOf(names, g)) && Less(NameOf(names, g), NameOf(names, h)) {
        LessIsTransitive(NameOf(names, f), NameOf(names, g), NameOf(names, h));
      }
    }
  }

  function Get(m: map<FuncId, seq<FuncId>>, f: FuncId): seq<FuncId> {
    if f in m then m[f] else []
  }

  /** Index a partition's incoming edges by callee. */
  method IndexCallers(edges: seq<Edge>) returns (callers: map<FuncId, seq<FuncId>>)
    ensures forall f :: Elements(Get(callers, f)) == CallersOf(edges, f)
  {
    callers := map[];
    for k := 0 to |edges|
      invariant forall f, x :: x in Get(callers, f) <==> Calls(edges[..k], x, f)
    {
      assert edges[..k + 1] == edges[..k] + [edges[k]];
      var e := edges[k];
      EdgesExtend(edges[..k], e);
      callers := callers[e.to := Get(callers, e.to) + [e.from]];
    }
    assert edges[..|edges|] == edges;
  }

  method IndexCallees(edges: seq<Edge>) returns (callees: map<FuncId, seq<FuncId>>)
    ensures forall f :: Elements(Get(callees, f)) == CalleesOf(edges, f)
  {
    callees := map[];
    for k := 0 to |edges|
      invariant forall f, x :: x in Get(callees, f) <==> Calls(edges[..k], f, x)
    {
      assert edges[..k + 1] == edges[..k] + [edges[k]];
      var e := edges[k];
      EdgesExtend(edges[..k], e);
      callees := callees[e.from := Get(callees, e.from) + [e.to]];
    }
    assert edges[..|edges|] == edges;
  }

  ghost predicate Calls(edges: seq<Edge>, from: FuncId, to: FuncId) {
    exists e :: e in edges && e.from == from && e.to == to
  }

  lemma EdgesExtend(edges: seq<Edge>, e: Edge)
    ensures forall x, y :: Calls(edges + [e], x, y) <==> Calls(edges, x, y) || (e.from == x && e.to == y)
  {
  }

  /** The index lists each function once, under the file the graph gives it. */
  ghost predicate Indexed(g: Graph, index: map<FileId, seq<FuncId>>) {
    forall file :: file in index ==>
      Distinct(index[file]) && forall f :: f in index[file] ==> f in g.fileOf && g.fileOf[f] == file
  }

  /** One file's rows from its partition are its rows of the whole graph. */
  method FileRowsFromPartition(
      ghost g: Graph, file: FileId, funcs: seq<FuncId>, p: Partition, names: map<FuncId, string>)
    returns (rows: seq<FlowRow>)
    requires Complete(g) && PartitionOf(g, file, p) && Distinct(funcs)
    requires forall f :: f in funcs ==> f in g.fileOf && g.fileOf[f] == file
    ensures |rows| == |funcs| && (forall f :: f in Listed(rows) <==> f in funcs)
    ensures Related(Listed(rows), (f, g) => NameOrder(names, f, g))
    ensures RowsOf(rows, g.edges, names)
  {
    hide RowOf, NameOrder;
    var sorted := SortFunctions(funcs, names);
    var callers := IndexCallers(p.incoming);
    var callees := IndexCallees(p.outgoing);
    NameOrderIsStrict(names);
    rows := [];
    for k := 0 to |sorted|
      invariant Listed(rows) == sorted[..k] && RowsOf(rows, g.edges, names)
      invariant forall i :: k <= i < |sorted| ==>
        && Elements(Get(callers, sorted[i])) == CallersOf(p.incoming, sorted[i])
        && Elements(Get(callees, sorted[i])) == CalleesOf(p.outgoing, sorted[i])
    {
      var f := sorted[k];
      assert f in sorted;
      var row := ExportFlowNode(f, Get(callers, f), Get(callees, f), names, g.edges);
      rows, callers, callees := rows + [row], callers - {f}, callees - {f};
      assert sorted[..k + 1] == sorted[..k] + [f];
    }
    assert sorted[..|sorted|] == sorted;
  }

  /** One file's rows looked up in the resident graph. */
  method FileRowsFromGraph(g: Graph, funcs: seq<FuncId>, names: map<FuncId, string>)
    returns (rows: seq<FlowRow>)
    requires Distinct(funcs)
    ensures |rows| == |funcs| && (forall f :: f in Listed(rows) <==> f in funcs)
    ensures Related(Listed(rows), (f, g) => NameOrder(names, f, g))
    ensures RowsOf(rows, g.edges, names)
  {
    hide RowOf, NameOrder;
    var sorted := SortFunctions(funcs, names);
    rows := [];
    for k := 0 to |sorted|
      invariant Listed(rows) == sorted[..k] && RowsOf(rows, g.edges, names)
    {
      var f := sorted[k];
      var callers, callees := [], [];
      for j := 0 to |g.edges|
        invariant Elements(callers) == CallersOf(g.edges[..j], f)
        invariant Elements(callees) == CalleesOf(g.edges[..j], f)
      {
        var e := g.edges[j];
        EdgeAdds(g.edges[..j], e, f, callers, callees);
        assert g.edges[..j + 1] == g.edges[..j] + [e];
        if e.to == f {
          callers := callers + [e.from];
        }
        if e.from == f {
          callees := callees + [e.to];
        }
      }
      assert g.edges[..|g.edges|] == g.edges;
      var row := ExportFlowNode(f, callers, callees, names, g.edges);
      rows := rows + [row];
      assert sorted[..k + 1] == sorted[..k] + [f];
    }
    assert sorted[..|sorted|] == sorted;
  }

  lemma EdgeAdds(edges: seq<Edge>, e: Edge, f: FuncId, callers: seq<FuncId>, callees: seq<FuncId>)
    ensures CallersOf(edges + [e], f) == CallersOf(edges, f) + (if e.to == f then {e.from} else {})
    ensures CalleesOf(edges + [e], f) == CalleesOf(edges, f) + (if e.from == f then {e.to} else {})
    ensures Elements(callers + [e.from]) == Elements(callers) + {e.from}
    ensures Elements(callees + [e.to]) == Elements(callees) + {e.to}
  {
  }

  /** Where the rows are read from: the persisted partitions, one per file with
      callables and in file order, a sidecar that fails on the way, or the
      resident graph. */
  datatype Source =
    | Persisted(files: seq<FileId>, parts: map<FileId, Partition>)
    | Unreadable(error: string)
    | Resident

  ghost predicate Sourced(g: Graph, index: map<FileId, seq<FuncId>>, source: Source)
    requires Complete(g)
  {
    source.Persisted? ==>
      && Related(source.files, Below) && Partitioned(g, source.parts)
      && (forall file :: file in source.files ==> file in source.parts)
      && forall file :: FunctionsIn(index, file) != [] ==> file in source.files
  }

  /** Stream the flow graph.  The stream fails exactly when the sidecar does or
      the serializer refuses a row. */
  method StreamFlowGraph(
      g: Graph, index: map<FileId, seq<FuncId>>, all: seq<FileId>, source: Source, names: map<FuncId, string>,
      accepts: FlowRow -> bool)
    returns (r: Result<seq<FlowRow>>)
    requires Complete(g) && Indexed(g, index) && Related(all, Below) && Elements(all) == index.Keys
    requires Sourced(g, index, source)
    ensures r.Ok? ==> Export(r.value, g, index, names)
    ensures r.Err? <==> source.Unreadable? || exists rows :: Export(rows, g, index, names) && Refused(rows, accepts)
  {
    hide RowsOf, ExportOrder;
    if source.Unreadable? {
      return Err(source.error);
    }
    var files := if source.Persisted? then source.files else all;
    var rows, failed := [], false;
    NothingListed(g, index, names);
    for k := 0 to |files|
      invariant Streamed(rows, g, index, names, files[..k])
      invariant failed <==> Refused(rows, accepts)
    {
      hide Streamed, Refused, PartitionOf;
      var file, more := files[k], [];
      if source.Persisted? {
        assert file in source.files;
        more := FileRowsFromPartition(g, file, FunctionsIn(index, file), source.parts[file], names);
      } else {
        more := FileRowsFromGraph(g, FunctionsIn(index, file), names);
      }
      StreamExtends(rows, g, index, names, files, k, more);
      var refused := AnyRefused(more, accepts);
      rows, failed := rows + more, failed || refused;
    }
    assert files[..|files|] == files;
    if failed {
      return Err("the serializer refused a row");
    }
    forall other | Export(other, g, index, names)
      ensures !Refused(other, accepts)
    {
      ExportIsDetermined(rows, other, g, index, names);
    }
    return Ok(rows);
  }

  /** The serializer fails on a row. */
  ghost predicate Refused(rows: seq<FlowRow>, accepts: FlowRow -> bool) {
    exists row :: row in rows && !accepts(row)
  }

  method AnyRefused(rows: seq<FlowRow>, accepts: FlowRow -> bool) returns (refused: bool)
    ensures refused <==> Refused(rows, accepts)
  {
    for k := 0 to |rows|
      invariant forall i :: 0 <= i < k ==> accepts(rows[i])
    {
      if !accepts(rows[k]) {
        assert rows[k] in rows;
        return true;
      }
    }
    return false;
  }

  /** The export of the files read so far. */
  ghost predicate Streamed(
      rows: seq<FlowRow>, g: Graph, index: map<FileId, seq<FuncId>>, names: map<FuncId, string>, files: seq<FileId>)
  {
    && Related(Listed(rows), (f, h) => ExportOrder(g.fileOf, names, f, h))
    && (forall f :: f in Listed(rows) <==> exists file :: file in files && f in FunctionsIn(index, file))
    && RowsOf(rows, g.edges, names)
  }

  lemma NothingListed(g: Graph, index: map<FileId, seq<FuncId>>, names: map<FuncId, string>)
    ensures Streamed([], g, index, names, [])
  {
  }

  lemma ListedAppends(rows: seq<FlowRow>, more: seq<FlowRow>)
    ensures Listed(rows + more) == Listed(rows) + Listed(more) && |Listed(more)| == |more|
  {
  }

  lemma StreamExtends(
      rows: seq<FlowRow>, g: Graph, index: map<FileId, seq<FuncId>>, names: map<FuncId, string>, files: seq<FileId>,
      k: nat, more: seq<FlowRow>)
    requires Indexed(g, index) && Related(files, Below) && k < |files|
    requires Streamed(rows, g, index, names, files[..k])
    requires forall f :: f in Listed(more) <==> f in FunctionsIn(index, files[k])
    requires Related(Listed(more), (f, h) => NameOrder(names, f, h)) && RowsOf(more, g.edges, names)
    ensures Streamed(rows + more, g, index, names, files[..k + 1])
  {
    hide RowOf, NameOrder, Listed;
    ListedAppends(rows, more);
    var a, b := Listed(rows), Listed(more);
    assert files[..k + 1] == files[..k] + [files[k]];
    forall i, j | 0 <= i < j < |a + b|
      ensures ExportOrder(g.fileOf, names, (a + b)[i], (a + b)[j])
    {
      assert i < |a| ==> a[i] in a;
      assert j >= |a| ==> b[j - |a|] in b;
      if i < |a| <= j {
        var file :| file in files[..k] && a[i] in FunctionsIn(index, file);
        var n :| 0 <= n < k && files[..k][n] == file;
        assert Below(files[n], files[k]);
      } else if i >= |a| {
        assert b[i - |a|] in b && NameOrder(names, b[i - |a|], b[j - |a|]);
      }
    }
    forall f: FuncId
      ensures f in a + b <==> exists file :: file in files[..k + 1] && f in FunctionsIn(index, file)
    {
      assert f in b ==> files[k] in files[..k + 1] && f in FunctionsIn(index, files[k]);
      assert forall file :: file in files[..k + 1] <==> file in files[..k] || file == files[k];
    }
  }

}
