/** Cross-file call connections: the edges gathered from partitions or from the
    resident graph, grouped by file on both sides, and closed. */
module Connections {
  import opened Prelude
  import opened Ordering
  import opened FlowEvents
  import opened CallGraphs
  import opened ModuleEdges

  // -------------------------------------------------------------- gathering

  /** The edge leaves or enters a requested file. */
  ghost predicate Touches(g: Graph, requested: set<FileId>, e: Edge)
    requires e.from in g.fileOf && e.to in g.fileOf
  {
    g.fileOf[e.from] in requested || g.fileOf[e.to] in requested
  }

  /** `edges` are edges of the graph, and include all that touch the request. */
  ghost predicate Serves(g: Graph, requested: set<FileId>, edges: seq<Edge>)
    requires Complete(g)
  {
    && (forall e :: e in edges ==> e in g.edges)
    && (forall e :: e in g.edges && Touches(g, requested, e) ==> e in edges)
  }

  /** One pass over every partition's outgoing list. */
  method GatherBroad(ghost g: Graph, parts: map<FileId, Partition>) returns (edges: seq<Edge>)
    requires Complete(g) && Partitioned(g, parts) && g.fileOf.Values <= parts.Keys
    ensures forall e :: e in edges <==> e in g.edges
  {
    edges := [];
    var files := parts.Keys;
    while files != {}
      invariant files <= parts.Keys
      invariant forall e :: e in edges <==> e in g.edges && g.fileOf[e.from] in parts.Keys - files
      decreases files
    {
      var file :| file in files;
      assert PartitionOf(g, file, parts[file]);
      edges := edges + parts[file].outgoing;
      files := files - {file};
    }
    assert forall e :: e in g.edges ==> g.fileOf[e.from] in g.fileOf.Values;
  }

  /** The outgoing and incoming lists of each requested file that has a
      partition; whether one was missing. */
  method GatherScoped(ghost g: Graph, parts: map<FileId, Partition>, requested: set<FileId>)
    returns (edges: seq<Edge>, used: bool, missing: bool)
    requires Complete(g) && Partitioned(g, parts)
    ensures missing <==> !(requested <= parts.Keys)
    ensures used <==> requested * parts.Keys != {}
    ensures forall e :: e in edges ==> e in g.edges
    ensures forall e :: e in g.edges && Touches(g, requested * parts.Keys, e) ==> e in edges
  {
    edges, used, missing := [], false, false;
    var files := requested;
    while files != {}
      invariant files <= requested
      invariant missing <==> !(requested - files <= parts.Keys)
      invariant used <==> (requested - files) * parts.Keys != {}
      invariant forall e :: e in edges ==> e in g.edges
      invariant forall e :: e in g.edges && Touches(g, (requested - files) * parts.Keys, e) ==> e in edges
      decreases files
    {
      var file :| file in files;
      files := files - {file};
      if file !in parts {
        missing := true;
        continue;
      }
      assert file in (requested - files) * parts.Keys;
      assert PartitionOf(g, file, parts[file]);
      used := true;
      edges := edges + parts[file].outgoing + parts[file].incoming;
    }
    assert requested - files == requested;
  }

  predicate EdgeOrder(a: Edge, b: Edge) {
    || a.from < b.from
    || (a.from == b.from && (a.to < b.to || (a.to == b.to &&
         (a.span.start < b.span.start || (a.span.start == b.span.start && a.span.end <= b.span.end)))))
  }

  /** Sort, and drop adjacent repeats: the same edges remain. */
  method SortEdges(edges: seq<Edge>) returns (out: seq<Edge>)
    ensures forall e :: e in out <==> e in edges
    ensures Related(out, EdgeOrder) && forall i :: 0 < i < |out| ==> out[i - 1] != out[i]
  {
    hide SortsTo;
    ghost var any := (a: Edge, b: Edge) => true;
    var sorted := StableSort(edges, EdgeOrder, any);
    out := [];
    for k := 0 to |sorted|
      invariant forall e :: e in out <==> e in sorted[..k]
      invariant Related(out, EdgeOrder) && forall i :: 0 < i < |out| ==> out[i - 1] != out[i]
    {
      assert sorted[..k + 1] == sorted[..k] + [sorted[k]];
      forall e | e in out
        ensures EdgeOrder(e, sorted[k])
      {
        var i :| 0 <= i < k && sorted[..k][i] == e;
        assert EdgeOrder(sorted[i], sorted[k]);
      }
      if out == [] || out[|out| - 1] != sorted[k] {
        out := out + [sorted[k]];
      } else {
        assert sorted[k] in out;
      }
    }
    assert sorted[..|sorted|] == sorted;
    forall e: Edge
      ensures e in sorted <==> e in edges
    {
      assert e in sorted <==> e in multiset(sorted);
      assert e in edges <==> e in multiset(edges);
    }
  }

  /** Gather the edges by whichever source is available.  Completeness is
      claimed only when nothing that touches the request is missing. */
  method Gather(
      ghost g: Graph, requested: set<FileId>, fileCount: nat, visitable: bool, parts: map<FileId, Partition>,
      completeIndex: bool, resident: seq<Edge>)
    returns (edges: seq<Edge>, complete: bool)
    requires Complete(g) && Partitioned(g, parts)
    requires visitable ==> g.fileOf.Values <= parts.Keys
    requires Serves(g, requested, resident)
    ensures forall e :: e in edges ==> e in g.edges
    ensures complete ==> Serves(g, requested, edges)
    ensures forall e ::
      && e in g.edges
      && (g.fileOf[e.from] in requested * parts.Keys || g.fileOf[e.to] in requested * parts.Keys)
      ==> e in edges
    ensures if completeIndex then complete else complete <==> requested != {} && requested <= parts.Keys
  {
    var broad := |requested| * 4 >= fileCount && completeIndex;
    var visited := broad && visitable;
    var used, missing := false, false;
    if visited {
      edges := GatherBroad(g, parts);
    } else {
      edges, used, missing := GatherScoped(g, parts, requested);
      if used {
        edges := SortEdges(edges);
      }
      assert !missing ==> requested * parts.Keys == requested;
    }
    complete := visited || (used && !missing);
    if !complete && completeIndex {
      edges, complete := resident, true;
    }
  }

  // --------------------------------------------------------------- grouping

  type Groups = map<FileId, map<FileId, seq<ModuleEdge>>>

  function GroupAt(groups: Groups, file: FileId, other: FileId): seq<ModuleEdge> {
    if file in groups && other in groups[file] then groups[file][other] else []
  }

  function AddTo(groups: Groups, file: FileId, other: FileId, m: ModuleEdge): Groups {
    var inner := if file in groups then groups[file] else map[];
    groups[file := inner[other := GroupAt(groups, file, other) + [m]]]
  }

  predicate Joins(fileOf: map<FuncId, FileId>, e: Edge, a: FileId, b: FileId) {
    e.from in fileOf && e.to in fileOf && fileOf[e.from] == a && fileOf[e.to] == b
  }

  /** What one edge adds to the group from file `a` to file `b`; `locate` fails
      when a name or a source position is unavailable. */
  function Shown(
      e: Edge, fileOf: map<FuncId, FileId>, locate: Edge -> Option<ModuleEdge>, a: FileId, b: FileId)
    : seq<ModuleEdge>
  {
    if Joins(fileOf, e, a, b) && locate(e).Some? then [locate(e).value] else []
  }

  /** The rendered edges from file `a` to file `b`, in order. */
  function Rendered(
      edges: seq<Edge>, fileOf: map<FuncId, FileId>, locate: Edge -> Option<ModuleEdge>, a: FileId, b: FileId)
    : seq<ModuleEdge>
  {
    if edges == [] then []
    else
      Rendered(edges[..|edges| - 1], fileOf, locate, a, b) + Shown(edges[|edges| - 1], fileOf, locate, a, b)
  }

  /** The edge is one the report must show. */
  predicate Reported(fileOf: map<FuncId, FileId>, requested: set<FileId>, e: Edge) {
    && e.from in fileOf && e.to in fileOf && fileOf[e.from] != fileOf[e.to]
    && (fileOf[e.from] in requested || fileOf[e.to] in requested)
  }

  /** Each requested file's groups hold its rendered edges to other files. */
  ghost predicate OutGroups(
      groups: Groups, edges: seq<Edge>, fileOf: map<FuncId, FileId>, requested: set<FileId>,
      locate: Edge -> Option<ModuleEdge>)
  {
    forall a, b :: GroupAt(groups, a, b) ==
      if a in requested && a != b then Rendered(edges, fileOf, locate, a, b) else []
  }

  /** The same from the callee's side. */
  ghost predicate InGroups(
      groups: Groups, edges: seq<Edge>, fileOf: map<FuncId, FileId>, requested: set<FileId>,
      locate: Edge -> Option<ModuleEdge>)
  {
    forall a, b :: GroupAt(groups, b, a) ==
      if b in requested && a != b then Rendered(edges, fileOf, locate, a, b) else []
  }

  /** The edge is shown in the groups of a requested caller. */
  function OutNext(
      groups: Groups, e: Edge, fileOf: map<FuncId, FileId>, requested: set<FileId>,
      locate: Edge -> Option<ModuleEdge>): Groups
  {
    if Reported(fileOf, requested, e) && locate(e).Some? && fileOf[e.from] in requested
    then AddTo(groups, fileOf[e.from], fileOf[e.to], locate(e).value) else groups
  }

  /** The edge is shown in the groups of a requested callee. */
  function InNext(
      groups: Groups, e: Edge, fileOf: map<FuncId, FileId>, requested: set<FileId>,
      locate: Edge -> Option<ModuleEdge>): Groups
  {
    if Reported(fileOf, requested, e) && locate(e).Some? && fileOf[e.to] in requested
    then AddTo(groups, fileOf[e.to], fileOf[e.from], locate(e).value) else groups
  }

  lemma OutGrows(
      groups: Groups, edges: seq<Edge>, k: nat, fileOf: map<FuncId, FileId>, requested: set<FileId>,
      locate: Edge -> Option<ModuleEdge>)
    requires k < |edges| && OutGroups(groups, edges[..k], fileOf, requested, locate)
    ensures OutGroups(OutNext(groups, edges[k], fileOf, requested, locate), edges[..k + 1], fileOf, requested, locate)
  {
    hide AddTo, GroupAt, Rendered;
    RenderedGrows(edges, k, fileOf, locate);
    var e := edges[k];
    if Reported(fileOf, requested, e) && locate(e).Some? {
      AddedTo(groups, fileOf[e.from], fileOf[e.to], locate(e).value);
    }
  }

  lemma InGrows(
      groups: Groups, edges: seq<Edge>, k: nat, fileOf: map<FuncId, FileId>, requested: set<FileId>,
      locate: Edge -> Option<ModuleEdge>)
    requires k < |edges| && InGroups(groups, edges[..k], fileOf, requested, locate)
    ensures InGroups(InNext(groups, edges[k], fileOf, requested, locate), edges[..k + 1], fileOf, requested, locate)
  {
    hide AddTo, GroupAt, Rendered;
    RenderedGrows(edges, k, fileOf, locate);
    var e := edges[k];
    if Reported(fileOf, requested, e) && locate(e).Some? {
      AddedTo(groups, fileOf[e.to], fileOf[e.from], locate(e).value);
    }
  }

  lemma RenderedGrows(
      edges: seq<Edge>, k: nat, fileOf: map<FuncId, FileId>, locate: Edge -> Option<ModuleEdge>)
    requires k < |edges|
    ensures forall a, b ::
      Rendered(edges[..k + 1], fileOf, locate, a, b)
      == Rendered(edges[..k], fileOf, locate, a, b) + Shown(edges[k], fileOf, locate, a, b)
  {
    assert edges[..k + 1][..k] == edges[..k];
  }

  lemma AddedTo(groups: Groups, file: FileId, other: FileId, m: ModuleEdge)
    ensures forall a, b ::
      GroupAt(AddTo(groups, file, other, m), a, b)
      == GroupAt(groups, a, b) + (if a == file && b == other then [m] else [])
  {
  }

  /** Group the cross-file edges by the requested side.  Both sides see the same
      rows, and completeness survives only if no edge was skipped. */
  method GroupEdges(
      edges: seq<Edge>, fileOf: map<FuncId, FileId>, requested: set<FileId>,
      locate: Edge -> Option<ModuleEdge>, gathered: bool)
    returns (callsOut: Groups, callersIn: Groups, complete: bool)
    ensures OutGroups(callsOut, edges, fileOf, requested, locate)
    ensures InGroups(callersIn, edges, fileOf, requested, locate)
    ensures complete <==> gathered && forall e :: e in edges ==> Handled(fileOf, requested, locate, e)
  {
    callsOut, callersIn, complete := map[], map[], gathered;
    for k := 0 to |edges|
      invariant OutGroups(callsOut, edges[..k], fileOf, requested, locate)
      invariant InGroups(callersIn, edges[..k], fileOf, requested, locate)
      invariant complete <==> gathered && forall i :: 0 <= i < k ==> Handled(fileOf, requested, locate, edges[i])
    {
      hide OutGroups, InGroups, AddTo;
      var e := edges[k];
      OutGrows(callsOut, edges, k, fileOf, requested, locate);
      InGrows(callersIn, edges, k, fileOf, requested, locate);
      if e.from !in fileOf || e.to !in fileOf {
        complete := false;
        continue;
      }
      var a, b := fileOf[e.from], fileOf[e.to];
      if a == b || (a !in requested && b !in requested) {
        continue;
      }
      var at := locate(e);
      if at.None? {
        complete := false;
        continue;
      }
      if a in requested {
        callsOut := AddTo(callsOut, a, b, at.value);
      }
      if b in requested {
        callersIn := AddTo(callersIn, b, a, at.value);
      }
    }
    assert edges[..|edges|] == edges;
    assert complete ==> forall i :: 0 <= i < |edges| ==> Handled(fileOf, requested, locate, edges[i]);
  }

  predicate Handled(
      fileOf: map<FuncId, FileId>, requested: set<FileId>, locate: Edge -> Option<ModuleEdge>, e: Edge)
  {
    e.from in fileOf && e.to in fileOf && (Reported(fileOf, requested, e) ==> locate(e).Some?)
  }

  /** Close every group of one file. */
  method CloseFile(groups: map<FileId, seq<ModuleEdge>>) returns (closed: map<FileId, seq<ModuleEdge>>)
    ensures closed.Keys == groups.Keys && forall b :: b in groups ==> Closes(groups[b], closed[b])
  {
    closed := map[];
    var files := groups.Keys;
    while files != {}
      invariant files <= groups.Keys && closed.Keys == groups.Keys - files
      invariant forall b :: b in closed ==> Closes(groups[b], closed[b])
      decreases files
    {
      hide Closes;
      var file :| file in files;
      var rows := CloseGroup(groups[file]);
      closed, files := closed[file := rows], files - {file};
    }
  }

  /** Close the groups of every requested file. */
  method CloseAll(groups: Groups) returns (closed: Groups)
    ensures forall a, b :: Closes(GroupAt(groups, a, b), GroupAt(closed, a, b))
  {
    closed := map[];
    var files := groups.Keys;
    while files != {}
      invariant files <= groups.Keys && closed.Keys == groups.Keys - files
      invariant forall a :: a in closed ==>
        closed[a].Keys == groups[a].Keys && forall b :: b in closed[a] ==> Closes(groups[a][b], closed[a][b])
      decreases files
    {
      hide Closes;
      var file :| file in files;
      var inner := CloseFile(groups[file]);
      closed, files := closed[file := inner], files - {file};
    }
    NothingCloses();
  }

  lemma NothingCloses()
    ensures Closes([], [])
  {
    var from: seq<nat> := [];
    assert Arranged<ModuleEdge>([], RowOrder, from, []);
    assert SortsTo<ModuleEdge>([], RowOrder, []);
  }

  // -------------------------------------------------------------- agreement

  lemma {:induction false} RenderedHolds(
      edges: seq<Edge>, fileOf: map<FuncId, FileId>, locate: Edge -> Option<ModuleEdge>, a: FileId, b: FileId,
      m: ModuleEdge)
    ensures m in Rendered(edges, fileOf, locate, a, b) <==>
            exists e :: e in edges && Joins(fileOf, e, a, b) && locate(e) == Some(m)
    decreases |edges|
  {
    if edges != [] {
      var init, last := edges[..|edges| - 1], edges[|edges| - 1];
      RenderedHolds(init, fileOf, locate, a, b, m);
      assert edges == init + [last];
      if exists e :: e in init && Joins(fileOf, e, a, b) && locate(e) == Some(m) {
        var e :| e in init && Joins(fileOf, e, a, b) && locate(e) == Some(m);
        assert e in edges;
      } else if Joins(fileOf, last, a, b) && locate(last) == Some(m) {
        assert last in edges;
      }
    }
  }

  lemma SourcesShow(
      g: Graph, requested: set<FileId>, one: seq<Edge>, two: seq<Edge>, locate: Edge -> Option<ModuleEdge>,
      a: FileId, b: FileId)
    requires Complete(g) && Serves(g, requested, one) && Serves(g, requested, two)
    requires a in requested || b in requested
    ensures Elements(Rendered(one, g.fileOf, locate, a, b)) == Elements(Rendered(two, g.fileOf, locate, a, b))
  {
    forall m: ModuleEdge
      ensures m in Rendered(one, g.fileOf, locate, a, b) <==> m in Rendered(two, g.fileOf, locate, a, b)
    {
      RenderedHolds(one, g.fileOf, locate, a, b, m);
      RenderedHolds(two, g.fileOf, locate, a, b, m);
      forall e | Joins(g.fileOf, e, a, b)
        ensures e in one <==> e in two
      {
      }
    }
  }

  /** Whatever served the request, a closed group that touches a requested file
      shows the same edge ids, and the same rows where no two rows share one. */
  lemma SourcesAgree(
      g: Graph, requested: set<FileId>, one: seq<Edge>, two: seq<Edge>, locate: Edge -> Option<ModuleEdge>,
      a: FileId, b: FileId, x: seq<ModuleEdge>, y: seq<ModuleEdge>)
    requires Complete(g) && Serves(g, requested, one) && Serves(g, requested, two)
    requires a in requested || b in requested
    requires Closes(Rendered(one, g.fileOf, locate, a, b), x) && Closes(Rendered(two, g.fileOf, locate, a, b), y)
    ensures forall id :: HasId(x, id) <==> HasId(y, id)
    ensures Unambiguous(Rendered(one, g.fileOf, locate, a, b)) ==> Elements(x) == Elements(y)
  {
    hide Closes, Rendered, Serves;
    var s, t := Rendered(one, g.fileOf, locate, a, b), Rendered(two, g.fileOf, locate, a, b);
    SourcesShow(g, requested, one, two, locate, a, b);
    SameElements(s, t);
    ClosingKeepsIds(s, x);
    ClosingKeepsIds(t, y);
    if Unambiguous(s) {
      UnambiguousSurvives(s, x);
      UnambiguousSurvives(t, y);
    }
  }

  /** The endpoints that were found carry the graph's own files. */
  ghost predicate Agrees(known: map<FuncId, FileId>, g: Graph) {
    forall f :: f in known ==> f in g.fileOf && known[f] == g.fileOf[f]
  }

  /** The groups shown are the closed groups of the edges gathered. */
  ghost predicate Shows(
      callsOut: Groups, callersIn: Groups, edges: seq<Edge>, known: map<FuncId, FileId>, requested: set<FileId>,
      locate: Edge -> Option<ModuleEdge>)
  {
    forall a, b :: a != b ==>
      && (a in requested ==> Closes(Rendered(edges, known, locate, a, b), GroupAt(callsOut, a, b)))
      && (b in requested ==> Closes(Rendered(edges, known, locate, a, b), GroupAt(callersIn, b, a)))
  }

  /** The report over all sources.  Two requested files show each other the same
      rows, and a complete report shows the id of every cross-file call of a
      requested file.  `edges` names the edges gathered. */
  method Report(
      g: Graph, requested: set<FileId>, fileCount: nat, visitable: bool, parts: map<FileId, Partition>,
      completeIndex: bool, resident: seq<Edge>, known: map<FuncId, FileId>, locate: Edge -> Option<ModuleEdge>)
    returns (callsOut: Groups, callersIn: Groups, complete: bool, ghost edges: seq<Edge>)
    requires Complete(g) && Partitioned(g, parts) && Agrees(known, g)
    requires visitable ==> g.fileOf.Values <= parts.Keys
    requires Serves(g, requested, resident)
    ensures forall a, b :: a in requested && b in requested ==> GroupAt(callsOut, a, b) == GroupAt(callersIn, b, a)
    ensures forall a, b, m :: m in GroupAt(callsOut, a, b) ==> IsCall(g, a, b, m, locate)
    ensures forall a, b, m :: m in GroupAt(callersIn, b, a) ==> IsCall(g, a, b, m, locate)
    ensures Shows(callsOut, callersIn, edges, known, requested, locate)
    ensures (forall e :: e in edges ==> e in g.edges) && (complete ==> Serves(g, requested, edges))
    ensures complete <==>
      && (completeIndex || (requested != {} && requested <= parts.Keys))
      && forall e :: e in edges ==> Handled(known, requested, locate, e)
    ensures forall e, side ::
      && e in g.edges && side in requested * parts.Keys && g.fileOf[e.from] != g.fileOf[e.to]
      && (side == g.fileOf[e.from] || side == g.fileOf[e.to])
      && e.from in known && e.to in known && locate(e).Some? ==>
      HasId(if side == g.fileOf[e.from] then GroupAt(callsOut, side, g.fileOf[e.to])
            else GroupAt(callersIn, side, g.fileOf[e.from]), locate(e).value.edgeId)
    ensures complete ==>
      forall e :: e in g.edges && Reported(g.fileOf, requested, e) ==>
        && locate(e).Some? && e.from in known && e.to in known
        && (g.fileOf[e.from] in requested ==>
              HasId(GroupAt(callsOut, g.fileOf[e.from], g.fileOf[e.to]), locate(e).value.edgeId))
        && (g.fileOf[e.to] in requested ==>
              HasId(GroupAt(callersIn, g.fileOf[e.to], g.fileOf[e.from]), locate(e).value.edgeId))
  {
    hide GroupAt, Rendered, Closes, HasId;
    var found, gathered := Gather(g, requested, fileCount, visitable, parts, completeIndex, resident);
    edges := found;
    var outs, ins;
    outs, ins, complete := GroupEdges(found, known, requested, locate, gathered);
    callsOut := CloseAll(outs);
    callersIn := CloseAll(ins);
    NothingCloses();
    ClosedSidesAgree(outs, callsOut, ins, callersIn, edges, known, requested, locate);
    ClosedAreCalls(g, outs, callsOut, ins, callersIn, edges, known, requested, locate);
    ClosedHaveIds(callsOut, callersIn, edges, known, requested, locate);
    forall e | e in edges && e.from in known && e.to in known && locate(e).Some?
      ensures locate(e).value in Rendered(edges, known, locate, g.fileOf[e.from], g.fileOf[e.to])
    {
      RenderedHolds(edges, known, locate, g.fileOf[e.from], g.fileOf[e.to], locate(e).value);
    }
    if complete {
      forall e | e in g.edges && Reported(g.fileOf, requested, e)
        ensures locate(e).Some? && e.from in known && e.to in known
        ensures locate(e).value in Rendered(edges, known, locate, g.fileOf[e.from], g.fileOf[e.to])
      {
        assert e in edges && Handled(known, requested, locate, e);
      }
    }
  }

  lemma ClosedSidesAgree(
      outs: Groups, callsOut: Groups, ins: Groups, callersIn: Groups, edges: seq<Edge>, known: map<FuncId, FileId>,
      requested: set<FileId>, locate: Edge -> Option<ModuleEdge>)
    requires OutGroups(outs, edges, known, requested, locate) && InGroups(ins, edges, known, requested, locate)
    requires forall a, b :: Closes(GroupAt(outs, a, b), GroupAt(callsOut, a, b))
    requires forall a, b :: Closes(GroupAt(ins, a, b), GroupAt(callersIn, a, b))
    ensures forall a, b :: a in requested && b in requested ==> GroupAt(callsOut, a, b) == GroupAt(callersIn, b, a)
    ensures Shows(callsOut, callersIn, edges, known, requested, locate)
  {
    hide GroupAt, Rendered, Closes;
    forall a, b | a in requested && b in requested
      ensures GroupAt(callsOut, a, b) == GroupAt(callersIn, b, a)
    {
      ClosesOnce(GroupAt(outs, a, b), GroupAt(callsOut, a, b), GroupAt(callersIn, b, a));
    }
  }

  lemma ClosedAreCalls(
      g: Graph, outs: Groups, callsOut: Groups, ins: Groups, callersIn: Groups, edges: seq<Edge>,
      known: map<FuncId, FileId>, requested: set<FileId>, locate: Edge -> Option<ModuleEdge>)
    requires OutGroups(outs, edges, known, requested, locate) && InGroups(ins, edges, known, requested, locate)
    requires forall a, b :: Closes(GroupAt(outs, a, b), GroupAt(callsOut, a, b))
    requires forall a, b :: Closes(GroupAt(ins, a, b), GroupAt(callersIn, a, b))
    requires Agrees(known, g) && forall e :: e in edges ==> e in g.edges
    ensures forall a, b, m :: m in GroupAt(callsOut, a, b) ==> IsCall(g, a, b, m, locate)
    ensures forall a, b, m :: m in GroupAt(callersIn, b, a) ==> IsCall(g, a, b, m, locate)
  {
    hide GroupAt, Rendered, Closes, IsCall;
    RenderedCalls(g, edges, known, locate);
    forall a, b, m | m in GroupAt(callsOut, a, b)
      ensures IsCall(g, a, b, m, locate)
    {
      ClosingKeepsIds(GroupAt(outs, a, b), GroupAt(callsOut, a, b));
      assert m in Rendered(edges, known, locate, a, b);
    }
    forall a, b, m | m in GroupAt(callersIn, b, a)
      ensures IsCall(g, a, b, m, locate)
    {
      ClosingKeepsIds(GroupAt(ins, b, a), GroupAt(callersIn, b, a));
      assert m in Rendered(edges, known, locate, a, b);
    }
  }

  lemma ClosedHaveIds(
      callsOut: Groups, callersIn: Groups, edges: seq<Edge>, known: map<FuncId, FileId>, requested: set<FileId>,
      locate: Edge -> Option<ModuleEdge>)
    requires Shows(callsOut, callersIn, edges, known, requested, locate)
    ensures forall a, b, m :: a != b && m in Rendered(edges, known, locate, a, b) ==>
      && (a in requested ==> HasId(GroupAt(callsOut, a, b), m.edgeId))
      && (b in requested ==> HasId(GroupAt(callersIn, b, a), m.edgeId))
  {
    hide GroupAt, Rendered, Closes, HasId;
    forall a, b, m | a != b && m in Rendered(edges, known, locate, a, b)
      ensures a in requested ==> HasId(GroupAt(callsOut, a, b), m.edgeId)
      ensures b in requested ==> HasId(GroupAt(callersIn, b, a), m.edgeId)
    {
      if a in requested {
        ClosingKeepsIds(Rendered(edges, known, locate, a, b), GroupAt(callsOut, a, b));
      }
      if b in requested {
        ClosingKeepsIds(Rendered(edges, known, locate, a, b), GroupAt(callersIn, b, a));
      }
    }
  }

  /** The row of one edge is itself in the report if and only if, among the
      rendered rows of its group, an occurrence of it opens a run of its id; and
      it surely is where no other row of the group has that id. */
  lemma EdgeIsShownExactlyWhen(
      callsOut: Groups, callersIn: Groups, edges: seq<Edge>, known: map<FuncId, FileId>, requested: set<FileId>,
      locate: Edge -> Option<ModuleEdge>, e: Edge)
    requires Shows(callsOut, callersIn, edges, known, requested, locate)
    requires e in edges && Reported(known, requested, e) && locate(e).Some?
    ensures var a, b, m := known[e.from], known[e.to], locate(e).value;
            var rows := Rendered(edges, known, locate, a, b);
            var leads := exists i :: 0 <= i < |rows| && rows[i] == m && Leads(rows, i);
            && m in rows
            && (a in requested ==> (m in GroupAt(callsOut, a, b) <==> leads))
            && (b in requested ==> (m in GroupAt(callersIn, b, a) <==> leads))
            && ((forall n :: n in rows && n.edgeId == m.edgeId ==> n == m) ==> leads)
  {
    hide GroupAt, Rendered, Closes, Leads;
    var a, b, m := known[e.from], known[e.to], locate(e).value;
    var rows := Rendered(edges, known, locate, a, b);
    RenderedHolds(edges, known, locate, a, b, m);
    if a in requested {
      SurvivesExactlyWhen(rows, GroupAt(callsOut, a, b), m);
    }
    if b in requested {
      SurvivesExactlyWhen(rows, GroupAt(callersIn, b, a), m);
    }
    if forall n :: n in rows && n.edgeId == m.edgeId ==> n == m {
      var closed := ClosingExists(rows);
      ClosingKeepsIds(rows, closed);
      SurvivesExactlyWhen(rows, closed, m);
      var q :| q in closed && q.edgeId == m.edgeId;
    }
  }

  /** The row of an edge from function 1 in file 0, at one call site. */
  function RowAt(hash: (string, string, string, nat, nat) -> string, e: Edge): ModuleEdge {
    ModuleEdge(e.from, e.to, hash("main", "run", "a.py", 7, 4), "main", 3, "run", 10 * e.to, 7, 4)
  }

  /** The report on a virtual call in file 0 with two targets named `run` in
      file 1. */
  ghost predicate TwoTargets(
      hash: (string, string, string, nat, nat) -> string, callsOut: Groups, callersIn: Groups)
  {
    Shows(callsOut, callersIn, [Edge(1, 2, Span(0, 70, 80)), Edge(1, 3, Span(0, 70, 80))],
          map[1 := 0, 2 := 1, 3 := 1], {0}, e => Some(RowAt(hash, e)))
  }

  /** Every edge is known and located, so the report stays complete, and one of
      the two targets is not shown. */
  lemma CompleteReportMissesATarget(
      hash: (string, string, string, nat, nat) -> string, callsOut: Groups, callersIn: Groups)
    requires TwoTargets(hash, callsOut, callersIn)
    ensures var e, fileOf := Edge(1, 3, Span(0, 70, 80)), map[1 := 0, 2 := 1, 3 := 1];
            && Handled(fileOf, {0}, e => Some(RowAt(hash, e)), e) && Reported(fileOf, {0}, e)
            && RowAt(hash, e) !in GroupAt(callsOut, 0, 1)
  {
    hide Closes, GroupAt;
    var e, f := Edge(1, 2, Span(0, 70, 80)), Edge(1, 3, Span(0, 70, 80));
    var fileOf, locate := map[1 := 0, 2 := 1, 3 := 1], (e: Edge) => Some(RowAt(hash, e));
    assert [e, f][..1] == [e] && [e][..0] == [];
    assert Rendered([e], fileOf, locate, 0, 1) == [RowAt(hash, e)];
    assert Rendered([e, f], fileOf, locate, 0, 1) == [RowAt(hash, e), RowAt(hash, f)];
    assert [RowAt(hash, e), RowAt(hash, f)] + [] == [RowAt(hash, e), RowAt(hash, f)];
    FirstShadowsSecond(RowAt(hash, e), RowAt(hash, f), [], GroupAt(callsOut, 0, 1));
  }

  /** `m` is where some call of the graph from file `a` to file `b` stands. */
  ghost predicate IsCall(g: Graph, a: FileId, b: FileId, m: ModuleEdge, locate: Edge -> Option<ModuleEdge>) {
    exists e :: e in g.edges && Joins(g.fileOf, e, a, b) && locate(e) == Some(m)
  }

  lemma RenderedCalls(g: Graph, edges: seq<Edge>, known: map<FuncId, FileId>, locate: Edge -> Option<ModuleEdge>)
    requires Agrees(known, g) && forall e :: e in edges ==> e in g.edges
    ensures forall a, b, m :: m in Rendered(edges, known, locate, a, b) ==> IsCall(g, a, b, m, locate)
  {
    forall a, b, m | m in Rendered(edges, known, locate, a, b)
      ensures IsCall(g, a, b, m, locate)
    {
      RenderedHolds(edges, known, locate, a, b, m);
    }
  }
}
