/** Resolved call graphs, and the per-file partitions they are persisted in. */
module CallGraphs {
  import opened FlowEvents

  type FuncId = nat
  type FileId = nat

  datatype Edge = Edge(from: FuncId, to: FuncId, span: Span)

  datatype Graph = Graph(fileOf: map<FuncId, FileId>, edges: seq<Edge>)

  datatype Partition = Partition(outgoing: seq<Edge>, incoming: seq<Edge>)

  /** Every edge joins functions the graph knows. */
  ghost predicate Complete(g: Graph) {
    forall e :: e in g.edges ==> e.from in g.fileOf && e.to in g.fileOf
  }

  /** A file's partition holds exactly the edges that leave it and the edges
      that enter it. */
  ghost predicate PartitionOf(g: Graph, file: FileId, p: Partition)
    requires Complete(g)
  {
    && (forall e :: e in p.outgoing <==> e in g.edges && g.fileOf[e.from] == file)
    && (forall e :: e in p.incoming <==> e in g.edges && g.fileOf[e.to] == file)
  }

  ghost predicate Partitioned(g: Graph, parts: map<FileId, Partition>)
    requires Complete(g)
  {
    forall file :: file in parts ==> PartitionOf(g, file, parts[file])
  }
}
