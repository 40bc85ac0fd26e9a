/** The concrete parts of AnnotationSerializer.java: the delegations from
    documents to annotations, and the intermediate records a dependency
    graph passes through on its way to and from a serialized stream. */
module AnnotationSerializer {
  import opened JavaInt

  /** A CoreDocument, as far as the serializer sees it: a wrapper around
      its annotation (its own class is not part of this model). */
  datatype CoreDocument<A> = CoreDocument(annotation: A)

  /** writeCoreDocument: the serializer's `write` applied to the document's
      wrapped annotation, returning the stream `write` returns. The abstract
      `write` is a parameter; `A` is the annotation, `S` an output stream. */
  function WriteCoreDocument<A(!new), S>(write: (A, S) -> S, document: CoreDocument<A>, os: S): (r: S)
    ensures forall a: A :: document == CoreDocument(a) ==> r == write(a, os)
  {
    var wrappedAnnotation := document.annotation;
    write(wrappedAnnotation, os)
  }

  /** readCoreDocument: wraps the annotation that the abstract `read`
      returns, but hands back the caller's stream (`is` in the source), not
      the stream `read` returned. */
  function ReadCoreDocument<A, S>(read: S -> (A, S), input: S): (r: (CoreDocument<A>, S))
    ensures r.0.annotation == read(input).0
    ensures r.1 == input
  {
    var readPair := read(input);
    (CoreDocument(readPair.0), input)
  }

  /** One node of an intermediate semantic graph (IntermediateNode): a token
      of one sentence of one document, and which copy of it the node is. */
  class IntermediateNode {
    var docId: string
    var sentIndex: int32
    var index: int32
    var copyAnnotation: int32
    var isRoot: bool

    constructor (docId: string, sentIndex: int32, index: int32, copy: int32, isRoot: bool)
      ensures this.docId == docId && this.sentIndex == sentIndex && this.index == index
      ensures this.copyAnnotation == copy && this.isRoot == isRoot
    {
      this.docId := docId;
      this.sentIndex := sentIndex;
      this.index := index;
      this.copyAnnotation := copy;
      this.isRoot := isRoot;
    }
  }

  /** One edge of an intermediate semantic graph (IntermediateEdge): a
      labelled dependency between two (token index, copy) identities. */
  class IntermediateEdge {
    var source: int32
    var sourceCopy: int32
    var target: int32
    var targetCopy: int32
    var dep: string
    var isExtra: bool

    constructor (dep: string, source: int32, sourceCopy: int32, target: int32, targetCopy: int32, isExtra: bool)
      ensures this.dep == dep && this.source == source && this.sourceCopy == sourceCopy
      ensures this.target == target && this.targetCopy == targetCopy && this.isExtra == isExtra
    {
      this.dep := dep;
      this.source := source;
      this.sourceCopy := sourceCopy;
      this.target := target;
      this.targetCopy := targetCopy;
      this.isExtra := isExtra;
    }
  }

  /** An intermediate semantic graph (IntermediateSemanticGraph): its own
      node and edge lists, which callers may replace. */
  class IntermediateSemanticGraph {
    var nodes: seq<IntermediateNode>
    var edges: seq<IntermediateEdge>

    /** The no-argument constructor: two new, empty lists. */
    constructor Empty()
      ensures nodes == [] && edges == []
    {
      nodes := [];
      edges := [];
    }

    /** The copying constructor: the graph's lists hold the caller's nodes
        and edges, element by element, in their own storage. The caller's
        lists are arrays here so that their later mutation can be stated. */
    constructor (nodes: array<IntermediateNode>, edges: array<IntermediateEdge>)
      ensures this.nodes == nodes[..] && this.edges == edges[..]
    {
      this.nodes := nodes[..];
      this.edges := edges[..];
    }
  }

  /** The copies are defensive: overwriting an element of the caller's node
      or edge list after construction leaves the graph's lists as they were. */
  method CopyIsDefensive(nodes: array<IntermediateNode>, edges: array<IntermediateEdge>,
                         n: IntermediateNode, e: IntermediateEdge) returns (g: IntermediateSemanticGraph)
    requires nodes.Length > 0 && edges.Length > 0
    modifies nodes, edges
    ensures fresh(g)
    ensures g.nodes == old(nodes[..]) && g.edges == old(edges[..])
    ensures nodes[0] == n && edges[0] == e
  {
    g := new IntermediateSemanticGraph(nodes, edges);
    nodes[0] := n;
    edges[0] := e;
  }
}
