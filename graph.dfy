/**
 * The graph example that every dataset conversion fills in: ordered nodes,
 * edges between node ids, and one class output.  The class is the mutable
 * builder; `Example` is its value, the form that hooks and the validity
 * check look at.
 */
module Graph {
  import opened Wrappers

  datatype Node = Node(id: int, nodeType: string, value: string)

  datatype Edge = Edge(src: int, dst: int, edgeType: string)

  /** The contents of a graph example at one moment. */
  datatype Example = Example(nodes: seq<Node>, edges: seq<Edge>, output: Option<string>)

  /** The node ids are 0, 1, ..., N-1 in insertion order. */
  ghost predicate DenseIds(nodes: seq<Node>)
  {
    forall i :: 0 <= i < |nodes| ==> nodes[i].id == i
  }

  /** Every edge endpoint is the id of an existing node. */
  ghost predicate EndpointsExist(e: Example)
  {
    forall j :: 0 <= j < |e.edges| ==>
      0 <= e.edges[j].src < |e.nodes| && 0 <= e.edges[j].dst < |e.nodes|
  }

  /**
   * The invariants `check_if_valid` is meant to enforce: dense ids, edges
   * between existing nodes, and an output that is set.
   */
  ghost predicate WellFormed(e: Example)
  {
    DenseIds(e.nodes) && EndpointsExist(e) && e.output.Some?
  }

  class GraphToOutputExample {
    var nodes: seq<Node>
    var edges: seq<Edge>
    var output: Option<string>

    /** A new graph example is empty and has no output. */
    constructor ()
      ensures nodes == [] && edges == [] && output == None
    {
      nodes := [];
      edges := [];
      output := None;
    }

    /** The current contents, as a value. */
    function Value(): Example
      reads this
    {
      Example(nodes, edges, output)
    }

    method AddNode(id: int, nodeType: string, value: string)
      modifies this
      ensures nodes == old(nodes) + [Node(id, nodeType, value)]
      ensures edges == old(edges) && output == old(output)
    {
      nodes := nodes + [Node(id, nodeType, value)];
    }

    method AddEdge(src: int, dst: int, edgeType: string)
      modifies this
      ensures edges == old(edges) + [Edge(src, dst, edgeType)]
      ensures nodes == old(nodes) && output == old(output)
    {
      edges := edges + [Edge(src, dst, edgeType)];
    }

    method AddClassOutput(classLabel: string)
      modifies this
      ensures output == Some(classLabel)
      ensures nodes == old(nodes) && edges == old(edges)
    {
      output := Some(classLabel);
    }
  }
}
