/**
 * Conversion of one token record into a graph example
 * (`ManySStuBs4JDataset.raw_data_to_graph_to_output_example`): the tokens
 * become a chain of nodes linked by `NEXT_TOKEN` edges, the label becomes
 * the class output, the transformation hooks rewrite the graph, the
 * validity check guards it and the filter hooks may drop it.
 */
module Conversion {
  import opened Wrappers
  import opened Graph

  /** The data split an example is assigned to. */
  datatype Split = Train | Validation | Test

  /** A source code token as (token type name, token text). */
  type Token = (string, string)

  /** A record with the keys `split`, `tokens` and `label`. */
  datatype RawRecord = RawRecord(split: Split, tokens: seq<Token>, classLabel: string)

  /** The keys `split` and `GraphToOutputExample` of the returned dictionary. */
  datatype Converted = Converted(split: Split, example: Option<Example>)

  /** `GraphToOutputExampleNotValidError`, carrying the rejected graph. */
  datatype ConversionError = GraphNotValid(example: Example)

  type Transformation = Example -> Example

  type Filter = Example -> bool

  const NextToken: string := "NEXT_TOKEN"

  /** Node i has id i and carries token i. */
  function ChainNodes(tokens: seq<Token>): seq<Node>
  {
    seq(|tokens|, i requires 0 <= i < |tokens| => Node(i, tokens[i].0, tokens[i].1))
  }

  /** The first `count` links of the chain: edge j goes from node j to node j+1. */
  function NextTokenEdges(count: nat): seq<Edge>
  {
    seq(count, j => Edge(j, j + 1, NextToken))
  }

  /** Number of links in a chain of n nodes. */
  function LinkCount(n: nat): nat
  {
    if n == 0 then 0 else n - 1
  }

  /** The graph built from a record before any hook runs. */
  function ChainGraph(tokens: seq<Token>, classLabel: string): Example
  {
    Example(ChainNodes(tokens), NextTokenEdges(LinkCount(|tokens|)), Some(classLabel))
  }

  /** The (type, value) pairs carried by a sequence of nodes. */
  function NodeTokens(nodes: seq<Node>): seq<Token>
  {
    seq(|nodes|, i requires 0 <= i < |nodes| => (nodes[i].nodeType, nodes[i].value))
  }

  /** The result of running the transformations in order, each on the previous result. */
  function ApplyAll(ts: seq<Transformation>, g: Example): Example
  {
    if ts == [] then g else ts[|ts| - 1](ApplyAll(ts[..|ts| - 1], g))
  }

  /** The index of the first filter that rejects `g`, if any. */
  function FirstRejecting(fs: seq<Filter>, g: Example): (r: Option<nat>)
    ensures r.Some? ==> r.value < |fs| && !fs[r.value](g)
    ensures r.Some? ==> forall j :: 0 <= j < r.value ==> fs[j](g)
    ensures r.None? ==> forall j :: 0 <= j < |fs| ==> fs[j](g)
  {
    if fs == [] then None
    else if !fs[0](g) then Some(0)
    else match FirstRejecting(fs[1..], g)
      case None => None
      case Some(k) => Some(k + 1)
  }

  /** How many filters are called on `g`: up to and including the first that rejects. */
  function FiltersConsulted(fs: seq<Filter>, g: Example): nat
  {
    match FirstRejecting(fs, g)
    case Some(k) => k + 1
    case None => |fs|
  }

  /** What converting one record returns or raises. */
  function Convert(rec: RawRecord, ts: seq<Transformation>, isValid: Filter, fs: seq<Filter>)
    : Result<Converted, ConversionError>
  {
    var g := ApplyAll(ts, ChainGraph(rec.tokens, rec.classLabel));
    if !isValid(g) then Failure(GraphNotValid(g))
    else Success(Converted(rec.split, if FirstRejecting(fs, g).Some? then None else Some(g)))
  }

  /**
   * Builds the chain graph in a fresh graph object, runs the transformations,
   * checks validity and runs the filters.  `consulted` is the number of filter
   * calls made.
   */
  method RawDataToGraphToOutputExample(
    rawData: RawRecord, transformationFuncs: seq<Transformation>,
    checkIfValid: Filter, filterFuncs: seq<Filter>)
    returns (r: Result<Converted, ConversionError>, ghost consulted: nat)
    ensures r == Convert(rawData, transformationFuncs, checkIfValid, filterFuncs)
    ensures r.Failure? ==> consulted == 0
    ensures r.Success? ==> consulted == FiltersConsulted(
      filterFuncs, ApplyAll(transformationFuncs, ChainGraph(rawData.tokens, rawData.classLabel)))
  {
    var split := rawData.split;
    var tokens := rawData.tokens;
    var classLabel := rawData.classLabel;
    var graph := new GraphToOutputExample();

    for index := 0 to |tokens|
      invariant graph.nodes == ChainNodes(tokens[..index])
      invariant graph.edges == [] && graph.output == None
    {
      graph.AddNode(index, tokens[index].0, tokens[index].1);
    }
    assert tokens[..|tokens|] == tokens;

    var n := |graph.nodes|;
    var i := 0;
    while i < n - 1
      invariant 0 <= i <= LinkCount(n)
      invariant graph.nodes == ChainNodes(tokens) && graph.output == None
      invariant graph.edges == NextTokenEdges(i)
    {
      graph.AddEdge(i, i + 1, NextToken);
      i := i + 1;
    }

    graph.AddClassOutput(classLabel);

    var g := graph.Value();
    ghost var built := g;
    assert built == ChainGraph(tokens, classLabel);
    for k := 0 to |transformationFuncs|
      invariant g == ApplyAll(transformationFuncs[..k], built)
    {
      assert transformationFuncs[..k + 1][..k] == transformationFuncs[..k];
      g := transformationFuncs[k](g);
    }
    assert transformationFuncs[..|transformationFuncs|] == transformationFuncs;

    if !checkIfValid(g) {
      return Failure(GraphNotValid(g)), 0;
    }

    var example := Some(g);
    consulted := 0;
    var f := 0;
    while f < |filterFuncs|
      invariant 0 <= f <= |filterFuncs| && consulted == f
      invariant forall j :: 0 <= j < f ==> filterFuncs[j](g)
      invariant example == Some(g)
    {
      consulted := consulted + 1;
      if !filterFuncs[f](g) {
        example := None;
        break;
      }
      f := f + 1;
    }
    return Success(Converted(split, example)), consulted;
  }

  /** The chain nodes carry the record's tokens in order, under the ids 0 .. N-1. */
  lemma ChainNodesRoundTrip(tokens: seq<Token>)
    ensures |ChainNodes(tokens)| == |tokens|
    ensures DenseIds(ChainNodes(tokens))
    ensures NodeTokens(ChainNodes(tokens)) == tokens
  {
  }

  /**
   * A chain of n nodes has max(n-1, 0) links, the i-th linking node i to node
   * i+1, and an edge is a link exactly when it joins a node to the next one.
   */
  lemma ChainEdgesExactly(n: nat, e: Edge)
    ensures |NextTokenEdges(LinkCount(n))| == if n <= 1 then 0 else n - 1
    ensures forall i :: 0 <= i < |NextTokenEdges(LinkCount(n))| ==>
      NextTokenEdges(LinkCount(n))[i] == Edge(i, i + 1, NextToken)
    ensures e in NextTokenEdges(LinkCount(n)) <==>
      0 <= e.src && e.dst == e.src + 1 && e.dst < n && e.edgeType == NextToken
  {
    if 0 <= e.src && e.dst == e.src + 1 && e.dst < n && e.edgeType == NextToken {
      assert NextTokenEdges(LinkCount(n))[e.src] == e;
    }
  }

  /** The chain graph keeps the graph invariants and its output is the label. */
  lemma ChainGraphWellFormed(tokens: seq<Token>, classLabel: string)
    ensures WellFormed(ChainGraph(tokens, classLabel))
    ensures ChainGraph(tokens, classLabel).output == Some(classLabel)
  {
  }

  /** Running t first and then ts is running [t] + ts. */
  lemma {:induction false} ApplyAllFirst(t: Transformation, ts: seq<Transformation>, g: Example)
    ensures ApplyAll([t] + ts, g) == ApplyAll(ts, t(g))
    decreases |ts|
  {
    if ts != [] {
      var init := ts[..|ts| - 1];
      assert ([t] + ts)[..|ts|] == [t] + init;
      ApplyAllFirst(t, init, g);
    }
  }

  /** Running a and then b is running a + b: each hook consumes the previous result. */
  lemma {:induction false} ApplyAllAppend(a: seq<Transformation>, b: seq<Transformation>, g: Example)
    ensures ApplyAll(a + b, g) == ApplyAll(b, ApplyAll(a, g))
    decreases |b|
  {
    if b == [] {
      assert a + b == a;
    } else {
      var init := b[..|b| - 1];
      assert (a + b)[..|a + b| - 1] == a + init;
      ApplyAllAppend(a, init, g);
    }
  }

  /**
   * Conversion raises exactly when the transformed graph is not valid, and
   * the error carries that graph.
   */
  lemma ConvertRaisesIffInvalid(rec: RawRecord, ts: seq<Transformation>, isValid: Filter, fs: seq<Filter>)
    ensures Convert(rec, ts, isValid, fs).Failure? <==>
      !isValid(ApplyAll(ts, ChainGraph(rec.tokens, rec.classLabel)))
    ensures Convert(rec, ts, isValid, fs).Failure? ==>
      Convert(rec, ts, isValid, fs).error.example == ApplyAll(ts, ChainGraph(rec.tokens, rec.classLabel))
  {
  }

  /**
   * On a valid transformed graph the split is passed through; the example is
   * dropped exactly when some filter rejects the graph, and otherwise it is the
   * transformed graph itself.
   */
  lemma ConvertAccepted(rec: RawRecord, ts: seq<Transformation>, isValid: Filter, fs: seq<Filter>)
    requires isValid(ApplyAll(ts, ChainGraph(rec.tokens, rec.classLabel)))
    ensures Convert(rec, ts, isValid, fs).Success?
    ensures Convert(rec, ts, isValid, fs).value.split == rec.split
    ensures Convert(rec, ts, isValid, fs).value.example.None? <==>
      exists j :: 0 <= j < |fs| && !fs[j](ApplyAll(ts, ChainGraph(rec.tokens, rec.classLabel)))
    ensures Convert(rec, ts, isValid, fs).value.example.Some? ==>
      Convert(rec, ts, isValid, fs).value.example.value == ApplyAll(ts, ChainGraph(rec.tokens, rec.classLabel))
  {
  }

  /**
   * With no hooks and a passing validity check, the example is the chain
   * graph: one node per token in order, the chain links and the label.
   */
  lemma ConvertWithoutHooks(rec: RawRecord, isValid: Filter)
    requires isValid(ChainGraph(rec.tokens, rec.classLabel))
    ensures Convert(rec, [], isValid, []).Success?
    ensures Convert(rec, [], isValid, []).value.split == rec.split
    ensures Convert(rec, [], isValid, []).value.example.Some?
    ensures NodeTokens(Convert(rec, [], isValid, []).value.example.value.nodes) == rec.tokens
    ensures |Convert(rec, [], isValid, []).value.example.value.edges| == LinkCount(|rec.tokens|)
    ensures Convert(rec, [], isValid, []).value.example.value.output == Some(rec.classLabel)
  {
    ChainNodesRoundTrip(rec.tokens);
  }

  /** Three tokens give nodes 0, 1, 2 and exactly the links (0, 1) and (1, 2). */
  lemma ThreeTokenChain()
    ensures ChainGraph([("A", "x"), ("B", "y"), ("C", "z")], "L") ==
      Example([Node(0, "A", "x"), Node(1, "B", "y"), Node(2, "C", "z")],
              [Edge(0, 1, NextToken), Edge(1, 2, NextToken)], Some("L"))
  {
  }

  /** A single token gives one node and no edge. */
  lemma SingleTokenChain(t: Token, classLabel: string)
    ensures ChainGraph([t], classLabel) == Example([Node(0, t.0, t.1)], [], Some(classLabel))
  {
  }
}
