/**
 * The graph the editor starts with (`initialNodes`, `initialEdges`) and worked
 * examples of the id allocator on small graphs.
 */
module InitialGraph {
  import opened Options
  import opened Text
  import opened Js
  import opened NodeTypes
  import opened NodeIds

  /** A header button and one numbered button node (index.ts:8-26). */
  const InitialNodes: seq<AppNode> := [
    AppNode("header", ButtonType, Position(100, 0), map["label" := Str("React Flow Pipeline")]),
    AppNode("node1", ButtonType, Position(175, 150),
      map["label" := Str("Node 1"), "onClick" := Fn(AlertText("Node 1 clicked!"))])
  ]

  /** One animated default edge from the header to `node1` (index.ts:28-37). */
  const InitialEdges: seq<Edge> := [
    Edge(Some("header-node1"), "header", "node1", None, None, Some("default"), true, Some("#4CAF50"))
  ]

  /** The initial graph is well formed: both nodes are button nodes, the edge joins them. */
  lemma InitialGraphWellFormed()
    ensures forall n :: n in InitialNodes ==> IsAppNode(n)
    ensures forall e :: e in InitialEdges ==> e.source in Ids(InitialNodes) && e.target in Ids(InitialNodes)
  {
    var ids := Ids(InitialNodes);
    assert ids[0] == "header" && ids[1] == "node1";
  }

  /** The ids of the initial graph: `header`, then `node1`. */
  lemma InitialIds()
    ensures Ids(InitialNodes) == ["header"] + NodeIdList([1])
  {
    assert NodeId(1) == "node1";
  }

  /** `header` does not start with `node`, so the filter drops it; used by `HeaderThenOne`. */
  lemma HeaderIsNotNodeId()
    ensures !StartsWith("header", Prefix)
  {
    assert "header"[0] != Prefix[0];
  }

  /** `header` followed by `node1` gives 2. */
  lemma HeaderThenOne()
    ensures SuffixesParse(["header"] + NodeIdList([1]))
    ensures NextSuffix(["header"] + NodeIdList([1])) == 2
  {
    var one := NodeIdList([1]);
    HeaderIsNotNodeId();
    SuffixesOfNodeIds([1]);
    assert [] + one == one && [] + ["header"] + one == ["header"] + one;
    NonNodeIdIgnored([], "header", one);
    SortAscendingSorted([1]);
    assert GapFrom([1], 1) == 2;
  }

  /** For the initial graph (`header`, `node1`) the next id is `node2`. */
  lemma InitialNextId()
    ensures SuffixesParse(Ids(InitialNodes))
    ensures NodeId(NextSuffix(Ids(InitialNodes))) == "node2"
  {
    InitialIds();
    HeaderThenOne();
  }

  /** `{node1, node2}` gives `node3`. */
  lemma ConsecutiveExample()
    ensures SuffixesParse(NodeIdList([1, 2]))
    ensures NodeId(NextSuffix(NodeIdList([1, 2]))) == "node3"
  {
    SuffixesOfNodeIds([1, 2]);
    SortAscendingSorted([1, 2]);
    assert GapFrom([1, 2], 1) == 3;
  }

  /** `{node1, node3}` gives `node2`. */
  lemma GapExample()
    ensures SuffixesParse(NodeIdList([1, 3]))
    ensures NodeId(NextSuffix(NodeIdList([1, 3]))) == "node2"
  {
    SuffixesOfNodeIds([1, 3]);
    SortAscendingSorted([1, 3]);
    assert GapFrom([1, 3], 1) == 2;
  }

  /** Without positive suffixes the id can collide: `{node0, node1}` gives `node1`, which exists. */
  lemma ZeroSuffixCollides()
    ensures SuffixesParse(NodeIdList([0, 1]))
    ensures NextSuffix(NodeIdList([0, 1])) == 1
    ensures NodeId(1) in NodeIdList([0, 1])
  {
    SuffixesOfNodeIds([0, 1]);
    SortAscendingSorted([0, 1]);
    assert GapFrom([0, 1], 1) == 1;
    assert NodeIdList([0, 1])[1] == NodeId(1);
  }

  /**
   * Without distinct suffixes the id can collide: `node1` and `node01` both have
   * suffix 1, so `{node1, node01, node2}` gives `node2`, which exists.
   */
  lemma DuplicateSuffixCollides()
    ensures SuffixesParse([NodeId(1), PaddedNodeId(1), NodeId(2)])
    ensures NextSuffix([NodeId(1), PaddedNodeId(1), NodeId(2)]) == 2
    ensures NodeId(2) in [NodeId(1), PaddedNodeId(1), NodeId(2)]
  {
    SuffixOfNodeId(1);
    SuffixOfNodeId(2);
    PaddedSuffix(1);
    SuffixesAre([NodeId(1), PaddedNodeId(1), NodeId(2)], [1, 1, 2]);
    OneOneTwo();
  }

  /** The scan over the suffixes 1, 1, 2 stops at 2; used by `DuplicateSuffixCollides`. */
  lemma OneOneTwo()
    ensures GapFrom(SortAscending([1, 1, 2]), 1) == 2
  {
    SortAscendingSorted([1, 1, 2]);
    assert GapFrom([1, 1, 2], 1) == 2;
  }
}
