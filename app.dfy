/**
 * The editor's top-level component state (`App` in src/App.tsx): the node and
 * edge lists, whether the edit dialog is open, which node it edits and whether
 * the form has unsaved changes, with the handlers that update them.
 */
module FlowApp {
  import opened Options
  import opened Js
  import opened NodeTypes
  import opened NodeIds
  import opened InitialGraph
  import opened GraphEdits

  class App {
    var nodes: seq<AppNode>
    var edges: seq<Edge>
    var isModalOpen: bool
    var selectedNode: Option<AppNode>
    var hasChanges: bool

    /**
     * The dialog is open exactly when a node is selected for editing, the
     * change flag stays down (no handler of the editor ever raises it), and
     * every `node` id has a number after the prefix, so "Add Node" is defined.
     */
    predicate Valid()
      reads this
    {
      (isModalOpen <==> selectedNode.Some?) && !hasChanges && SuffixesParse(Ids(nodes))
    }

    /** The initial nodes, no edges (`defaultEdges`), the dialog closed. */
    constructor ()
      ensures Valid()
      ensures nodes == InitialNodes && edges == []
      ensures !isModalOpen && selectedNode == None && !hasChanges
    {
      nodes := InitialNodes;
      edges := [];
      isModalOpen := false;
      selectedNode := None;
      hasChanges := false;
      InitialNextId();
    }

    /**
     * `onConnect`: hands the styled connection record to the canvas library's
     * `addEdge`, given here as a parameter, and keeps what it returns.
     */
    method OnConnect(params: Connection, addEdge: (Edge, seq<Edge>) -> seq<Edge>)
      requires Valid()
      modifies this
      ensures Valid()
      ensures edges == addEdge(ConnectionEdge(params), old(edges))
      ensures nodes == old(nodes) && isModalOpen == old(isModalOpen)
      ensures selectedNode == old(selectedNode) && hasChanges == old(hasChanges)
    {
      edges := addEdge(ConnectionEdge(params), edges);
    }

    /** `handleEditNode`: selects the node, opens the dialog, clears the change flag. */
    method EditNode(node: AppNode)
      requires Valid()
      modifies this
      ensures Valid()
      ensures selectedNode == Some(node) && isModalOpen && !hasChanges
      ensures nodes == old(nodes) && edges == old(edges)
    {
      selectedNode := Some(node);
      isModalOpen := true;
      hasChanges := false;
    }

    /** `handleDeleteNode`: drops the nodes with the node's id and every edge touching it. */
    method DeleteNode(node: AppNode)
      requires Valid()
      modifies this
      ensures Valid()
      ensures nodes == WithoutNode(old(nodes), node.id)
      ensures edges == WithoutIncident(old(edges), node.id)
      ensures isModalOpen == old(isModalOpen) && selectedNode == old(selectedNode)
      ensures hasChanges == old(hasChanges)
    {
      DeleteKeepsIdsParsing(nodes, node.id);
      nodes := WithoutNode(nodes, node.id);
      edges := WithoutIncident(edges, node.id);
    }

    /**
     * `handleAddNode`: appends a button node with the next free id; `position`
     * stands for the random coordinates the source draws.
     */
    method AddNode(position: Position)
      requires Valid()
      modifies this
      ensures Valid()
      ensures nodes == old(nodes) + [NewButtonNode(NodeId(NextSuffix(Ids(old(nodes)))), position)]
      ensures edges == old(edges) && isModalOpen == old(isModalOpen)
      ensures selectedNode == old(selectedNode) && hasChanges == old(hasChanges)
    {
      var nextId := GetNextNodeId(nodes);
      AddNodeKeepsIdsParsing(nodes, position);
      nodes := nodes + [NewButtonNode(nextId, position)];
    }

    /** `handleCloseModal`: closes the dialog and clears the selection and the change flag. */
    method CloseModal()
      requires Valid()
      modifies this
      ensures Valid()
      ensures !isModalOpen && selectedNode == None && !hasChanges
      ensures nodes == old(nodes) && edges == old(edges)
    {
      isModalOpen := false;
      selectedNode := None;
      hasChanges := false;
    }

    /**
     * `handleSaveChanges`: with a node selected, overlays the updates on the
     * nodes with its id and closes the dialog; with none selected, does nothing.
     */
    method SaveChanges(updates: Value)
      requires Valid()
      modifies this
      ensures Valid()
      ensures old(selectedNode).Some? ==>
        && nodes == ApplySave(old(nodes), old(selectedNode).value.id, updates)
        && !isModalOpen && selectedNode == None && !hasChanges
      ensures old(selectedNode).None? ==>
        && nodes == old(nodes) && isModalOpen == old(isModalOpen)
        && selectedNode == old(selectedNode) && hasChanges == old(hasChanges)
      ensures edges == old(edges)
    {
      if selectedNode.Some? {
        ApplySaveKeepsIds(nodes, selectedNode.value.id, updates);
        nodes := ApplySave(nodes, selectedNode.value.id, updates);
        isModalOpen := false;
        selectedNode := None;
        hasChanges := false;
      }
    }
  }

  /**
   * The node list after "Add Node": the old nodes unchanged and in order,
   * followed by exactly one button node labelled with the number of its id.
   */
  function AddedNodes(nodes: seq<AppNode>, position: Position): (r: seq<AppNode>)
    requires SuffixesParse(Ids(nodes))
  {
    nodes + [NewButtonNode(NodeId(NextSuffix(Ids(nodes))), position)]
  }

  /** What "Add Node" promises about the appended node and the nodes already there. */
  lemma AddNodeAppendsOne(nodes: seq<AppNode>, position: Position)
    requires SuffixesParse(Ids(nodes))
    ensures |AddedNodes(nodes, position)| == |nodes| + 1
    ensures AddedNodes(nodes, position)[..|nodes|] == nodes
    ensures var n := NextSuffix(Ids(nodes)); var added := AddedNodes(nodes, position)[|nodes|];
      && added.id == NodeId(n) && n >= 1
      && IsAppNode(added) && added.kind == ButtonType && added.position == position
      && added.data["label"] == Str("Node " + Text.Decimal(n))
      && ClickText(added.data["onClick"].callback) == Done("Node " + Text.Decimal(n) + " clicked!")
  {
    NewNodeOfNodeId(NextSuffix(Ids(nodes)), position);
  }

  /** The next "Add Node" is still defined: the appended id has a number after `node`. */
  lemma AddNodeKeepsIdsParsing(nodes: seq<AppNode>, position: Position)
    requires SuffixesParse(Ids(nodes))
    ensures SuffixesParse(Ids(AddedNodes(nodes, position)))
  {
    var n := NextSuffix(Ids(nodes));
    var ids := Ids(AddedNodes(nodes, position));
    SuffixOfNodeId(n);
    forall id | id in ids && Text.StartsWith(id, Prefix) ensures SuffixOf(id).Some? {
      var i :| 0 <= i < |ids| && ids[i] == id;
      if i < |nodes| {
        assert id in Ids(nodes);
      }
    }
  }

  /** Deleting keeps every `node` id parsing: the remaining ids are among the old ones. */
  lemma DeleteKeepsIdsParsing(nodes: seq<AppNode>, id: string)
    requires SuffixesParse(Ids(nodes))
    ensures SuffixesParse(Ids(WithoutNode(nodes, id)))
  {
    var kept := WithoutNode(nodes, id);
    forall x | x in Ids(kept) && Text.StartsWith(x, Prefix) ensures SuffixOf(x).Some? {
      var i :| 0 <= i < |kept| && Ids(kept)[i] == x;
      assert kept[i] in nodes;
      var j :| 0 <= j < |nodes| && nodes[j] == kept[i];
      assert Ids(nodes)[j] == x;
    }
  }

  /**
   * With distinct positive suffixes the appended node's id is fresh and the
   * suffixes stay distinct and positive, so the ids remain unique after any
   * number of additions.
   */
  lemma AddNodeKeepsIdsUnique(nodes: seq<AppNode>, position: Position)
    requires SuffixesParse(Ids(nodes))
    requires Distinct(Suffixes(Ids(nodes))) && AllPositive(Suffixes(Ids(nodes)))
    ensures NodeId(NextSuffix(Ids(nodes))) !in Ids(nodes)
    ensures SuffixesParse(Ids(AddedNodes(nodes, position)))
    ensures Suffixes(Ids(AddedNodes(nodes, position))) == Suffixes(Ids(nodes)) + [NextSuffix(Ids(nodes))]
    ensures Distinct(Suffixes(Ids(AddedNodes(nodes, position))))
    ensures AllPositive(Suffixes(Ids(AddedNodes(nodes, position))))
  {
    var ids := Ids(nodes);
    var n := NextSuffix(ids);
    NextIdIsFresh(ids);
    SmallestMissing(ids);
    AddNodeKeepsIdsParsing(nodes, position);
    var newIds := Ids(AddedNodes(nodes, position));
    assert newIds == ids + [NodeId(n)];
    SuffixOfNodeId(n);
    PickedConcat(ids, [NodeId(n)], Pick);
    assert Picked([NodeId(n)], Pick) == [n];
  }
}
