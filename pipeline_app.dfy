/**
 * The earlier copy of the editor (`App` in reactflowpipeline/src/App.tsx): only
 * the node and edge lists, with connect, delete and add handlers that behave as
 * the main editor's, and an edit handler that changes nothing.
 */
module PipelineFlowApp {
  import opened Js
  import opened NodeTypes
  import opened NodeIds
  import opened GraphEdits

  class PipelineApp {
    var nodes: seq<AppNode>
    var edges: seq<Edge>

    /**
     * The initial nodes come from that copy's own `nodes` module, which is not
     * part of this model, so they are a parameter; the edges start empty.
     */
    constructor (initialNodes: seq<AppNode>)
      ensures nodes == initialNodes && edges == []
    {
      nodes := initialNodes;
      edges := [];
    }

    /** `onConnect`: the styled connection record handed to the library's `addEdge`. */
    method OnConnect(params: Connection, addEdge: (Edge, seq<Edge>) -> seq<Edge>)
      modifies this
      ensures edges == addEdge(ConnectionEdge(params), old(edges))
      ensures nodes == old(nodes)
    {
      edges := addEdge(ConnectionEdge(params), edges);
    }

    /** `handleEditNode` only logs the node. */
    method EditNode(node: AppNode)
      modifies this
      ensures nodes == old(nodes) && edges == old(edges)
    {
    }

    /** `handleDeleteNode`: drops the node's id from the nodes and every edge touching it. */
    method DeleteNode(node: AppNode)
      modifies this
      ensures nodes == WithoutNode(old(nodes), node.id)
      ensures edges == WithoutIncident(old(edges), node.id)
    {
      nodes := WithoutNode(nodes, node.id);
      edges := WithoutIncident(edges, node.id);
    }

    /** `handleAddNode`: appends a button node with the next free id at `position`. */
    method AddNode(position: Position)
      requires SuffixesParse(Ids(nodes))
      modifies this
      ensures nodes == old(nodes) + [NewButtonNode(NodeId(NextSuffix(Ids(old(nodes)))), position)]
      ensures edges == old(edges)
    {
      var nextId := GetNextNodeId(nodes);
      nodes := nodes + [NewButtonNode(nextId, position)];
    }
  }
}
