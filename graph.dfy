/**
 * The pure graph edits behind the editor's handlers: removing a node and the
 * edges that touch it, building the node that "Add Node" appends, building the
 * edge record a drawn connection becomes, and overlaying a node's data with the
 * edit form's updates.
 */
module GraphEdits {
  import opened Options
  import opened Text
  import opened Js
  import opened NodeTypes
  import opened NodeIds

  // ---------------------------------------------------------------------------
  // Deleting a node (App.tsx:75-81)

  /** `nodes.filter((n) => n.id !== id)` */
  function WithoutNode(nodes: seq<AppNode>, id: string): (r: seq<AppNode>)
    ensures |r| <= |nodes|
    ensures forall n :: n in r <==> n in nodes && n.id != id
  {
    if nodes == [] then []
    else
      (if nodes[0].id != id then [nodes[0]] else []) + WithoutNode(nodes[1..], id)
  }

  /** Filtering a concatenation filters each part: the kept nodes stay in their order. */
  lemma {:induction false} WithoutNodeConcat(a: seq<AppNode>, b: seq<AppNode>, id: string)
    ensures WithoutNode(a + b, id) == WithoutNode(a, id) + WithoutNode(b, id)
  {
    if a == [] {
      assert a + b == b;
    } else {
      assert (a + b)[1..] == a[1..] + b;
      WithoutNodeConcat(a[1..], b, id);
    }
  }

  /** Deleting an id no node has leaves the node list as it is. */
  lemma {:induction false} WithoutAbsentNode(nodes: seq<AppNode>, id: string)
    requires forall n :: n in nodes ==> n.id != id
    ensures WithoutNode(nodes, id) == nodes
  {
    if nodes != [] {
      WithoutAbsentNode(nodes[1..], id);
      assert nodes == [nodes[0]] + nodes[1..];
    }
  }

  /** Deleting twice is deleting once. */
  lemma WithoutNodeIdempotent(nodes: seq<AppNode>, id: string)
    ensures WithoutNode(WithoutNode(nodes, id), id) == WithoutNode(nodes, id)
  {
    WithoutAbsentNode(WithoutNode(nodes, id), id);
  }

  /** An edge touches `id` when it starts or ends there. */
  predicate Touches(e: Edge, id: string) {
    e.source == id || e.target == id
  }

  /** `edges.filter((e) => e.source !== id && e.target !== id)` */
  function WithoutIncident(edges: seq<Edge>, id: string): (r: seq<Edge>)
    ensures |r| <= |edges|
    ensures forall e :: e in r <==> e in edges && !Touches(e, id)
  {
    if edges == [] then []
    else
      (if !Touches(edges[0], id) then [edges[0]] else []) + WithoutIncident(edges[1..], id)
  }

  /** Filtering a concatenation filters each part: the kept edges stay in their order. */
  lemma {:induction false} WithoutIncidentConcat(a: seq<Edge>, b: seq<Edge>, id: string)
    ensures WithoutIncident(a + b, id) == WithoutIncident(a, id) + WithoutIncident(b, id)
  {
    if a == [] {
      assert a + b == b;
    } else {
      assert (a + b)[1..] == a[1..] + b;
      WithoutIncidentConcat(a[1..], b, id);
    }
  }

  /** Edges that do not touch the deleted node are all kept, in order. */
  lemma {:induction false} WithoutUntouched(edges: seq<Edge>, id: string)
    requires forall e :: e in edges ==> !Touches(e, id)
    ensures WithoutIncident(edges, id) == edges
  {
    if edges != [] {
      WithoutUntouched(edges[1..], id);
      assert edges == [edges[0]] + edges[1..];
    }
  }

  /** Some node has the id `id`. */
  predicate HasNode(nodes: seq<AppNode>, id: string) {
    exists n :: n in nodes && n.id == id
  }

  /** Every edge starts and ends at a node of the graph. */
  predicate EdgesClosed(nodes: seq<AppNode>, edges: seq<Edge>) {
    forall e :: e in edges ==> HasNode(nodes, e.source) && HasNode(nodes, e.target)
  }

  /**
   * A delete removes the node together with every edge touching it, so every
   * remaining edge still joins two remaining nodes.
   */
  lemma DeleteKeepsEdgesClosed(nodes: seq<AppNode>, edges: seq<Edge>, id: string)
    requires EdgesClosed(nodes, edges)
    ensures EdgesClosed(WithoutNode(nodes, id), WithoutIncident(edges, id))
  {
    var kept := WithoutNode(nodes, id);
    forall e | e in WithoutIncident(edges, id)
      ensures HasNode(kept, e.source) && HasNode(kept, e.target)
    {
      var m :| m in nodes && m.id == e.source;
      var n :| n in nodes && n.id == e.target;
      assert m in kept && n in kept;
    }
  }

  // ---------------------------------------------------------------------------
  // Adding a node (App.tsx:83-105)

  /** `` `Node ${nodeNumber}` `` where `nodeNumber` is `parseInt` of the id's suffix (`NaN` when it has none). */
  function NumberText(number: Option<int>): string {
    match number
    case Some(k) => IntText(k)
    case None => "NaN"
  }

  /**
   * The button node "Add Node" appends: id `id`, a label and a click handler
   * built from the number after `node` in the id, at `position` (the source picks
   * it at random).
   */
  function NewButtonNode(id: string, position: Position): (n: AppNode)
    ensures n.id == id && n.kind == ButtonType && n.position == position
    ensures n.data.Keys == {"label", "onClick"}
    ensures n.data["label"] == Str("Node " + NumberText(SuffixOf(id)))
    ensures n.data["onClick"] == Fn(AlertText("Node " + NumberText(SuffixOf(id)) + " clicked!"))
  {
    var text := NumberText(SuffixOf(id));
    AppNode(id, ButtonType, position,
      map["label" := Str("Node " + text), "onClick" := Fn(AlertText("Node " + text + " clicked!"))])
  }

  /** The appended node is a well-formed button node whose label carries the number of its id. */
  lemma NewNodeOfNodeId(n: nat, position: Position)
    ensures IsAppNode(NewButtonNode(NodeId(n), position))
    ensures NewButtonNode(NodeId(n), position).data["label"] == Str("Node " + Decimal(n))
    ensures ClickText(NewButtonNode(NodeId(n), position).data["onClick"].callback)
      == Done("Node " + Decimal(n) + " clicked!")
  {
    SuffixOfNodeId(n);
  }

  // ---------------------------------------------------------------------------
  // Connecting two handles (App.tsx:55-66)

  /**
   * `{...params, type: 'default', animated: true, style: { stroke: '#4CAF50' }}`:
   * the record handed to `addEdge`, which assigns the id.
   */
  function ConnectionEdge(params: Connection): (e: Edge)
    ensures e.id.None?
    ensures e.source == params.source && e.target == params.target
    ensures e.sourceHandle == params.sourceHandle && e.targetHandle == params.targetHandle
    ensures e.kind == Some("default") && e.animated && e.stroke == Some("#4CAF50")
  {
    Edge(None, params.source, params.target, params.sourceHandle, params.targetHandle,
      Some("default"), true, Some("#4CAF50"))
  }

  // ---------------------------------------------------------------------------
  // Saving the edit form (App.tsx:118-148)

  /**
   * `{...node.data, ...updates}`, and for a button node a new `onClick` that
   * alerts `` `${updates.label} clicked!` ``.
   */
  function SavedData(node: AppNode, updates: Value): (d: Record)
    ensures forall k ::
      (k in Spread(updates) && !(node.kind == ButtonType && k == "onClick"))
      ==> k in d && d[k] == Spread(updates)[k]
    ensures forall k ::
      (k in node.data && k !in Spread(updates) && !(node.kind == ButtonType && k == "onClick"))
      ==> k in d && d[k] == node.data[k]
    ensures forall k :: k in d ==> k in node.data || k in Spread(updates) || (node.kind == ButtonType && k == "onClick")
    ensures node.kind == ButtonType ==> "onClick" in d && d["onClick"] == Fn(AlertLabelOf(updates))
  {
    var merged := node.data + Spread(updates);
    if node.kind == ButtonType then merged["onClick" := Fn(AlertLabelOf(updates))] else merged
  }

  /** `nds.map(node => node.id === id ? {...node, data: SavedData(node, updates)} : node)` */
  function ApplySave(nodes: seq<AppNode>, id: string, updates: Value): (r: seq<AppNode>)
    ensures |r| == |nodes|
    ensures forall i :: 0 <= i < |nodes| && nodes[i].id != id ==> r[i] == nodes[i]
    ensures forall i :: 0 <= i < |nodes| && nodes[i].id == id ==>
      r[i] == nodes[i].(data := SavedData(nodes[i], updates))
  {
    seq(|nodes|, i requires 0 <= i < |nodes| =>
      if nodes[i].id == id then nodes[i].(data := SavedData(nodes[i], updates)) else nodes[i])
  }

  /** A save keeps every node's id, type and position, so the id list is unchanged. */
  lemma ApplySaveKeepsIds(nodes: seq<AppNode>, id: string, updates: Value)
    ensures Ids(ApplySave(nodes, id, updates)) == Ids(nodes)
    ensures forall i :: 0 <= i < |nodes| ==>
      ApplySave(nodes, id, updates)[i].kind == nodes[i].kind
      && ApplySave(nodes, id, updates)[i].position == nodes[i].position
  {
  }

  /** Saving the same updates twice is saving them once. */
  lemma ApplySaveIdempotent(nodes: seq<AppNode>, id: string, updates: Value)
    ensures ApplySave(ApplySave(nodes, id, updates), id, updates) == ApplySave(nodes, id, updates)
  {
    var once := ApplySave(nodes, id, updates);
    var twice := ApplySave(once, id, updates);
    forall i | 0 <= i < |nodes| ensures twice[i] == once[i] {
      if nodes[i].id == id {
        SavedDataIdempotent(nodes[i], updates);
      }
    }
  }

  /** Overlaying the same updates again changes nothing. */
  lemma SavedDataIdempotent(node: AppNode, updates: Value)
    ensures SavedData(node.(data := SavedData(node, updates)), updates) == SavedData(node, updates)
  {
    var d := SavedData(node, updates);
    var again := SavedData(node.(data := d), updates);
    assert forall k :: k in again <==> k in d;
    forall k | k in d ensures again[k] == d[k] {
    }
  }

  /**
   * An object update whose `label` is a string gives a button node that label
   * and a click message built from it.
   */
  lemma SaveLabelOfButton(node: AppNode, fields: Record)
    requires node.kind == ButtonType
    requires "label" in fields && fields["label"].Str?
    ensures SavedData(node, Obj(fields))["label"] == fields["label"]
    ensures ClickText(SavedData(node, Obj(fields))["onClick"].callback)
      == Done(fields["label"].s + " clicked!")
  {
  }
}
