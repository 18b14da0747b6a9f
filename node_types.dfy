/**
 * The graph entities: nodes as the canvas library shapes them (`Node<Data, Type>`),
 * the two data shapes the editor declares for them (`ButtonNodeData`,
 * `SourceNodeData`), and edges with the connection records they are built from.
 */
module NodeTypes {
  import opened Options
  import opened Js

  /** A canvas position. The coordinates are floating point in the editor and opaque here. */
  datatype Position = Position(x: int, y: int)

  /**
   * A node of the graph. `kind` is the node's `type` discriminator (`'button'`,
   * `'source'`, `'api'`, ...); `data` is the node's data object.
   */
  datatype AppNode = AppNode(id: string, kind: string, position: Position, data: Record)

  const ButtonType := "button"
  const SourceType := "source"

  /** `ButtonNodeData`: a string `label` and, optionally, an `onClick` handler. */
  predicate IsButtonData(d: Record) {
    && "label" in d && d["label"].Str?
    && ("onClick" in d ==> d["onClick"].Fn?)
  }

  /** `SourceNodeData`: a string `label`, a string `sourceUrl` and, optionally, a string `dataKey`. */
  predicate IsSourceData(d: Record) {
    && "label" in d && d["label"].Str?
    && "sourceUrl" in d && d["sourceUrl"].Str?
    && ("dataKey" in d ==> d["dataKey"].Str?)
  }

  /** `AppNode = ButtonNode | SourceNode`. */
  predicate IsAppNode(n: AppNode) {
    || (n.kind == ButtonType && IsButtonData(n.data))
    || (n.kind == SourceType && IsSourceData(n.data))
  }

  /** What the canvas reports when the user draws an edge between two handles. */
  datatype Connection = Connection(
    source: string,
    target: string,
    sourceHandle: Option<string>,
    targetHandle: Option<string>)

  /**
   * An edge. `id` is `None` on the record the editor hands to the canvas library's
   * `addEdge`, which is what assigns edge ids; `stroke` is the colour in `style`.
   */
  datatype Edge = Edge(
    id: Option<string>,
    source: string,
    target: string,
    sourceHandle: Option<string>,
    targetHandle: Option<string>,
    kind: Option<string>,
    animated: bool,
    stroke: Option<string>)

  /** `nodes.map(node => node.id)` */
  function Ids(nodes: seq<AppNode>): (ids: seq<string>)
    ensures |ids| == |nodes|
    ensures forall i :: 0 <= i < |nodes| ==> ids[i] == nodes[i].id
  {
    seq(|nodes|, i requires 0 <= i < |nodes| => nodes[i].id)
  }
}
