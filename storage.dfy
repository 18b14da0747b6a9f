/**
 * The browser-storage layer (src/utils/storage.ts): a cache of the last
 * response of each executing node, kept under one storage key, and a snapshot
 * of the whole graph under another. `localStorage` is a class whose `items`
 * map each key to what `JSON.parse` would make of the text stored there.
 */
module Storage {
  import opened Options
  import opened Js
  import opened NodeTypes

  const AppStateKey := "react-flow-app-state"
  const ResponsesKey := "api-node-responses"
  /** The node type whose data is rehydrated from the response cache. */
  const ApiType := "api"

  /**
   * A cached run. `lastRun` is stored as ISO text and read back as a date; the
   * round trip is exact, so it is one instant here. `error` is `Undefined`
   * when the entry has none.
   */
  datatype NodeResponse = NodeResponse(response: Value, lastRun: Instant, error: Value)

  /** The cache, keyed by node id. */
  type ResponseCache = map<string, NodeResponse>

  datatype AppState = AppState(nodes: seq<AppNode>, edges: seq<Edge>, lastUpdated: Instant)

  /**
   * What a storage key holds: the empty text, text `JSON.parse` rejects, a
   * response cache, a graph snapshot, or any other saved value (projects).
   */
  datatype Item =
    | Blank
    | Malformed
    | Responses(cache: ResponseCache)
    | Snapshot(state: AppState)
    | Saved(value: Value)

  /**
   * `getAllResponses`: the parsed cache, and the empty cache when the key is
   * missing, holds the empty text or cannot be parsed.
   */
  function AllResponses(items: map<string, Item>): (cache: ResponseCache)
    ensures ResponsesKey !in items ==> cache == map[]
    ensures ResponsesKey in items && (items[ResponsesKey].Blank? || items[ResponsesKey].Malformed?)
      ==> cache == map[]
  {
    if ResponsesKey in items && items[ResponsesKey].Responses? then items[ResponsesKey].cache
    else map[]
  }

  /** `getResponse`: the cached entry for `id`, or `null` when there is none. */
  function ResponseOf(items: map<string, Item>, id: string): (r: Option<NodeResponse>)
    ensures r.Some? <==> id in AllResponses(items)
  {
    var cache := AllResponses(items);
    if id in cache then Some(cache[id]) else None
  }

  /** The storage after `saveResponse(id, entry)` succeeds. */
  function WithResponse(items: map<string, Item>, id: string, entry: NodeResponse): map<string, Item> {
    items[ResponsesKey := Responses(AllResponses(items)[id := entry])]
  }

  /** The fields `getAppState` copies from a cached entry onto an API node's data. */
  function CachedFields(entry: NodeResponse): Record {
    map["response" := entry.response, "lastRun" := Date(entry.lastRun), "error" := entry.error]
  }

  /** One node of a restored snapshot: API nodes with a cache entry get its fields. */
  function RestoredNode(node: AppNode, cache: ResponseCache): AppNode {
    if node.kind == ApiType && node.id in cache then
      node.(data := node.data + CachedFields(cache[node.id]))
    else node
  }

  /** `state.nodes.map(...)` in `getAppState`. */
  function RestoredNodes(nodes: seq<AppNode>, cache: ResponseCache): (r: seq<AppNode>)
    ensures |r| == |nodes|
    ensures forall i :: 0 <= i < |nodes| ==> r[i] == RestoredNode(nodes[i], cache)
  {
    seq(|nodes|, i requires 0 <= i < |nodes| => RestoredNode(nodes[i], cache))
  }

  /**
   * `getAppState`: `null` when no snapshot is stored, the key holds the empty
   * text or the text cannot be parsed; otherwise the snapshot with its API
   * nodes rehydrated from the response cache.
   */
  function AppStateOf(items: map<string, Item>): (r: Option<AppState>)
    ensures r.Some? <==> AppStateKey in items && items[AppStateKey].Snapshot?
    ensures r.Some? ==>
      r.value.edges == items[AppStateKey].state.edges && r.value.lastUpdated == items[AppStateKey].state.lastUpdated
  {
    if AppStateKey in items && items[AppStateKey].Snapshot? then
      var state := items[AppStateKey].state;
      Some(state.(nodes := RestoredNodes(state.nodes, AllResponses(items))))
    else None
  }

  /** `localStorage`. When `full`, every `setItem` throws (the quota is exceeded). */
  class LocalStore {
    var items: map<string, Item>
    var full: bool

    /** The two keys of this module hold only what this module writes there (or text it cannot parse). */
    predicate Valid()
      reads this
    {
      && (ResponsesKey in items ==>
            items[ResponsesKey].Responses? || items[ResponsesKey].Blank? || items[ResponsesKey].Malformed?)
      && (AppStateKey in items ==>
            items[AppStateKey].Snapshot? || items[AppStateKey].Blank? || items[AppStateKey].Malformed?)
    }

    /** A store whose two keys hold what this module writes there, empty text or text that does not parse. */
    constructor (items: map<string, Item>, full: bool)
      requires ResponsesKey in items ==>
        items[ResponsesKey].Responses? || items[ResponsesKey].Blank? || items[ResponsesKey].Malformed?
      requires AppStateKey in items ==>
        items[AppStateKey].Snapshot? || items[AppStateKey].Blank? || items[AppStateKey].Malformed?
      ensures Valid()
      ensures this.items == items && this.full == full
    {
      this.items := items;
      this.full := full;
    }

    method GetAllResponses() returns (cache: ResponseCache)
      ensures cache == AllResponses(items)
    {
      if ResponsesKey in items && items[ResponsesKey].Responses? {
        cache := items[ResponsesKey].cache;
      } else {
        cache := map[];
      }
    }

    method GetResponse(id: string) returns (r: Option<NodeResponse>)
      ensures r == ResponseOf(items, id)
    {
      var cache := GetAllResponses();
      if id in cache {
        r := Some(cache[id]);
      } else {
        r := None;
      }
    }

    /**
     * `saveResponse`: reads the cache, sets the entry for `id` and writes the
     * cache back; a failed write is swallowed and leaves the storage as it was.
     */
    method SaveResponse(id: string, entry: NodeResponse)
      requires Valid()
      modifies this
      ensures Valid() && full == old(full)
      ensures items == if full then old(items) else WithResponse(old(items), id, entry)
    {
      var cache := GetAllResponses();
      cache := cache[id := entry];
      if !full {
        items := items[ResponsesKey := Responses(cache)];
      }
    }

    /** `saveAppState`: replaces the snapshot with exactly these nodes and edges. */
    method SaveAppState(nodes: seq<AppNode>, edges: seq<Edge>, now: Instant)
      requires Valid()
      modifies this
      ensures Valid() && full == old(full)
      ensures items == if full then old(items) else old(items)[AppStateKey := Snapshot(AppState(nodes, edges, now))]
    {
      if !full {
        items := items[AppStateKey := Snapshot(AppState(nodes, edges, now))];
      }
    }

    method GetAppState() returns (r: Option<AppState>)
      ensures r == AppStateOf(items)
    {
      if AppStateKey in items && items[AppStateKey].Snapshot? {
        var state := items[AppStateKey].state;
        var cache := GetAllResponses();
        r := Some(state.(nodes := RestoredNodes(state.nodes, cache)));
      } else {
        r := None;
      }
    }
  }

  // ---------------------------------------------------------------------------
  // Properties

  /**
   * After `saveResponse(id, entry)`, reading `id` gives `entry`, every other
   * id reads as before, and every other storage key is untouched.
   */
  lemma SaveThenGet(items: map<string, Item>, id: string, entry: NodeResponse, other: string)
    ensures ResponseOf(WithResponse(items, id, entry), other)
      == if other == id then Some(entry) else ResponseOf(items, other)
    ensures forall k :: k != ResponsesKey ==>
      (k in WithResponse(items, id, entry) <==> k in items)
      && (k in items ==> WithResponse(items, id, entry)[k] == items[k])
  {
    assert AllResponses(WithResponse(items, id, entry)) == AllResponses(items)[id := entry];
  }

  /**
   * A second save for the same id replaces the first: only the later entry is
   * kept. Saving the same entry twice is saving it once.
   */
  lemma SaveResponseOverwrites(items: map<string, Item>, id: string, first: NodeResponse, second: NodeResponse)
    ensures WithResponse(WithResponse(items, id, first), id, second) == WithResponse(items, id, second)
  {
    var cache := AllResponses(items)[id := first];
    assert AllResponses(WithResponse(items, id, first)) == cache;
    assert cache[id := second] == AllResponses(items)[id := second];
  }

  /** Restoring a restored node again changes nothing. */
  lemma RestoredNodeIdempotent(node: AppNode, cache: ResponseCache)
    ensures RestoredNode(RestoredNode(node, cache), cache) == RestoredNode(node, cache)
  {
    if node.kind == ApiType && node.id in cache {
      var fields := CachedFields(cache[node.id]);
      assert node.data + fields + fields == node.data + fields;
    }
  }

  /**
   * The restore keeps every node's id, type and position, and the order of
   * the nodes; only an API node with a cache entry changes, and its data then
   * carries that entry's response, time and error over the old data.
   */
  lemma RestoreChangesOnlyCachedApiNodes(nodes: seq<AppNode>, cache: ResponseCache)
    ensures Ids(RestoredNodes(nodes, cache)) == Ids(nodes)
    ensures forall i :: 0 <= i < |nodes| ==>
      var r := RestoredNodes(nodes, cache)[i];
      && r.kind == nodes[i].kind && r.position == nodes[i].position
      && (nodes[i].kind != ApiType || nodes[i].id !in cache ==> r == nodes[i])
      && (nodes[i].kind == ApiType && nodes[i].id in cache ==>
            && r.data["response"] == cache[nodes[i].id].response
            && r.data["lastRun"] == Date(cache[nodes[i].id].lastRun)
            && r.data["error"] == cache[nodes[i].id].error
            && forall k :: k in nodes[i].data && k !in CachedFields(cache[nodes[i].id]) ==>
                 k in r.data && r.data[k] == nodes[i].data[k])
  {
  }

  /**
   * A snapshot written by `saveAppState` reads back with the same edges and
   * time, and with the same nodes when none of them is a cached API node.
   */
  lemma SnapshotRoundTrip(items: map<string, Item>, nodes: seq<AppNode>, edges: seq<Edge>, now: Instant)
    requires forall n :: n in nodes && n.kind == ApiType ==> n.id !in AllResponses(items)
    ensures AppStateOf(items[AppStateKey := Snapshot(AppState(nodes, edges, now))])
      == Some(AppState(nodes, edges, now))
  {
    var after := items[AppStateKey := Snapshot(AppState(nodes, edges, now))];
    assert AllResponses(after) == AllResponses(items);
    assert RestoredNodes(nodes, AllResponses(items)) == nodes;
  }

  /** A snapshot write leaves the response cache alone, and a cache write leaves the snapshot alone. */
  lemma KeysIndependent(items: map<string, Item>, state: AppState, id: string, entry: NodeResponse)
    ensures AllResponses(items[AppStateKey := Snapshot(state)]) == AllResponses(items)
    ensures AppStateKey in items && items[AppStateKey].Snapshot? ==>
      AppStateOf(WithResponse(items, id, entry)).Some?
      && AppStateOf(WithResponse(items, id, entry)).value.edges == items[AppStateKey].state.edges
  {
  }
}
