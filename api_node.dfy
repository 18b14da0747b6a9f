/**
 * The API node (src/nodes/ApiNode.tsx): what its `apiCall` reports through
 * the node's `onUpdate` and writes to the response cache, and what the node
 * restores from the cache when it mounts.
 */
module ApiNodeModel {
  import opened Options
  import opened Js
  import opened Storage
  import opened Api

  /** The cache key of a node: `data.id` as a property key. */
  function CacheKey(data: Record): string {
    ToText(Get(data, "id"))
  }

  /** `data.onUpdate?.(...)` calls only when `onUpdate` is neither `undefined` nor `null`. */
  predicate HasUpdater(data: Record) {
    "onUpdate" in data && !data["onUpdate"].Undefined? && !data["onUpdate"].Null?
  }

  /** The records that reach `data.onUpdate`: all of them, or none when the node has no `onUpdate`. */
  function Emitted(data: Record, records: seq<Record>): seq<Record> {
    if HasUpdater(data) then records else []
  }

  /** The request `api.call` builds from the node's `url`, `method` and `payload`. */
  function NodeRequest(data: Record): Request {
    CallRequest(ToText(Get(data, "url")), Get(data, "method"), Get(data, "payload"))
  }

  /** `{...data, isLoading: true, error: undefined, response: undefined, output: undefined}` */
  function LoadingData(data: Record): Record {
    data + map["isLoading" := Bool(true), "error" := Undefined, "response" := Undefined, "output" := Undefined]
  }

  /** `{...data, isLoading: false, response: result, output: result, lastRun: now, error: undefined}` */
  function SuccessData(data: Record, result: Record, now: Instant): Record {
    data + map["isLoading" := Bool(false), "response" := Obj(result), "output" := Obj(result),
               "lastRun" := Date(now), "error" := Undefined]
  }

  /**
   * The record of the `catch` branch. `api.call` never rejects and the cache
   * write swallows its own errors, so the branch is reached only when
   * `onUpdate` itself throws, which this model does not represent.
   */
  function ErrorData(data: Record, message: string, now: Instant): Record {
    data + map["isLoading" := Bool(false), "error" := Str(message), "response" := Undefined,
               "output" := Undefined, "lastRun" := Date(now)]
  }

  /**
   * `apiCall`: reports the loading state, awaits `api.call` (without an
   * `onUpdate` of its own), writes the call's whole result to the cache over
   * the entry `api.call` wrote, and reports it as both response and output.
   * `callNow` is the clock reading inside `api.call`, `now` the one after it.
   */
  method ApiCall(store: LocalStore, data: Record, fetch: Fetch, callNow: Instant, now: Instant)
    returns (updates: seq<Record>)
    requires store.Valid()
    modifies store
    ensures store.Valid() && store.full == old(store.full)
    ensures var result := CallResult(fetch(NodeRequest(data)), callNow);
      && updates == Emitted(data, [LoadingData(data), SuccessData(data, result, now)])
      && store.items == if store.full then old(store.items)
                        else WithResponse(old(store.items), CacheKey(data), NodeResponse(Obj(result), now, Undefined))
  {
    updates := [];
    if HasUpdater(data) {
      updates := updates + [LoadingData(data)];
    }
    ghost var before := store.items;
    var result, _ := Call(store, CacheKey(data), ToText(Get(data, "url")), Get(data, "method"),
      Get(data, "payload"), false, fetch, callNow);
    store.SaveResponse(CacheKey(data), NodeResponse(Obj(result), now, Undefined));
    if !store.full {
      SaveResponseOverwrites(before, CacheKey(data),
        CallEntry(fetch(NodeRequest(data)), callNow), NodeResponse(Obj(result), now, Undefined));
    }
    if HasUpdater(data) {
      updates := updates + [SuccessData(data, result, now)];
    }
  }

  /** The record the mount effect reports for a cached entry. */
  function RestoredData(data: Record, saved: NodeResponse): Record {
    data + map["response" := saved.response, "output" := saved.response,
               "lastRun" := Date(saved.lastRun), "executeApiCall" := Fn(RunApiCall)]
  }

  /** The mount effect: with a cache entry for the node, report it; without one, report nothing. */
  method RestoreOnMount(store: LocalStore, data: Record) returns (updates: seq<Record>)
    ensures ResponseOf(store.items, CacheKey(data)).None? ==> updates == []
    ensures ResponseOf(store.items, CacheKey(data)).Some? ==>
      updates == Emitted(data, [RestoredData(data, ResponseOf(store.items, CacheKey(data)).value)])
  {
    var saved := store.GetResponse(CacheKey(data));
    match saved
    case None =>
      updates := [];
    case Some(entry) =>
      updates := Emitted(data, [RestoredData(data, entry)]);
  }

  // ---------------------------------------------------------------------------
  // Properties

  /**
   * The loading record sets the flag and clears error, response and output;
   * every other field of the node's data is kept.
   */
  lemma LoadingClearsResults(data: Record)
    ensures LoadingData(data)["isLoading"] == Bool(true)
    ensures LoadingData(data)["error"] == Undefined && LoadingData(data)["response"] == Undefined
    ensures LoadingData(data)["output"] == Undefined
    ensures forall k :: k in data && k !in {"isLoading", "error", "response", "output"} ==>
      k in LoadingData(data) && LoadingData(data)[k] == data[k]
    ensures LoadingData(data).Keys == data.Keys + {"isLoading", "error", "response", "output"}
  {
  }

  /**
   * The final record never reports an error: a failed request still ends with
   * `error` undefined, and its `{success: false, ...}` wrapper becomes both the
   * response and the output.
   */
  lemma FailureReportedAsOutput(data: Record, message: string, callNow: Instant, now: Instant)
    ensures var final := SuccessData(data, CallResult(Threw(message), callNow), now);
      && final["error"] == Undefined && final["isLoading"] == Bool(false)
      && final["response"] == final["output"]
      && final["output"] == Obj(map["success" := Bool(false), "error" := Str(message), "lastRun" := Date(callNow)])
  {
  }

  /**
   * Response and output are always the call's whole result, which holds the
   * fetched data under `data` when the request succeeded.
   */
  lemma SuccessReportsWrapper(data: Record, outcome: Attempt<Value>, callNow: Instant, now: Instant)
    ensures var result := CallResult(outcome, callNow); var final := SuccessData(data, result, now);
      && final["response"] == Obj(result) && final["output"] == Obj(result)
      && final["error"] == Undefined && final["lastRun"] == Date(now)
      && (outcome.Done? ==> result["success"] == Bool(true) && result["data"] == outcome.value)
  {
    CallAlwaysSettles(outcome, callNow);
  }

  /**
   * After a call, mounting the node again restores the call's whole result as
   * both response and output, with the time of the node's own write.
   */
  lemma MountAfterCallRestoresResult(items: map<string, Item>, data: Record, result: Record, now: Instant)
    ensures var after := WithResponse(items, CacheKey(data), NodeResponse(Obj(result), now, Undefined));
      && ResponseOf(after, CacheKey(data)).Some?
      && var restored := RestoredData(data, ResponseOf(after, CacheKey(data)).value);
      && restored["response"] == Obj(result) && restored["output"] == Obj(result)
      && restored["lastRun"] == Date(now)
  {
    SaveThenGet(items, CacheKey(data), NodeResponse(Obj(result), now, Undefined), CacheKey(data));
  }

  /** The catch record clears the flag, response and output, and carries the message. */
  lemma ErrorClearsResults(data: Record, message: string, now: Instant)
    ensures ErrorData(data, message, now)["isLoading"] == Bool(false)
    ensures ErrorData(data, message, now)["error"] == Str(message)
    ensures ErrorData(data, message, now)["response"] == Undefined
    ensures ErrorData(data, message, now)["output"] == Undefined
  {
  }
}
