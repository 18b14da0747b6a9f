/**
 * The Python node (src/nodes/PythonNode.tsx). Its `executeScript` does not run
 * Python: it passes the node's input through as the output, caches it and
 * reports it through the node's `onUpdate`.
 */
module PythonNodeModel {
  import opened Options
  import opened Js
  import opened Storage
  import opened ApiNodeModel
  import opened JavaScriptNodeModel

  /** The simulated output: `data.input || {}`. */
  function SimulatedOutput(data: Record): Value {
    ScriptInput(data)
  }

  /**
   * The success record: `{...data, isLoading: false, output, lastRun: now}`.
   * It spreads the data the handler captured, not the loading record, so an
   * `error` the node carried before the run is carried again.
   */
  function PythonSuccessData(data: Record, output: Value, now: Instant): Record {
    data + map["isLoading" := Bool(false), "output" := output, "lastRun" := Date(now)]
  }

  /**
   * The record of the `catch` branch, `{...data, isLoading: false, error, lastRun}`.
   * Nothing in the simulated run throws, so it is reached only when `onUpdate`
   * itself throws, which this model does not represent.
   */
  function PythonErrorData(data: Record, message: string, now: Instant): Record {
    data + map["isLoading" := Bool(false), "error" := Str(message), "lastRun" := Date(now)]
  }

  /** `executeScript`: the loading record, the cache write, then the success record. */
  method ExecuteScript(store: LocalStore, data: Record, now: Instant) returns (updates: seq<Record>)
    requires store.Valid()
    modifies store
    ensures store.Valid() && store.full == old(store.full)
    ensures updates == Emitted(data, [ScriptLoadingData(data), PythonSuccessData(data, SimulatedOutput(data), now)])
    ensures store.items == if store.full then old(store.items)
      else WithResponse(old(store.items), CacheKey(data), NodeResponse(SimulatedOutput(data), now, Undefined))
  {
    updates := Emitted(data, [ScriptLoadingData(data)]);
    var output := SimulatedOutput(data);
    store.SaveResponse(CacheKey(data), NodeResponse(output, now, Undefined));
    updates := updates + Emitted(data, [PythonSuccessData(data, output, now)]);
  }

  // ---------------------------------------------------------------------------
  // Properties

  /** The output is the input, or `{}` when the input is falsy. */
  lemma OutputIsInput(data: Record)
    ensures Truthy(Get(data, "input")) ==> SimulatedOutput(data) == data["input"]
    ensures !Truthy(Get(data, "input")) ==> SimulatedOutput(data) == Obj(map[])
  {
  }

  /** The loading record sets the flag and clears error and output. */
  lemma PythonLoadingClears(data: Record)
    ensures ScriptLoadingData(data)["isLoading"] == Bool(true)
    ensures ScriptLoadingData(data)["error"] == Undefined && ScriptLoadingData(data)["output"] == Undefined
  {
  }

  /**
   * The success record sets only the flag, the output and the time; every other
   * field, an earlier `error` included, is the captured data's.
   */
  lemma SuccessKeepsEarlierError(data: Record, now: Instant)
    ensures var r := PythonSuccessData(data, SimulatedOutput(data), now);
      && r["isLoading"] == Bool(false) && r["output"] == SimulatedOutput(data) && r["lastRun"] == Date(now)
      && (forall k :: k in data && k !in {"isLoading", "output", "lastRun"} ==> k in r && r[k] == data[k])
      && r.Keys == data.Keys + {"isLoading", "output", "lastRun"}
      && ("error" in data ==> r["error"] == data["error"])
  {
  }

  /** The cache entry for the node holds the output. */
  lemma OutputCached(items: map<string, Item>, data: Record, now: Instant)
    ensures ResponseOf(WithResponse(items, CacheKey(data), NodeResponse(SimulatedOutput(data), now, Undefined)),
      CacheKey(data)).value.response == SimulatedOutput(data)
  {
    SaveThenGet(items, CacheKey(data), NodeResponse(SimulatedOutput(data), now, Undefined), CacheKey(data));
  }

  /** The catch record clears the flag and carries the message. */
  lemma PythonErrorCarriesMessage(data: Record, message: string, now: Instant)
    ensures PythonErrorData(data, message, now)["isLoading"] == Bool(false)
    ensures PythonErrorData(data, message, now)["error"] == Str(message)
    ensures PythonErrorData(data, message, now)["lastRun"] == Date(now)
  {
  }
}
