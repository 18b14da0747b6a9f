/**
 * The HTTP helper (`api.call` in src/utils/api.ts): builds the request options,
 * fetches, records the outcome in the response cache and reports it through
 * `onUpdate`, turning every failure into a `success: false` result.
 */
module Api {
  import opened Options
  import opened Js
  import opened Storage

  /** A `fetch` request: the URL and the `RequestInit` fields the editor sets. */
  datatype Request = Request(
    url: string,
    verb: Value,                    // `Undefined` means the default, GET
    headers: seq<(string, string)>,
    mode: Option<string>,
    body: Option<Value>)

  /** `fetch(request)` followed by `response.json()`: the parsed body, or what either step threw. */
  type Fetch = Request -> Attempt<Value>

  const JsonHeaders: seq<(string, string)> := [("Content-Type", "application/json"), ("Accept", "application/json")]

  /** `['POST', 'PUT', 'PATCH'].includes(method)` */
  predicate SendsBody(verb: Value) {
    verb == Str("POST") || verb == Str("PUT") || verb == Str("PATCH")
  }

  /** The request `call` sends: JSON headers, CORS mode, and the payload as body when it applies. */
  function CallRequest(url: string, verb: Value, payload: Value): (r: Request)
    ensures r.url == url && r.verb == verb
    ensures r.headers == JsonHeaders && r.mode == Some("cors")
    ensures r.body.Some? <==> Truthy(payload) && SendsBody(verb)
    ensures r.body.Some? ==> r.body.value == payload
  {
    Request(url, verb, JsonHeaders, Some("cors"),
      if Truthy(payload) && SendsBody(verb) then Some(payload) else None)
  }

  /** The first record `call` hands to `onUpdate`. */
  const LoadingUpdate: Record := map["isLoading" := Bool(true), "error" := Undefined, "response" := Undefined]

  /** The value `call` resolves to. */
  function CallResult(outcome: Attempt<Value>, now: Instant): Record {
    match outcome
    case Done(data) => map["success" := Bool(true), "data" := data, "lastRun" := Date(now)]
    case Threw(message) => map["success" := Bool(false), "error" := Str(message), "lastRun" := Date(now)]
  }

  /** The second record `call` hands to `onUpdate`. */
  function FinalUpdate(outcome: Attempt<Value>, now: Instant): Record {
    match outcome
    case Done(data) => map["isLoading" := Bool(false), "response" := data, "lastRun" := Date(now)]
    case Threw(message) => map["isLoading" := Bool(false), "error" := Str(message), "lastRun" := Date(now)]
  }

  /** The cache entry `call` writes: the data, or `null` with the error message. */
  function CallEntry(outcome: Attempt<Value>, now: Instant): NodeResponse {
    match outcome
    case Done(data) => NodeResponse(data, now, Undefined)
    case Threw(message) => NodeResponse(Null, now, Str(message))
  }

  /**
   * `api.call`. `hasOnUpdate` says whether the caller passed `onUpdate`;
   * `updates` are the records handed to it, in order. `now` is the clock
   * reading taken after the fetch settles.
   */
  method Call(store: LocalStore, id: string, url: string, verb: Value, payload: Value,
              hasOnUpdate: bool, fetch: Fetch, now: Instant)
    returns (result: Record, updates: seq<Record>)
    requires store.Valid()
    modifies store
    ensures store.Valid() && store.full == old(store.full)
    ensures var outcome := fetch(CallRequest(url, verb, payload));
      && result == CallResult(outcome, now)
      && updates == (if hasOnUpdate then [LoadingUpdate, FinalUpdate(outcome, now)] else [])
      && store.items == if store.full then old(store.items)
                        else WithResponse(old(store.items), id, CallEntry(outcome, now))
  {
    updates := [];
    if hasOnUpdate {
      updates := updates + [LoadingUpdate];
    }
    var options := CallRequest(url, verb, payload);
    var outcome := fetch(options);
    store.SaveResponse(id, CallEntry(outcome, now));
    if hasOnUpdate {
      updates := updates + [FinalUpdate(outcome, now)];
    }
    result := CallResult(outcome, now);
  }

  // ---------------------------------------------------------------------------
  // Properties

  /**
   * `call` never rejects: its result always says whether it succeeded, and it
   * succeeded exactly when the fetch and the body parse did, carrying their
   * data; otherwise it carries the error message.
   */
  lemma CallAlwaysSettles(outcome: Attempt<Value>, now: Instant)
    ensures "success" in CallResult(outcome, now) && CallResult(outcome, now)["success"].Bool?
    ensures CallResult(outcome, now)["success"] == Bool(true) <==> outcome.Done?
    ensures outcome.Done? ==> CallResult(outcome, now)["data"] == outcome.value
    ensures outcome.Threw? ==>
      CallResult(outcome, now)["error"] == Str(outcome.message) && "data" !in CallResult(outcome, now)
    ensures CallResult(outcome, now)["lastRun"] == Date(now)
  {
  }

  /**
   * What the cache holds for `id` after a successful write agrees with the
   * result: the data on success, `null` and the message on failure.
   */
  lemma CacheAgreesWithResult(items: map<string, Item>, id: string, outcome: Attempt<Value>, now: Instant)
    ensures var r := ResponseOf(WithResponse(items, id, CallEntry(outcome, now)), id);
      && r.Some? && r.value.lastRun == now
      && (CallResult(outcome, now)["success"] == Bool(true) ==>
            r.value.response == CallResult(outcome, now)["data"] && r.value.error == Undefined)
      && (CallResult(outcome, now)["success"] == Bool(false) ==>
            r.value.response == Null && r.value.error == CallResult(outcome, now)["error"])
  {
    SaveThenGet(items, id, CallEntry(outcome, now), id);
  }

  /**
   * The reported records go from loading to settled: the first sets the
   * loading flag and clears error and response; the last clears the flag and
   * carries the data or the message, like the result.
   */
  lemma UpdatesGoFromLoadingToSettled(outcome: Attempt<Value>, now: Instant)
    ensures LoadingUpdate["isLoading"] == Bool(true)
    ensures LoadingUpdate["error"] == Undefined && LoadingUpdate["response"] == Undefined
    ensures FinalUpdate(outcome, now)["isLoading"] == Bool(false)
    ensures FinalUpdate(outcome, now)["lastRun"] == CallResult(outcome, now)["lastRun"]
    ensures outcome.Done? ==> FinalUpdate(outcome, now)["response"] == CallResult(outcome, now)["data"]
    ensures outcome.Threw? ==> FinalUpdate(outcome, now)["error"] == CallResult(outcome, now)["error"]
  {
  }
}
