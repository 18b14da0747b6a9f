/**
 * The mock endpoint table (`fetchLocalData` in src/config/localApi.js): two
 * known endpoints answer with a fixed message, anything else is not found.
 */
module LocalApi {
  import opened Js

  const ProjectEndpoint := "/api/project"
  const UpdateEndpoint := "/api/update"

  /** `fetchLocalData(endpoint)`; `nowText` is `new Date().toISOString()`. */
  function FetchLocalData(endpoint: string, nowText: string): (r: Record)
    ensures "success" in r && r["success"].Bool?
    ensures r["success"] == Bool(true) <==> endpoint == ProjectEndpoint || endpoint == UpdateEndpoint
  {
    if endpoint == ProjectEndpoint then
      map["success" := Bool(true), "data" := Obj(map["message" := Str("Fetched project data successfully")]),
          "lastRun" := Str(nowText)]
    else if endpoint == UpdateEndpoint then
      map["success" := Bool(true), "data" := Obj(map["message" := Str("Updated project system successfully")]),
          "lastRun" := Str(nowText)]
    else
      map["success" := Bool(false), "error" := Str("Endpoint not found")]
  }

  /** The message a successful answer carries. */
  function MessageOf(r: Record): Value {
    if "data" in r && r["data"].Obj? then Get(r["data"].fields, "message") else Undefined
  }

  /** Each known endpoint answers with its own message and the time; any other has an error and no data. */
  lemma EndpointTable(endpoint: string, nowText: string)
    ensures endpoint == ProjectEndpoint ==>
      MessageOf(FetchLocalData(endpoint, nowText)) == Str("Fetched project data successfully")
    ensures endpoint == UpdateEndpoint ==>
      MessageOf(FetchLocalData(endpoint, nowText)) == Str("Updated project system successfully")
    ensures endpoint == ProjectEndpoint || endpoint == UpdateEndpoint ==>
      FetchLocalData(endpoint, nowText)["lastRun"] == Str(nowText)
    ensures endpoint != ProjectEndpoint && endpoint != UpdateEndpoint ==>
      && FetchLocalData(endpoint, nowText)["error"] == Str("Endpoint not found")
      && "data" !in FetchLocalData(endpoint, nowText) && "lastRun" !in FetchLocalData(endpoint, nowText)
  {
  }

  /** Apart from the time, the answer depends on the endpoint alone. */
  lemma OnlyEndpointMatters(endpoint: string, t1: string, t2: string)
    ensures FetchLocalData(endpoint, t1) - {"lastRun"} == FetchLocalData(endpoint, t2) - {"lastRun"}
  {
  }
}
