/**
 * The project-management node (src/nodes/ProjectMgmtNode.tsx): `executeQuery`
 * picks a Jira endpoint from the node's query or project key, fetches it with
 * the node's token and reports the parsed body or the error through the
 * node's `onUpdate`. It does not touch the response cache.
 */
module ProjectMgmtNodeModel {
  import opened Options
  import opened Js
  import opened Api
  import opened ApiNodeModel

  const JiraBaseUrl := "https://your-domain.atlassian.net/rest/api/3"

  /** `encodeURIComponent` and `btoa`: each may throw on text it cannot encode. */
  type Encoder = string -> Attempt<string>

  /**
   * `/search?jql=<encoded query>` when the query is truthy, otherwise
   * `/project/<projectKey>/issues` with the key's text (`undefined` when absent).
   */
  function QueryEndpoint(data: Record, encodeUri: Encoder): Attempt<string> {
    if Truthy(Get(data, "jqlQuery")) then
      match encodeUri(ToText(Get(data, "jqlQuery")))
      case Done(encoded) => Done("/search?jql=" + encoded)
      case Threw(message) => Threw(message)
    else Done("/project/" + ToText(Get(data, "projectKey")) + "/issues")
  }

  /** The request: base URL and endpoint, basic authorization from the token (or `''`), JSON accepted. */
  function QueryRequest(endpoint: string, credentials: string): Request {
    Request(JiraBaseUrl + endpoint, Undefined,
      [("Authorization", "Basic " + credentials), ("Accept", "application/json")], None, None)
  }

  /** The parsed body, or the message of whatever threw first: encoding, token encoding or the fetch. */
  function QueryOutcome(data: Record, encodeUri: Encoder, base64: Encoder, fetch: Fetch): Attempt<Value> {
    match QueryEndpoint(data, encodeUri)
    case Threw(message) => Threw(message)
    case Done(endpoint) =>
      match base64(ToText(Or(Get(data, "apiToken"), Str(""))))
      case Threw(message) => Threw(message)
      case Done(credentials) => fetch(QueryRequest(endpoint, credentials))
  }

  /** The one record `executeQuery` reports. */
  function QueryData(data: Record, outcome: Attempt<Value>, now: Instant): Record {
    match outcome
    case Done(result) => data + map["response" := result, "lastRun" := Date(now), "error" := Undefined]
    case Threw(message) => data + map["error" := Str(message), "response" := Undefined, "lastRun" := Date(now)]
  }

  /** `executeQuery`: the records the node's `onUpdate` receives (`QueryReportsOnce` states their fields). */
  function ExecuteQuery(data: Record, encodeUri: Encoder, base64: Encoder, fetch: Fetch, now: Instant): (records: seq<Record>)
    ensures |records| <= 1
    ensures records != [] <==> HasUpdater(data)
  {
    Emitted(data, [QueryData(data, QueryOutcome(data, encodeUri, base64, fetch), now)])
  }

  // ---------------------------------------------------------------------------
  // Properties

  /** The endpoint choice: the encoded query when there is one, the project's issues otherwise. */
  lemma EndpointChoice(data: Record, encodeUri: Encoder)
    ensures Truthy(Get(data, "jqlQuery")) && encodeUri(ToText(data["jqlQuery"])).Done? ==>
      QueryEndpoint(data, encodeUri) == Done("/search?jql=" + encodeUri(ToText(data["jqlQuery"])).value)
    ensures !Truthy(Get(data, "jqlQuery")) ==>
      QueryEndpoint(data, encodeUri) == Done("/project/" + ToText(Get(data, "projectKey")) + "/issues")
    ensures QueryEndpoint(data, encodeUri).Threw? ==>
      Truthy(Get(data, "jqlQuery")) && encodeUri(ToText(data["jqlQuery"])).Threw?
  {
  }

  /** Every request goes to the fixed base URL followed by the endpoint, with the token as basic credentials. */
  lemma RequestUrl(endpoint: string, credentials: string)
    ensures QueryRequest(endpoint, credentials).url[..|JiraBaseUrl|] == JiraBaseUrl
    ensures QueryRequest(endpoint, credentials).url[|JiraBaseUrl|..] == endpoint
    ensures QueryRequest(endpoint, credentials).headers[0] == ("Authorization", "Basic " + credentials)
    ensures QueryRequest(endpoint, credentials).body.None?
  {
  }

  /**
   * On success the record carries the parsed body and no error; on failure
   * the message and no response. All other fields are the node's.
   */
  lemma RecordMatchesOutcome(data: Record, outcome: Attempt<Value>, now: Instant)
    ensures QueryData(data, outcome, now)["lastRun"] == Date(now)
    ensures outcome.Done? ==>
      QueryData(data, outcome, now)["response"] == outcome.value && QueryData(data, outcome, now)["error"] == Undefined
    ensures outcome.Threw? ==>
      QueryData(data, outcome, now)["error"] == Str(outcome.message) && QueryData(data, outcome, now)["response"] == Undefined
    ensures forall k :: k in data && k !in {"response", "lastRun", "error"} ==>
      k in QueryData(data, outcome, now) && QueryData(data, outcome, now)[k] == data[k]
  {
  }

  /** With encodable inputs, the query succeeds exactly when the fetch does, with its body. */
  lemma OutcomeIsFetch(data: Record, encodeUri: Encoder, base64: Encoder, fetch: Fetch)
    requires QueryEndpoint(data, encodeUri).Done?
    requires base64(ToText(Or(Get(data, "apiToken"), Str("")))).Done?
    ensures QueryOutcome(data, encodeUri, base64, fetch)
      == fetch(QueryRequest(QueryEndpoint(data, encodeUri).value, base64(ToText(Or(Get(data, "apiToken"), Str("")))).value))
  {
  }

  /**
   * `executeQuery` as a whole: nothing reaches a node without `onUpdate`;
   * otherwise exactly one record, carrying the body of the fetch or the message
   * of what threw, the run's time, and every other field of the node.
   */
  lemma QueryReportsOnce(data: Record, encodeUri: Encoder, base64: Encoder, fetch: Fetch, now: Instant)
    ensures !HasUpdater(data) ==> ExecuteQuery(data, encodeUri, base64, fetch, now) == []
    ensures HasUpdater(data) ==> |ExecuteQuery(data, encodeUri, base64, fetch, now)| == 1
    ensures HasUpdater(data) ==>
      var r := ExecuteQuery(data, encodeUri, base64, fetch, now)[0];
      var outcome := QueryOutcome(data, encodeUri, base64, fetch);
      && r["lastRun"] == Date(now)
      && (outcome.Done? ==> r["response"] == outcome.value && r["error"] == Undefined)
      && (outcome.Threw? ==> r["error"] == Str(outcome.message) && r["response"] == Undefined)
      && (forall k :: k in data && k !in {"response", "lastRun", "error"} ==> k in r && r[k] == data[k])
  {
    RecordMatchesOutcome(data, QueryOutcome(data, encodeUri, base64, fetch), now);
  }
}
