/**
 * The JavaScript node (src/nodes/JavaScriptNode.tsx): `executeScript` runs the
 * node's code on its input and reports the output or the error through the
 * node's `onUpdate`, caching a successful output.
 */
module JavaScriptNodeModel {
  import opened Options
  import opened Text
  import opened Js
  import opened Storage
  import opened ApiNodeModel

  /** The script the node runs when its `code` is empty. */
  const DefaultJavaScriptCode: string :=
    "// The input variable contains data from the previous node\n" +
    "// Example: Process the input data and return a new object\n" +
    "\n" +
    "function processData(data) {\n" +
    "  // Example: Add a timestamp and transform the data\n" +
    "  return {\n" +
    "    originalData: data,\n" +
    "    timestamp: new Date().toISOString(),\n" +
    "    processed: true,\n" +
    "    summary: typeof data === 'object' \n" +
    "      ? Object.keys(data).length + ' properties processed'\n" +
    "      : 'Processed ' + typeof data\n" +
    "  };\n" +
    "}\n" +
    "\n" +
    "// Process the input and assign to output variable\n" +
    "const output = processData(input);\n" +
    "\n" +
    "// The output variable will be passed to the next node\n"

  /**
   * What running the script gives: the `Function` constructor rejecting the
   * text, an error thrown while it runs (a missing `output` variable is one),
   * or the value the function returns (`{ output }`, unless the code returns
   * early).
   */
  datatype Evaluation = CompileError(message: string) | Raised(message: string) | Returned(result: Value)

  /** Compiling the code, wrapped as the node wraps it, and calling it with the input. */
  type Evaluator = (string, Value) -> Evaluation

  /** `data.code || defaultJavaScriptCode`, as the text spliced into the wrapper. */
  function ScriptCode(data: Record): string {
    if Truthy(Get(data, "code")) then ToText(Get(data, "code")) else DefaultJavaScriptCode
  }

  /** `data.input || {}` */
  function ScriptInput(data: Record): Value {
    Or(Get(data, "input"), Obj(map[]))
  }

  const ExecutionFailedPrefix := "Script execution failed: "
  const MissingOutputMessage := "Script must define an output variable"

  /**
   * The script's output, or the message of the error that ends the run:
   * errors from inside the script get a prefix, and a result without an
   * `output` is an error of its own.
   */
  function ScriptOutcome(evaluation: Evaluation): Attempt<Value> {
    match evaluation
    case CompileError(message) => Threw(message)
    case Raised(message) => Threw(ExecutionFailedPrefix + message)
    case Returned(result) =>
      if !Truthy(result) then Threw(MissingOutputMessage)
      else
        match Property(result, "output")
        case Threw(message) => Threw(message)
        case Done(output) => if output.Undefined? then Threw(MissingOutputMessage) else Done(output)
  }

  /** `{...data, isLoading: true, error: undefined, output: undefined}` */
  function ScriptLoadingData(data: Record): Record {
    data + map["isLoading" := Bool(true), "error" := Undefined, "output" := Undefined]
  }

  /** The last record: the output on success, the message on failure. */
  function ScriptFinalData(data: Record, outcome: Attempt<Value>, now: Instant): Record {
    match outcome
    case Done(output) =>
      data + map["isLoading" := Bool(false), "output" := output, "lastRun" := Date(now), "error" := Undefined]
    case Threw(message) =>
      data + map["isLoading" := Bool(false), "error" := Str(message), "lastRun" := Date(now), "output" := Undefined]
  }

  /**
   * `executeScript`: reports the loading state, runs the script, caches a
   * successful output under the node's id and reports how the run ended.
   */
  method ExecuteScript(store: LocalStore, data: Record, evaluate: Evaluator, now: Instant)
    returns (updates: seq<Record>)
    requires store.Valid()
    modifies store
    ensures store.Valid() && store.full == old(store.full)
    ensures var outcome := ScriptOutcome(evaluate(ScriptCode(data), ScriptInput(data)));
      && updates == Emitted(data, [ScriptLoadingData(data), ScriptFinalData(data, outcome, now)])
      && store.items == if outcome.Threw? || store.full then old(store.items)
                        else WithResponse(old(store.items), CacheKey(data), NodeResponse(outcome.value, now, Undefined))
  {
    updates := Emitted(data, [ScriptLoadingData(data)]);
    var outcome := ScriptOutcome(evaluate(ScriptCode(data), ScriptInput(data)));
    if outcome.Done? {
      store.SaveResponse(CacheKey(data), NodeResponse(outcome.value, now, Undefined));
    }
    updates := updates + Emitted(data, [ScriptFinalData(data, outcome, now)]);
  }

  // ---------------------------------------------------------------------------
  // Properties

  /** A node without code runs the default script; a node without input runs on `{}`. */
  lemma FalsyFieldsGetDefaults(data: Record)
    ensures !Truthy(Get(data, "code")) ==> ScriptCode(data) == DefaultJavaScriptCode
    ensures Truthy(Get(data, "code")) && Get(data, "code").Str? ==> ScriptCode(data) == data["code"].s
    ensures !Truthy(Get(data, "input")) ==> ScriptInput(data) == Obj(map[])
    ensures Truthy(Get(data, "input")) ==> ScriptInput(data) == data["input"]
  {
  }

  /**
   * The run succeeds exactly when the script returns a truthy value whose
   * `output` is defined, and then yields that output.
   */
  lemma SucceedsIffOutputDefined(evaluation: Evaluation)
    ensures ScriptOutcome(evaluation).Done? <==>
      && evaluation.Returned? && Truthy(evaluation.result)
      && Property(evaluation.result, "output").Done?
      && !Property(evaluation.result, "output").value.Undefined?
    ensures ScriptOutcome(evaluation).Done? ==>
      ScriptOutcome(evaluation).value == Property(evaluation.result, "output").value
  {
  }

  /**
   * The failure messages: script errors carry the prefix, compile errors do
   * not, and a run without an output gets the fixed message.
   */
  lemma FailureMessages(evaluation: Evaluation)
    ensures evaluation.Raised? ==> ScriptOutcome(evaluation) == Threw(ExecutionFailedPrefix + evaluation.message)
    ensures evaluation.CompileError? ==> ScriptOutcome(evaluation) == Threw(evaluation.message)
    ensures evaluation.Returned? && !Truthy(evaluation.result) ==> ScriptOutcome(evaluation) == Threw(MissingOutputMessage)
    ensures evaluation.Returned? && evaluation.result.Obj? && "output" !in evaluation.result.fields ==>
      ScriptOutcome(evaluation) == Threw(MissingOutputMessage)
  {
  }

  /**
   * The final record clears the loading flag; on success it carries the output
   * and no error, on failure the message and no output.
   */
  lemma FinalRecordMatchesOutcome(data: Record, outcome: Attempt<Value>, now: Instant)
    ensures ScriptFinalData(data, outcome, now)["isLoading"] == Bool(false)
    ensures ScriptFinalData(data, outcome, now)["lastRun"] == Date(now)
    ensures outcome.Done? ==>
      ScriptFinalData(data, outcome, now)["output"] == outcome.value && ScriptFinalData(data, outcome, now)["error"] == Undefined
    ensures outcome.Threw? ==>
      ScriptFinalData(data, outcome, now)["error"] == Str(outcome.message) && ScriptFinalData(data, outcome, now)["output"] == Undefined
  {
  }

  /** After a successful run the node's cache entry holds the output. */
  lemma SuccessCachesOutput(items: map<string, Item>, data: Record, output: Value, now: Instant)
    ensures ResponseOf(WithResponse(items, CacheKey(data), NodeResponse(output, now, Undefined)), CacheKey(data))
      == Some(NodeResponse(output, now, Undefined))
  {
    SaveThenGet(items, CacheKey(data), NodeResponse(output, now, Undefined), CacheKey(data));
  }
}
