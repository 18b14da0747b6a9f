# Pipeline editor: graph state, response cache and node runs in Dafny

This project models the logic of a browser-based pipeline editor built on a
graph-canvas library. The canvas, its rendering and the network belong to the
library and the browser. What the editor itself decides is modelled here:

- **Node ids.** `getNextNodeId` picks the id of a new node. It takes the ids
  that start with `node`, parses their numeric suffixes, sorts them and returns
  the first gap counting from 1 (`NodeIds`, with `Text` for `replace`,
  `parseInt` and the decimal text of numbers).
- **The editor's state.** The main editor (`FlowApp.App`) is a class with the
  node list, the edge list, the dialog flag, the selected node and the change
  flag. Its handlers connect, edit, delete, add, close and save (`GraphEdits`
  holds the pure edits they apply). The earlier copy of the editor is
  `PipelineFlowApp.PipelineApp`. `InitialGraph` holds the starting graph and
  worked examples.
- **Browser storage.** `Storage.LocalStore` is a class over a map from storage
  key to parsed content. It holds a per-node response cache and a graph
  snapshot; restoring the snapshot merges cached responses into API nodes.
- **Node runs.** Each node run is the sequence of records it hands to the
  node's `onUpdate`, plus its cache write:
  - the HTTP helper (`Api`);
  - the API node (`ApiNodeModel`);
  - the JavaScript node (`JavaScriptNodeModel`);
  - the simulated Python node (`PythonNodeModel`);
  - the Jira query node (`ProjectMgmtNodeModel`).

  Fetching, script evaluation and text encoders are function parameters that
  return a value or the message of what they threw.
- **Dialogs.** The label-editing dialog (`LabelEditing`), the saved-projects
  dialog (`SavedProjects`) and the mock endpoint table (`LocalApi`).
- **A rename through both components.** `EditFlow` follows a rename from the
  dialog into the editor, and holds the finding below.

JavaScript values are `Js.Value`. The module also models the few language rules
the editor relies on: truthiness, `||`, object spread (map union, with strings
spreading into index keys), property reads and template-literal text.

The main editor never raises its own change flag: nothing in it ever sets it
to true. Edit, close and save reset it to false, and the other handlers leave
it alone. `App.Valid()` records this as an invariant next to "the dialog is
open exactly when a node is selected" and "every `node` id has a number after
the prefix", which every handler keeps and which makes "Add Node" defined.

## Model

| member | source | states |
|---|---|---|
| NodeIds.GetNextNodeId | src/nodes/index.ts:39-60 | the loop's result is `node` followed by `NextSuffix` of the ids: the first place, counting from 1, where the sorted suffixes depart from 1, 2, 3, ... (the loop invariants tie the loop to that definition) |
| NodeIds.NextSuffix | src/nodes/index.ts:48-59 | the number after `node` in the new id is at least 1 |
| NodeIds.SortAscending | src/nodes/index.ts:44 | the sorted suffixes are ascending and a permutation of the parsed suffixes |
| NodeIds.Insert | src/nodes/index.ts:44 | inserting into an ascending list keeps it ascending and adds exactly the one element |
| NodeIds.GapFrom | src/nodes/index.ts:49-56 | the scan returns a value between `next` and `next + length`; every element before its stop equals its counter; the element at the stop differs from the counter |
| NodeIds.AscendingUnique | src/nodes/index.ts:44 | two ascending lists with the same elements are equal, so the sort's result is determined by the multiset of suffixes |
| NodeIds.PickedPermutation | src/nodes/index.ts:40-43 | reordering the ids reorders the parsed suffixes and changes nothing else |
| NodeIds.SuffixOfNodeId | src/nodes/index.ts:43 | an id `node<n>` starts with `node`, and removing the first `node` and parsing the rest gives back n |
| NodeIds.PaddedSuffix | src/nodes/index.ts:43 | `node0<n>` is a different id from `node<n>` with the same parsed suffix n |
| NodeIds.SuffixesOfNodeIds | src/nodes/index.ts:40-43 | the suffixes of a list of `node<n>` ids are exactly their numbers, in order |
| NodeIds.SortAscendingSorted | src/nodes/index.ts:44 | sorting an ascending list leaves it as it is |
| NodeIds.NextIdReadsBack | src/nodes/index.ts:53-59 | the returned id starts with `node` and its suffix parses back to the chosen number |
| NodeIds.NonNodeIdIgnored | src/nodes/index.ts:40-42 | inserting an id that does not start with `node` anywhere in the list leaves the result unchanged |
| NodeIds.OrderIndependent | src/nodes/index.ts:44 | any permutation of the id list gives the same result |
| NodeIds.NoGapGivesNext | src/nodes/index.ts:49-59 | when the suffixes are exactly 1..k in any order, the result is k+1 |
| NodeIds.GapIsSmallestMissing | src/nodes/index.ts:50-54 | on ascending, distinct, positive numbers the scan stops at a number not in the list, and every smaller positive number is in the list |
| NodeIds.SmallestMissing | src/nodes/index.ts:50-56 | with distinct positive suffixes, the result is the smallest positive number that is not a suffix |
| NodeIds.NextIdIsFresh | src/nodes/index.ts:49-56 | with distinct positive suffixes, the returned id is not among the existing ids |
| NodeIds.PickedConcat | src/nodes/index.ts:42-43 | filtering and parsing a concatenation is filtering and parsing each part |
| NodeIds.PickedMembership | src/nodes/index.ts:42-43 | a number is among the parsed suffixes if and only if some kept id parses to it |
| Text.IndexOfFromIsFirst | src/nodes/index.ts:43 | the search finds the first occurrence of the pattern at or after the start, and finds none only when there is none |
| Text.RemoveFirstOfPrefix | src/nodes/index.ts:43 | `replace` on a string that starts with the pattern removes exactly that prefix |
| Text.RemoveFirstAbsent | src/nodes/index.ts:43 | `replace` with a pattern that does not occur leaves the string as it is |
| Text.TrimStartSuffix | src/nodes/index.ts:43 | `parseInt` skips a prefix of JavaScript white space, and what remains does not start with white space |
| Text.LeadingDigitsMaximal | src/nodes/index.ts:43 | `parseInt` reads the longest run of leading decimal digits |
| Text.ParseDigits | src/nodes/index.ts:43 | `parseInt` of a nonempty run of digits is its decimal value |
| Text.ParseZeroPadded | src/nodes/index.ts:43 | `parseInt` ignores a leading zero: `0<n>` parses to n |
| Text.DecimalDigits | src/nodes/index.ts:53 | the text a template literal gives a natural number is a nonempty run of digits without a leading zero |
| Text.DecimalValue | src/nodes/index.ts:53 | the decimal text of n reads back as n |
| Text.ParseDecimal | src/nodes/index.ts:53 | `parseInt` of the decimal text of n is n |
| Text.DecimalInjective | src/nodes/index.ts:53 | different numbers have different decimal texts |
| Js.Indexed | src/App.tsx:127-130 | the index object of a sequence (what spreading a string builds) has only digit keys, and key `i` holds item i |
| InitialGraph.InitialGraphWellFormed | src/nodes/index.ts:8-37 | both initial nodes are button nodes with string labels, and the initial edge joins two of them |
| InitialGraph.InitialIds | src/nodes/index.ts:8-26 | the initial ids are `header`, then `node1` |
| InitialGraph.HeaderThenOne | src/nodes/index.ts:40-42 | `header` is skipped, so `header`, `node1` gives 2 |
| InitialGraph.InitialNextId | src/nodes/index.ts:8-26 | for the initial nodes the next id is `node2` |
| InitialGraph.ConsecutiveExample | src/nodes/index.ts:49-59 | `node1`, `node2` gives `node3` |
| InitialGraph.GapExample | src/nodes/index.ts:50-54 | `node1`, `node3` gives `node2` |
| InitialGraph.ZeroSuffixCollides | src/nodes/index.ts:49-56 | `node0`, `node1` gives `node1`, which already exists |
| InitialGraph.DuplicateSuffixCollides | src/nodes/index.ts:49-56 | `node1`, `node01`, `node2` gives `node2`, which already exists |
| GraphEdits.WithoutNode | src/App.tsx:77 | a node is kept if and only if its id differs from the deleted id |
| GraphEdits.WithoutNodeConcat | src/App.tsx:77 | the kept nodes stay in their order |
| GraphEdits.WithoutAbsentNode | src/App.tsx:77 | deleting an id no node has keeps the list as it is |
| GraphEdits.WithoutNodeIdempotent | src/App.tsx:77 | deleting twice is deleting once |
| GraphEdits.WithoutIncident | src/App.tsx:78-80 | an edge is kept if and only if neither its source nor its target is the deleted id |
| GraphEdits.WithoutIncidentConcat | src/App.tsx:78-80 | the kept edges stay in their order |
| GraphEdits.WithoutUntouched | src/App.tsx:78-80 | edges that do not touch the deleted id are all kept, in order |
| GraphEdits.DeleteKeepsEdgesClosed | src/App.tsx:75-81 | if every edge joined two existing nodes before a delete, every remaining edge joins two remaining nodes |
| GraphEdits.NewButtonNode | src/App.tsx:89-103 | the new node is a button with the given id and position, and exactly a label `Node <n>` and a click handler alerting `Node <n> clicked!`, where n is the parsed suffix (`NaN` if none) |
| GraphEdits.NewNodeOfNodeId | src/App.tsx:85-101 | for an id `node<n>` the new node is well formed, is labelled `Node <n>`, and its click alerts `Node <n> clicked!` |
| GraphEdits.ConnectionEdge | src/App.tsx:57-65 | the edge record keeps the connection's endpoints and handles and has type `default`, animation on and stroke `#4CAF50`; its id is left to the library |
| GraphEdits.SavedData | src/App.tsx:127-134 | the saved data has every update field, then every old field not updated, and nothing else; a button's click handler is replaced by one alerting the update's label |
| GraphEdits.ApplySave | src/App.tsx:124-142 | the node list keeps its length; nodes with another id are identical; nodes with the id get the saved data and keep everything else |
| GraphEdits.ApplySaveKeepsIds | src/App.tsx:124-142 | a save keeps every node's id, type and position |
| GraphEdits.ApplySaveIdempotent | src/App.tsx:124-142 | saving the same updates twice is saving them once |
| GraphEdits.SavedDataIdempotent | src/App.tsx:127-134 | overlaying the same updates on saved data changes nothing |
| GraphEdits.SaveLabelOfButton | src/App.tsx:127-134 | updates `{label: s, ...}` give a button node label s, and its click alerts `s clicked!` |
| FlowApp.App.constructor | src/App.tsx:49-53 | the editor starts with the initial nodes, no edges, the dialog closed and nothing selected |
| FlowApp.App.OnConnect | src/App.tsx:55-66 | the edges become the library's `addEdge` of the styled connection record; nothing else changes |
| FlowApp.App.EditNode | src/App.tsx:68-73 | the node is selected, the dialog opens, the change flag is false; nodes and edges are unchanged |
| FlowApp.App.DeleteNode | src/App.tsx:75-81 | the nodes with the id and the edges touching it are removed; the dialog state is unchanged |
| FlowApp.App.AddNode | src/App.tsx:83-105 | exactly one button node, with the next id at the given position, is appended; the edges and the dialog state are unchanged |
| FlowApp.App.CloseModal | src/App.tsx:112-116 | the dialog closes, the selection is cleared, the change flag is false; nodes and edges are unchanged |
| FlowApp.App.SaveChanges | src/App.tsx:118-148 | with a node selected, the nodes with its id get the updates and the dialog closes with the selection cleared; with none selected nothing changes; edges never change |
| FlowApp.AddNodeAppendsOne | src/App.tsx:84-104 | the old nodes are the unchanged prefix of the new list; the one appended node has id `node<n>` with n ≥ 1, is a button at the position, is labelled `Node <n>` and alerts `Node <n> clicked!` |
| FlowApp.AddNodeKeepsIdsParsing | src/App.tsx:83-105 | after an add every `node` id still has a numeric suffix, so the next add is defined |
| FlowApp.DeleteKeepsIdsParsing | src/App.tsx:75-81 | after a delete every `node` id still has a numeric suffix, since the remaining ids are among the old ones |
| FlowApp.AddNodeKeepsIdsUnique | src/App.tsx:83-105 | with distinct positive suffixes the new id is fresh, and the suffixes stay distinct and positive with the new number appended |
| PipelineFlowApp.PipelineApp.constructor | reactflowpipeline/src/App.tsx:29-30 | the copy starts with its initial nodes and no edges |
| PipelineFlowApp.PipelineApp.OnConnect | reactflowpipeline/src/App.tsx:32-43 | the edges become `addEdge` of the styled connection record; the nodes are unchanged |
| PipelineFlowApp.PipelineApp.EditNode | reactflowpipeline/src/App.tsx:45-48 | editing changes neither nodes nor edges |
| PipelineFlowApp.PipelineApp.DeleteNode | reactflowpipeline/src/App.tsx:50-57 | the nodes with the id and the edges touching it are removed |
| PipelineFlowApp.PipelineApp.AddNode | reactflowpipeline/src/App.tsx:59-81 | exactly one button node with the next id is appended; the edges are unchanged |
| Storage.AllResponses | src/utils/storage.ts:57-65 | a missing, empty or unparsable cache reads as the empty cache |
| Storage.ResponseOf | src/utils/storage.ts:40-55 | there is an entry for an id if and only if the cache has the id, and `null` otherwise |
| Storage.RestoredNodes | src/utils/storage.ts:90-104 | the restore maps every node in place and keeps the count and the order |
| Storage.AppStateOf | src/utils/storage.ts:82-111 | there is a state if and only if a snapshot is stored; it keeps the snapshot's edges and time |
| Storage.LocalStore.constructor | src/utils/storage.ts:20-23 | a store whose two keys hold a cache, a snapshot, empty text or unparsable text starts out valid, with exactly the given contents |
| Storage.LocalStore.GetAllResponses | src/utils/storage.ts:57-65 | reads the cache as `AllResponses` describes it |
| Storage.LocalStore.GetResponse | src/utils/storage.ts:40-55 | reads one entry as `ResponseOf` describes it |
| Storage.LocalStore.SaveResponse | src/utils/storage.ts:27-38 | a write that fits sets the id's entry and nothing else; a write over the quota leaves storage unchanged |
| Storage.LocalStore.SaveAppState | src/utils/storage.ts:68-80 | a write that fits replaces the snapshot with exactly the given nodes, edges and time; one over the quota changes nothing |
| Storage.LocalStore.GetAppState | src/utils/storage.ts:82-111 | reads the snapshot as `AppStateOf` describes it |
| Storage.SaveThenGet | src/utils/storage.ts:27-55 | after saving an entry for an id, reading that id gives the entry, every other id reads as before, and every other storage key is untouched |
| Storage.SaveResponseOverwrites | src/utils/storage.ts:29-34 | a second save for the same id replaces the first |
| Storage.RestoredNodeIdempotent | src/utils/storage.ts:90-104 | restoring a node twice is restoring it once |
| Storage.RestoreChangesOnlyCachedApiNodes | src/utils/storage.ts:90-104 | the restore keeps ids, types, positions and order; only API nodes with an entry change, getting its response, time and error over their other fields |
| Storage.SnapshotRoundTrip | src/utils/storage.ts:68-111 | a saved snapshot without cached API nodes reads back exactly |
| Storage.KeysIndependent | src/utils/storage.ts:20-23 | writing the snapshot does not touch the cache, and writing the cache does not remove the snapshot |
| Api.CallRequest | src/utils/api.ts:22-33 | the request has JSON headers and CORS mode; it carries a body if and only if the payload is truthy and the method is POST, PUT or PATCH, and then the body is the payload |
| Api.Call | src/utils/api.ts:13-82 | the call resolves to the result of the fetch outcome; it reports the loading record, then the settled record; the cache holds the data, or `null` with the message |
| Api.CallAlwaysSettles | src/utils/api.ts:54-81 | the result always has a boolean `success`, which is true if and only if the fetch succeeded; success carries the data, failure the message and no data |
| Api.CacheAgreesWithResult | src/utils/api.ts:42-68 | after the call's write, the cache entry agrees with the result: the data with no error, or `null` with the error |
| Api.UpdatesGoFromLoadingToSettled | src/utils/api.ts:16-20 | the first record sets loading and clears error and response; the last clears loading and carries the data or the message and the result's time |
| ApiNodeModel.ApiCall | src/nodes/ApiNode.tsx:24-99 | the node reports loading, then the call's whole result as response and output with no error; the cache ends with that result, replacing the call's own entry |
| ApiNodeModel.RestoreOnMount | src/nodes/ApiNode.tsx:113-129 | with a cache entry the node reports its response as both response and output, with its time; without one nothing is reported |
| ApiNodeModel.LoadingClearsResults | src/nodes/ApiNode.tsx:37-44 | the loading record sets the flag and clears error, response and output, keeping every other field |
| ApiNodeModel.FailureReportedAsOutput | src/nodes/ApiNode.tsx:46-76 | a failed request still ends with error undefined, and the `{success: false, ...}` result becomes response and output |
| ApiNodeModel.SuccessReportsWrapper | src/nodes/ApiNode.tsx:68-76 | response and output are always the whole result, which holds the fetched data when the request succeeded |
| ApiNodeModel.MountAfterCallRestoresResult | src/nodes/ApiNode.tsx:113-128 | after a call, mounting again restores the call's whole result as response and output, with the node's own write time |
| ApiNodeModel.ErrorClearsResults | src/nodes/ApiNode.tsx:89-97 | the catch record clears loading, response and output and carries the message |
| JavaScriptNodeModel.ExecuteScript | src/nodes/JavaScriptNode.tsx:33-85 | the node reports loading, then the outcome of running its code (or the default) on its input (or `{}`); only a success is cached |
| JavaScriptNodeModel.FalsyFieldsGetDefaults | src/nodes/JavaScriptNode.tsx:42-47 | falsy code runs the default script and falsy input becomes `{}`; truthy values are used as they are |
| JavaScriptNodeModel.SucceedsIffOutputDefined | src/nodes/JavaScriptNode.tsx:54-59 | a run succeeds if and only if the script returns a truthy value with a defined `output`, which is then the result |
| JavaScriptNodeModel.FailureMessages | src/nodes/JavaScriptNode.tsx:45-58 | errors inside the script get the `Script execution failed: ` prefix; compile errors do not; a falsy result, or one whose `output` is undefined, gives `Script must define an output variable` (a script that never declares `output` fails inside the wrapper and gets the prefix) |
| JavaScriptNodeModel.FinalRecordMatchesOutcome | src/nodes/JavaScriptNode.tsx:66-83 | the last record clears loading; on success it has the output and no error, on failure the message and no output |
| JavaScriptNodeModel.SuccessCachesOutput | src/nodes/JavaScriptNode.tsx:61-64 | after a successful run the node's cache entry holds the output |
| PythonNodeModel.ExecuteScript | src/nodes/PythonNode.tsx:16-60 | the node reports loading, caches the input (or `{}`) as its output and reports it |
| PythonNodeModel.OutputIsInput | src/nodes/PythonNode.tsx:27-33 | the output is the input, or `{}` when the input is falsy |
| PythonNodeModel.PythonLoadingClears | src/nodes/PythonNode.tsx:18-23 | the loading record sets the flag and clears error and output |
| PythonNodeModel.SuccessKeepsEarlierError | src/nodes/PythonNode.tsx:43-48 | the success record sets only loading, output and time; every other field, an earlier error included, comes from the captured data |
| PythonNodeModel.OutputCached | src/nodes/PythonNode.tsx:38-41 | the node's cache entry holds the output |
| PythonNodeModel.PythonErrorCarriesMessage | src/nodes/PythonNode.tsx:51-58 | the catch record clears loading and carries the message and the time |
| ProjectMgmtNodeModel.EndpointChoice | src/nodes/ProjectMgmtNode.tsx:22-24 | a truthy query gives `/search?jql=` and the encoded query; otherwise `/project/<key>/issues`; only encoding the query can fail |
| ProjectMgmtNodeModel.RequestUrl | src/nodes/ProjectMgmtNode.tsx:21-31 | the URL is the fixed base URL followed by the endpoint, with basic credentials and no body |
| ProjectMgmtNodeModel.RecordMatchesOutcome | src/nodes/ProjectMgmtNode.tsx:35-48 | success reports the parsed body and no error; failure reports the message and no response; other fields are the node's |
| ProjectMgmtNodeModel.OutcomeIsFetch | src/nodes/ProjectMgmtNode.tsx:18-33 | when both encodings succeed, the outcome is the fetch of the built request |
| ProjectMgmtNodeModel.ExecuteQuery | src/nodes/ProjectMgmtNode.tsx:18-50 | a query hands at most one record to the node, and hands one exactly when the node has an `onUpdate` |
| ProjectMgmtNodeModel.QueryReportsOnce | src/nodes/ProjectMgmtNode.tsx:18-50 | a query reports nothing to a node without `onUpdate`, and otherwise exactly one record: the fetched body and no error, or the message of what threw and no response, with the run's time and every other field of the node |
| LabelEditing.LabelUpdates | src/App.tsx:118-122 | the argument the editor expects is an object whose only key is `label`, holding the edited label |
| LabelEditing.LabelEditor.constructor | src/components/Modal.tsx:116-117 | the label starts empty and the change flag starts as given |
| LabelEditing.LabelEditor.Reset | src/components/Modal.tsx:120-125 | with a node and the dialog open, the label becomes the node's label (or `''`) and the change flag drops; otherwise nothing changes |
| LabelEditing.LabelEditor.ChangeLabel | src/components/Modal.tsx:127-130 | any edit sets the label and raises the change flag |
| LabelEditing.LabelEditor.ClickSave | src/components/Modal.tsx:132-134 | Save sends nothing until the label was changed, then sends the label string itself |
| LabelEditing.LabelEditor.ClickSaveUpdates | src/App.tsx:118-130 | Save sends nothing until the label was changed, then sends `{label: nodeLabel}` |
| LabelEditing.LabelEditor.Rendered | src/components/Modal.tsx:136 | a closed dialog renders nothing; an open one shows the label, and Save is enabled if and only if the label was changed |
| EditFlow.StringSaveKeepsLabel | src/App.tsx:127-133 | saving a bare string keeps the node's label, adds one index key per character and makes a button alert `undefined clicked!` |
| EditFlow.RenameIsLost | src/components/Modal.tsx:132-134 | renaming a new `node1` to `Hi` leaves its label `Node 1`, and its click alerts `undefined clicked!` |
| EditFlow.LabelUpdatesSetLabel | src/App.tsx:127-134 | saving `{label: s}` gives the node label s, keeps its other fields, and makes a button alert `s clicked!` |
| EditFlow.EditAndSave | src/App.tsx:118-148 | a rename through both components with the corrected argument labels every node with the id and leaves every other node and all edges alone |
| SavedProjects.ProjectKeys | src/components/SavedProjectsModal.tsx:16 | a key is listed if and only if it is in storage and starts with `project_` |
| SavedProjects.SavedProjectsModal.constructor | src/components/SavedProjectsModal.tsx:13 | the list starts empty |
| SavedProjects.SavedProjectsModal.Refresh | src/components/SavedProjectsModal.tsx:15-19 | the list becomes `Demo Project` followed by the project keys |
| SavedProjects.SavedProjectsModal.Rendered | src/components/SavedProjectsModal.tsx:44 | a closed dialog renders nothing; an open one shows the list |
| SavedProjects.ProjectKeysConcat | src/components/SavedProjectsModal.tsx:16 | the project keys keep their storage order |
| SavedProjects.AllProjectKeysListed | src/components/SavedProjectsModal.tsx:16-18 | when every key names a project, all of them are listed, in order |
| SavedProjects.ListShape | src/components/SavedProjectsModal.tsx:16-18 | `Demo Project` comes first; every later entry is a `project_` key from storage, and every such key is listed |
| SavedProjects.LoadAlwaysCloses | src/components/SavedProjectsModal.tsx:21-37 | every choice gives exactly one load or one alert, then closes the dialog |
| SavedProjects.ListedKeyLoadsItsId | src/components/SavedProjectsModal.tsx:28-34 | a listed key loads the project named by the rest of the key; when there is none, it alerts `Project not found!` and loads nothing |
| SavedProjects.DemoLoadsDemoConfig | src/components/SavedProjectsModal.tsx:23-26 | `Demo Project` loads the demo configuration |
| LocalApi.FetchLocalData | src/config/localApi.js:1-27 | the answer always has a boolean `success`, which is true if and only if the endpoint is `/api/project` or `/api/update` |
| LocalApi.EndpointTable | src/config/localApi.js:2-26 | each known endpoint answers with its own message and the time; any other endpoint answers `Endpoint not found` with no data and no time |
| LocalApi.OnlyEndpointMatters | src/config/localApi.js:1-27 | apart from `lastRun`, the answer depends on the endpoint alone |

## Left out

- Rendering is not modelled: JSX, styles, React hooks and effect ordering, the canvas library, `ButtonNode`/`SourceNode`/`NodeControls`/`RotationControl`/`CustomEdge`, the dialog's JSON preview, the colour tables (`methodColors`, `platformColors`) and `formatTimestamp`. None of them decides state.
- Console logging and `alert` are not modelled; an alert appears only as the message a click handler or a load would show.
- Positions are integers, and the random coordinates of a new node are a parameter of `AddNode`. The source draws floating-point coordinates from `Math.random`.
- `addEdge`, which assigns edge ids and may drop duplicates, belongs to the canvas library and is a parameter of `OnConnect`.
- NodeIds.GetNextNodeId: requires every `node…` id to have a numeric suffix. With a `NaN` suffix the source sorts with a comparator that is not a consistent order, so the result depends on the engine's sort.
- Numbers are unbounded integers. `parseInt` beyond 2^53 loses precision in the source, and the model does not reproduce that.
- Object spread is modelled on top-level fields. Prototype properties and property order are not modelled.
- The text of a date or a function inside a template literal is a fixed placeholder.
- Storage.LocalStore.SaveResponse: requires (`Valid`) that the cache key holds a cache, the empty text or unparsable text. A key holding some other JSON value is not modelled; the same applies to the snapshot key in `SaveAppState`.
- `JSON.stringify`/`JSON.parse` are taken as exact round trips on stored values. In the source a stored snapshot loses function-valued fields such as `onClick`, and nested dates come back as text.
- A `setItem` that throws is modelled by the store's `full` flag, which makes every write a no-op, as the source's `catch` does.
- Clock readings are opaque parameters (`now`, `callNow`). `fetchLocalData` takes the ISO text of the time as a parameter.
- `fetch` followed by `response.json()` is one parameter returning the parsed body or the message of what either step threw. Headers, status codes and CORS behaviour belong to the browser.
- The script evaluator (`new Function(...)` and its call) is a parameter; the model does not interpret JavaScript code. The default script is passed on as text only.
- `encodeURIComponent` and `btoa` are parameters that may throw.
- Every node run hands its records to the node's `onUpdate` when the node has one. An `onUpdate` that throws is not modelled. Throwing there is the only way to reach the `catch` branches of the API and Python nodes, whose records are still stated (`ErrorData`, `PythonErrorData`).
- ApiNode's effect that hands `executeApiCall` to `onUpdate` whenever `data` changes (src/nodes/ApiNode.tsx:102-110) is not modelled. The local `showOutput`/`localResponse`/`lastRun` view state is not modelled either.
- The Python node's default code is never used by its simulated run and is not modelled.
- The JavaScript and Python nodes store their run function into their own `data` on every render (`data.executeScript = executeScript`, src/nodes/JavaScriptNode.tsx:88 and src/nodes/PythonNode.tsx:63). The model does not capture this update in place of the data object the parent holds, or the aliasing it creates; a run is modelled as a method called with the node's data.
- Strings are sequences of Unicode scalar values, while JavaScript indexes UTF-16 code units. Spreading a string with a character outside the Basic Multilingual Plane gives two index keys for it in the source and one in the model (`Js.Indexed`, `EditFlow.StringSaveKeepsLabel`), and string lengths differ in the same way.
- `loadProject` and `loadDemoConfig` are not part of this model, so they are parameters of `LoadEffects`. The storage module as shown does not export `loadProject`.
- `Object.keys(localStorage)` is a parameter of `Refresh`, since the browser decides the key order.
- The second editor copy's `nodes` module is not part of this model. Its initial nodes are a constructor parameter, and its `getNextNodeId` is taken to be the one in src/nodes/index.ts.

## Findings

| source | as written | input that shows it | evidently intended | confidence | as-written member | corrected member |
|---|---|---|---|---|---|---|
| src/components/Modal.tsx:132-134 | the dialog calls `onSave(nodeLabel)` with the label string, and `handleSaveChanges` (src/App.tsx:127-133) spreads its argument as an object of fields | rename the new node `node1` (label `Node 1`) to `Hi` and save: the label stays `Node 1`, keys `"0"` = `H` and `"1"` = `i` are added, and a click alerts `undefined clicked!` | the dialog passes `{label: nodeLabel}`, so the node is relabelled `Hi` and its click alerts `Hi clicked!` | not executed | EditFlow.StringSaveKeepsLabel | EditFlow.LabelUpdatesSetLabel |
