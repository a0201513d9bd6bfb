# Visual pipeline builder — a verified model

The system is a visual pipeline builder. Users drop typed nodes on a canvas,
wire their handles together with edges and submit the graph. The backend
replies with the number of nodes and edges and a verdict on whether the graph
is a directed acyclic graph.

The project models the logic of the builder in Dafny:

- **backend.dfy**: the backend's DAG check. It builds the adjacency dictionary,
  runs the depth-first search with its `visited` and `recursion_stack` sets, and
  drives the search from every declared id. It also covers the
  `/pipelines/parse` report.
- **base_node.dfy**: the generic node engine that every node type mounts. It
  covers field values seeded from data and defaults, single-field updates, the
  field-change hook, static and recomputed handle lists, the widget chosen for
  each field, custom content, and the handle-label rules.
- **text_node.dfy**: the text node. It covers the `{{variable}}` scanner, the
  handles generated from the variables it finds, and the text node's own
  configuration.
- **aggregate_node.dfy**, **api_node.dfy**, **conditional_node.dfy**,
  **filter_node.dfy**, **transform_node.dfy**, **llm_node.dfy** and
  **output_node.dfy**: the configuration tables of the other node types.
- **ui.dfy**: the canvas. It covers the node-type registry, the erase button's
  deletion cascade, and the record built when a node is dropped.
- **submit.dfy**: the submit button. It covers the empty-pipeline guard, the
  request payload, and the toast that reports the outcome.
- **wrappers.dfy**, **strings.dfy**, **sequences.dfy** and **graph.dfy** are
  shared helpers:
  - `Option`;
  - the JavaScript string operations the code uses (`||`, template ids,
    `indexOf`, and `replace` with a string pattern);
  - `filter` and the "push unless `includes`" idiom;
  - the node and edge records.

How JavaScript and Python values are represented:

- Values in a node's `data` and in field state are strings. An absent key is
  `undefined`. Both an absent key and `""` are falsy, and `a || b` is
  `Strings.Or`.
- Handle offsets such as `100/3` percent are exact `real` numbers, not floats.
- The model follows the code wherever the code and the project documentation
  differ:
  - The documentation describes connect-time validation, a one-edge-per-target
    rule, cleanup of edges left dangling when handles are recomputed, and a
    local fallback DAG check when the backend is down.
  - None of these is in the code (`submit.js` only shows a "Backend
    Unavailable" toast), so none is modelled.
- A text variable named `output` gives its handle the same id as the text
  node's output handle. `TextNode.HandleIdsDistinctUnlessOutputVariable` states
  this exactly.

## Model

| member | source | states |
|---|---|---|
| Backend.TargetsOf | backend/main.py:43-45 | A declared id's neighbour list holds exactly the targets of the edges whose source is that id. The contract fixes membership only: the verdict does not depend on the order of a neighbour list. |
| Backend.Neighbours | backend/main.py:55 | `adjacency_list.get(node_id, [])` gives the id's list when the id is a key, and the empty list otherwise. |
| Backend.BuildAdjacency | backend/main.py:41-45 | The dictionary's keys are exactly the declared node ids. Each key's list holds the targets of that node's outgoing edges. Edges from undeclared sources are dropped. Keys come in first-occurrence order. |
| Backend.KeyOrderMembers | backend/main.py:41 | The key order lists exactly the declared ids. |
| Backend.CycleSearch.constructor | backend/main.py:48-49 | The search starts with empty `visited` and `recursion_stack`. |
| Backend.CycleSearch.HasCycle | backend/main.py:51-63 | The call adds the id to `visited` and never removes a visited id. It answers True only when the adjacency dictionary has a cycle. When it answers False, `recursion_stack` is back to its value at entry. The search invariant still holds: every finished id is ranked below all its neighbours. The set of finished ids only grows. It terminates because the set of unvisited ids shrinks. |
| Backend.BackEdgeCloses | backend/main.py:59-60 | Reaching an id that is still on the recursion stack closes a cycle. |
| Backend.RankingExcludesCycles | backend/main.py:66-71 | Suppose every declared id finishes before any id that reaches it. Then there is no cycle, so a full search that finds nothing proves the graph acyclic. |
| Backend.AdjacencyCyclesAreGraphCycles | backend/main.py:41-45 | The adjacency dictionary has a cycle iff the graph of edges from declared sources has one. |
| Backend.IsDag | backend/main.py:38-71 | `is_dag` returns True iff the graph of edges whose source is a declared node has no directed cycle. |
| Backend.SelfLoopIsCycle | backend/main.py:55-60 | A declared node with an edge to itself makes the graph cyclic. |
| Backend.NoNodesNoCycle | backend/main.py:66-71 | With zero nodes the graph is acyclic, whatever the edges. |
| Backend.CycleVerticesAreDeclared | backend/main.py:43-45 | Every id on a cycle is a declared node, so an edge to an unknown target never lies on a cycle. |
| Backend.VerdictDependsOnlyOnStructure | backend/main.py:41-45 | The verdict depends only on the set of declared ids and the set of source-target pairs. Order, duplicates, edge ids and handles never change it. |
| Backend.ClosingEdgeMakesCycle | backend/main.py:55-60 | Adding an edge from the end of a path back to its start makes the graph cyclic. |
| Backend.ParsePipeline | backend/main.py:73-84 | `num_nodes` and `num_edges` are the list lengths, duplicates included. `is_dag` is the DAG verdict. `status` is always `parsed`. |
| Strings.NamespacedInjective | frontend/src/nodes/aggregateNode.js:36 | `${id}-${role}` ids for different roles are different. |
| Strings.Or | frontend/src/nodes/BaseNode.js:35 | The JavaScript `or` of two strings is the first when it is non-empty, and the second otherwise. |
| Strings.IndexOf | frontend/src/nodes/outputNode.js:15 | `indexOf` returns the leftmost position where the pattern occurs, or nothing when it occurs nowhere. |
| Strings.ReplaceFirst | frontend/src/nodes/outputNode.js:15 | `replace` with a string pattern rewrites only the leftmost occurrence, or returns the string unchanged when the pattern is absent. |
| Strings.ReplaceFirstPrefix | frontend/src/nodes/outputNode.js:15 | When the string starts with the pattern, `replace` swaps that prefix for the replacement. |
| Sequences.Filter | frontend/src/ui.js:52 | `filter` keeps exactly the elements that satisfy the predicate, in their original order. Each kept element occurs as often as in the input, and a rejected one not at all. |
| Sequences.FilterKeepsAll | frontend/src/ui.js:55-59 | Filtering with a predicate that every element satisfies returns the list itself. |
| Sequences.Dedup | frontend/src/nodes/textNode.js:14-15 | Pushing unless `includes` yields only elements of the input and is never longer than it. |
| Sequences.DedupMembers | frontend/src/nodes/textNode.js:14-15 | Pushing unless `includes` keeps exactly the elements of the input. |
| Sequences.DedupDistinct | frontend/src/nodes/textNode.js:14-15 | Pushing unless `includes` never keeps an element twice. |
| Sequences.DedupFirstOccurrenceOrder | frontend/src/nodes/textNode.js:14-15 | Pushing unless `includes` lists elements in order of their first occurrence in the input. |
| NodeEngine.RolesGiveDistinctIds | frontend/src/nodes/aggregateNode.js:36-57 | Handles whose ids are `${id}-${role}` for pairwise different roles have pairwise different ids, all prefixed by `${id}-`. |
| NodeEngine.Seed | frontend/src/nodes/BaseNode.js:35 | A field starts as `data[name]` when that is truthy, and otherwise as its default. |
| NodeEngine.InitialValues | frontend/src/nodes/BaseNode.js:34-37 | The `reduce` only creates keys that are declared field names. |
| NodeEngine.InitialValuesKeys | frontend/src/nodes/BaseNode.js:34-37 | The initial state has a key for exactly the declared field names. |
| NodeEngine.InitialValuesSeeds | frontend/src/nodes/BaseNode.js:35 | Each field's initial value is `data[name]` if truthy, else its default if truthy, else `''`. When a name is declared twice, the last declaration wins. |
| NodeEngine.InitialState | frontend/src/nodes/BaseNode.js:34-37 | The `reduce` over the fields builds the initial state characterised by `InitialValues`. |
| NodeEngine.ResolveHandles | frontend/src/nodes/BaseNode.js:40-58 | With a generator, the computed handles are the generator's output on the field values and the static handles. Without one, they are the static handles. |
| NodeEngine.StaticHandlesIgnoreValues | frontend/src/nodes/BaseNode.js:40 | Without a generator, the handles are the static handles, whatever the field values. |
| NodeEngine.BaseNode.constructor | frontend/src/nodes/BaseNode.js:34-40 | On mount the field values are the initial state and the computed handles follow them. |
| NodeEngine.BaseNode.HandleChange | frontend/src/nodes/BaseNode.js:43-58 | The change sets the one field and leaves every other key unchanged. The hook, if declared, receives the values from before the change. The computed handles are again the generator applied to the new values, or the static handles when there is no generator. |
| NodeEngine.WidgetKindOf | frontend/src/nodes/BaseNode.js:124-160 | A `select` type gives a select box and `textarea` a text area. Anything else, a missing type included, gives a text input. |
| NodeEngine.RenderField | frontend/src/nodes/BaseNode.js:123-174 | A widget shows its field's name, label and current value, plus the options for a select or the placeholder for a text input. |
| NodeEngine.RenderBody | frontend/src/nodes/BaseNode.js:248-254 | Custom content replaces the field list. Otherwise the body has one widget per field, in declaration order. |
| NodeEngine.RenderHandles | frontend/src/nodes/BaseNode.js:177-237 | Each computed handle gives one rendered handle, in order. A label appears only when it is truthy. It sits outside the left or right edge at `style.top`, or at 50%. |
| TextNode.MatchesFrom | frontend/src/nodes/textNode.js:9-13 | Every capture of the successive `exec` calls is a non-empty run of word characters. |
| TextNode.Variables | frontend/src/nodes/textNode.js:8-20 | `extractVariables` returns distinct identifiers. |
| TextNode.NextMatch | frontend/src/nodes/textNode.js:9-13 | `exec` returns the leftmost match at or after `lastIndex`, or nothing when there is none. |
| TextNode.ExtractVariables | frontend/src/nodes/textNode.js:8-20 | The scanning loop returns exactly `Variables(text)`: the deduplicated sequence of captures. |
| TextNode.MatchesDoNotOverlap | frontend/src/nodes/textNode.js:13 | No match starts strictly inside an earlier match, so resuming the scan after a match's end skips no match. |
| TextNode.VariablesAreWrappedIdentifiers | frontend/src/nodes/textNode.js:9-17 | A string is a returned variable iff it is a non-empty run of word characters that occurs in the text as `{{var}}`. |
| TextNode.VariablesInFirstOccurrenceOrder | frontend/src/nodes/textNode.js:13-17 | The variables are distinct, each comes from a match, and they appear in order of first occurrence. |
| TextNode.DefaultTemplateDeclaresInput | frontend/src/nodes/textNode.js:56 | The default template `{{input}}` declares exactly the variable `input`. |
| TextNode.GenerateDynamicHandles | frontend/src/nodes/textNode.js:23-46 | There is one handle per variable of the text field (empty when the field is falsy) plus one. The last is the output handle, and every id is prefixed by `${id}-`. |
| TextNode.GeneratedHandlesShape | frontend/src/nodes/textNode.js:23-46 | Variable *k* of *n* gives a target `${id}-${var}` labelled `var` at `(k+1)*100/(n+1)` percent. A single source `${id}-output` comes last. |
| TextNode.OffsetInsideEdge | frontend/src/nodes/textNode.js:33 | Every variable handle, a lone one included, sits strictly between 0% and 100%. |
| TextNode.OffsetsIncrease | frontend/src/nodes/textNode.js:33 | A later variable's handle sits strictly lower than an earlier one's. |
| TextNode.EmptyTextOnlyOutput | frontend/src/nodes/textNode.js:24 | A missing or empty text gives only the output handle. |
| TextNode.HandleIdsDistinctUnlessOutputVariable | frontend/src/nodes/textNode.js:31-42 | The generated handle ids are pairwise different iff no variable is named `output`. |
| TextNode.TextConfig | frontend/src/nodes/textNode.js:48-73 | The node is titled Text and has the single field `text`, whose default is `data.text` or `{{input}}`. There is no custom content, and the generator ignores the static handles and generates from the field values. |
| TextNode.TextConfigMounts | frontend/src/nodes/textNode.js:48-73 | On mount the text is `data.text` or `{{input}}`. The handles are the ones generated from that text. |
| AggregateNode.Config | frontend/src/nodes/aggregateNode.js:7-64 | The node is titled Aggregate and declares the fields operation and separator. Every handle id is prefixed by `${id}-`. There is no generator and no custom content. |
| AggregateNode.HandlesShape | frontend/src/nodes/aggregateNode.js:32-59 | There are four handles with distinct ids prefixed by `${id}-`. Targets input1/2/3 sit on the left at 25/50/75% with those labels, then the output source on the right. None is generated. |
| AggregateNode.FieldDefaults | frontend/src/nodes/aggregateNode.js:10-31 | `operation` defaults to `concat`, over exactly concat, sum, average, max and min. `separator` defaults to `, `. |
| ApiNode.Config | frontend/src/nodes/apiNode.js:7-56 | The node is titled API Call and declares the fields method and url. Every handle id is prefixed by `${id}-`. There is no generator and no custom content. |
| ApiNode.HandlesShape | frontend/src/nodes/apiNode.js:31-51 | Targets body (33%) and headers (66%) sit on the left, then the response source on the right. Ids are distinct and namespaced. The handles never change with field edits. |
| ApiNode.FieldDefaults | frontend/src/nodes/apiNode.js:10-30 | `method` defaults to GET, over exactly GET, POST, PUT and DELETE. `url` defaults to `''`. |
| ConditionalNode.Config | frontend/src/nodes/conditionalNode.js:7-51 | The node is titled Conditional and declares the fields operator. Every handle id is prefixed by `${id}-`. There is no generator and no custom content. |
| ConditionalNode.HandlesShape | frontend/src/nodes/conditionalNode.js:26-46 | There is one condition target on the left with no label or style. Then come the true source (33%) and the false source (66%), both on the right. Ids are distinct and namespaced. |
| ConditionalNode.FieldDefaults | frontend/src/nodes/conditionalNode.js:10-25 | `operator` defaults to `equals`, over the six comparison options in order. |
| FilterNode.Config | frontend/src/nodes/filterNode.js:7-47 | The node is titled Filter and declares the fields condition and value. Every handle id is prefixed by `${id}-`. There is no generator and no custom content. |
| FilterNode.HandlesShape | frontend/src/nodes/filterNode.js:31-42 | There is exactly one target `${id}-input` on the left and one source `${id}-output` on the right. |
| FilterNode.FieldDefaults | frontend/src/nodes/filterNode.js:10-30 | There are two fields, condition then value. `condition` defaults to `equals`, over equals, contains, greater and less. `value` defaults to `''`. |
| TransformNode.Config | frontend/src/nodes/transformNode.js:7-41 | The node is titled Transform and declares the fields operation. Every handle id is prefixed by `${id}-`. There is no generator and no custom content. |
| TransformNode.HandlesShape | frontend/src/nodes/transformNode.js:25-36 | There is exactly one target `${id}-input` on the left and one source `${id}-output` on the right. |
| TransformNode.FieldDefaults | frontend/src/nodes/transformNode.js:10-24 | The single field `operation` defaults to `uppercase`, over uppercase, lowercase, trim, reverse and capitalize. |
| LlmNode.Config | frontend/src/nodes/llmNode.js:7-46 | The node is titled LLM and declares no fields. Every handle id is prefixed by `${id}-`. There is no generator, and it has custom content. |
| LlmNode.HandlesShape | frontend/src/nodes/llmNode.js:11-31 | Targets system (100/3%) and prompt (200/3%) sit on the left, then the response source on the right. Ids are distinct and namespaced. |
| LlmNode.ContentIsConstant | frontend/src/nodes/llmNode.js:10-45 | There are no fields, and the body is the same custom content for every field state. |
| OutputNode.Config | frontend/src/nodes/outputNode.js:7-39 | The node is titled Output and declares the fields outputName and outputType. Every handle id is prefixed by `${id}-`. There is no generator and no custom content. |
| OutputNode.HandlesShape | frontend/src/nodes/outputNode.js:28-34 | There is exactly one handle: a target `${id}-value`. There is no source. |
| OutputNode.FieldDefaults | frontend/src/nodes/outputNode.js:10-27 | `outputName` defaults to the `replace`d id. `outputType` defaults to `Text`, with options Text and File (the latter labelled Image). |
| OutputNode.DefaultName | frontend/src/nodes/outputNode.js:15 | `id.replace('customOutput-', 'output_')` rewrites the leftmost occurrence of the pattern, or returns the id unchanged when the pattern is absent. |
| OutputNode.DefaultNameOfStoreId | frontend/src/nodes/outputNode.js:15 | The id `customOutput-N` gives the default name `output_N`. |
| OutputNode.DefaultNameWithoutPattern | frontend/src/nodes/outputNode.js:15 | An id without `customOutput-` is its own default name. |
| PipelineUi.NodeTypes | frontend/src/ui.js:21-31 | The registry has exactly the nine tags. |
| PipelineUi.RegistryRoundTrip | frontend/src/ui.js:21-31 | Each kind is registered under its tag, and each tag names the kind it belongs to. |
| PipelineUi.ConfigFor | frontend/src/ui.js:21-31 | Every registered kind except the input node has a configuration, and it is that kind's own: LLM, Output, Text, Filter, Transform, API Call, Conditional or Aggregate, by title. |
| PipelineUi.StaticHandlesNamespaced | frontend/src/ui.js:21-31 | Every configured kind declares only handles prefixed by `${id}-`. |
| PipelineUi.SelectedNodeIds | frontend/src/ui.js:47-48 | The list holds exactly the ids of the selected nodes. It is empty iff no node is selected. |
| PipelineUi.RemainingNodes | frontend/src/ui.js:52 | The remaining nodes are exactly the unselected nodes, in their original order. Each unselected node is kept as many times as it occurs, and a selected one not at all. |
| PipelineUi.RemainingEdges | frontend/src/ui.js:55-59 | No selected edge survives, and no surviving edge touches a selected node. Every other edge is kept, in order and as many times as it occurs. |
| PipelineUi.FlowCanvas.HandleDelete | frontend/src/ui.js:46-60 | The node list is replaced only when some node is selected. The edge list is always replaced by the surviving edges. |
| PipelineUi.DeleteIsIdempotent | frontend/src/ui.js:46-60 | Deleting again right after a deletion changes nothing. |
| PipelineUi.NothingSelectedKeepsEdges | frontend/src/ui.js:55-59 | With nothing selected, every edge is kept. |
| PipelineUi.DeleteMiddleOfChain | frontend/src/ui.js:46-60 | Deleting B from A → B → C leaves A and C and no edge. |
| PipelineUi.InitNodeData | frontend/src/ui.js:86-89 | A new node's data is exactly `{id, nodeType}`. |
| PipelineUi.Drop | frontend/src/ui.js:91-121 | A drop without a payload or with a falsy `nodeType` adds no node. Otherwise the new node has the id from `getNodeID(type)`, that type, the drop position and data `{id, nodeType}`. |
| Submit.DecimalRoundTrip | frontend/src/submit.js:51 | Counts are printed in decimal, and reading the digits back gives the count. |
| Submit.ProjectNode | frontend/src/submit.js:21-26 | A sent node carries exactly the canvas node's id, type, position and data. |
| Submit.ProjectEdge | frontend/src/submit.js:27-33 | A sent edge carries exactly the canvas edge's id, source, target and both handles. |
| Submit.BuildPayload | frontend/src/submit.js:20-34 | The payload has the same length and order as the canvas lists. Each node keeps exactly id, type, position and data. Each edge keeps exactly id, source, target and both handles. |
| Submit.PayloadIgnoresSelection | frontend/src/submit.js:20-34 | The selection state never reaches the backend. |
| Submit.Classify | frontend/src/submit.js:45-58 | There is a success only for an ok response whose body parsed. Its text is `SuccessMessage` of the reported counts and verdict, so the counts read back from it. Every other outcome, a non-ok status included, is reported as disconnected and never as an error. |
| Submit.SuccessMessage | frontend/src/submit.js:51 | The success text opens with `Pipeline Submitted Successfully!` and `Nodes: `. Next come the decimal digits of `num_nodes`, which read back to that count, then the `Edges: ` label and the digits of `num_edges`, which read back likewise. It ends with the `DAG: ` label and Yes or No, as the graph is a DAG or not. |
| Submit.UnavailableMessage | frontend/src/submit.js:56 | The disconnected text opens with `Backend Unavailable` and quotes the error message it is given. |
| Submit.HttpErrorReason | frontend/src/submit.js:46 | The error for a non-ok status reads `HTTP error! status: ` followed by digits that denote the status. |
| Submit.HttpErrorLooksLikeTransportError | frontend/src/submit.js:45-47 | A non-ok status is reported exactly as a transport failure with the same message. |
| Submit.SubmitButton.HandleSubmit | frontend/src/submit.js:11-59 | An empty canvas shows the error toast and sends nothing. Otherwise the payload is sent and the toast reports the outcome. |
| Submit.SuccessReportsBackendVerdict | frontend/src/submit.js:49-52 | When the backend's report comes back, the toast shows the canvas's counts and "Yes" exactly when the graph has no cycle. |

## Left out

- React rendering is not modelled: JSX, style objects, the toast markup, hover handlers and the CSS text of label pills. Only the label placement rules are kept.
- The reactflow library is not modelled: `ReactFlow`, `Handle`, `project`, `getBoundingClientRect`, the minimap and the controls. The drop position is a parameter of `PipelineUi.Drop`.
- `store.js` is not part of this model: `getNodeID`, `addNode`, `onConnect`, `onNodesChange` and `onEdgesChange`. `getNodeID` is a parameter of `PipelineUi.Drop`, and `Drop` returns the node handed to `addNode`.
- `inputNode.js` is not part of this model, so `PipelineUi.ConfigFor` has no configuration for the `customInput` kind.
- `toolbar.js` and `App.js` are left out. They are a static palette and page layout.
- `fetch`, JSON encoding and decoding, and `setTimeout` toast expiry are left out. `Submit.SubmitButton.HandleSubmit` takes the HTTP round trip as a function parameter that yields the outcome, and the toast is never cleared.
- The backend's HTTP side is left out: FastAPI routing, CORS and pydantic validation (backend/main.py:1-36). `Backend.ParsePipeline` takes the already-validated pipeline.
- Backend.IsDag: Python's recursion limit is not modelled. A very deep graph would raise in the source, but the model's search always terminates with the verdict.
- NodeEngine.RenderBody: the custom renderer receives only the field values. The `handleChange` callback it is also given is not modelled.
- NodeEngine.BaseNode.HandleChange: React batching is not modelled. The update and the handle effect happen in one step.
- Data values are strings. A non-string `data` value, or a non-string `nodeType` in a dropped payload, is not modelled.
- Submit.Classify: the text of a JSON-parse or network error is a parameter, not the browser's own message.
- `TextNode.Offset` and the handle offsets are exact rationals. The float-to-string formatting of the `top` percentages is not modelled.
- `onNodesDelete` in `ui.js` computes a list of ids and discards it. It has no effect to model.
