/**
 * The pipeline canvas: the registry from type tags to node kinds, the erase
 * button's deletion cascade and the record built when a node is dropped.
 */
module PipelineUi {

  import opened Wrappers
  import opened Strings
  import opened Sequences
  import opened Graph
  import opened NodeEngine
  import TextNode
  import AggregateNode
  import ApiNode
  import ConditionalNode
  import FilterNode
  import TransformNode
  import LlmNode
  import OutputNode

  // ---------------------------------------------------------------------------
  // The node-type registry
  // ---------------------------------------------------------------------------

  /** The node components the canvas can render. */
  datatype NodeKind =
    | InputKind | LlmKind | OutputKind | TextKind | FilterKind
    | TransformKind | ApiKind | ConditionalKind | AggregateKind

  /** The tag under which each kind is registered. */
  function TagOf(kind: NodeKind): string {
    match kind
    case InputKind => "customInput"
    case LlmKind => "llm"
    case OutputKind => "customOutput"
    case TextKind => "text"
    case FilterKind => "filter"
    case TransformKind => "transform"
    case ApiKind => "api"
    case ConditionalKind => "conditional"
    case AggregateKind => "aggregate"
  }

  /** The `nodeTypes` map handed to the canvas. */
  function NodeTypes(): (m: map<string, NodeKind>)
    ensures m.Keys == {"customInput", "llm", "customOutput", "text", "filter",
                       "transform", "api", "conditional", "aggregate"}
  {
    map["customInput" := InputKind, "llm" := LlmKind, "customOutput" := OutputKind,
        "text" := TextKind, "filter" := FilterKind, "transform" := TransformKind,
        "api" := ApiKind, "conditional" := ConditionalKind, "aggregate" := AggregateKind]
  }

  /**
   * The registry is a bijection between its nine tags and the nine kinds: every
   * kind is registered under its tag, and every tag names the kind whose tag it is.
   */
  lemma RegistryRoundTrip()
    ensures forall kind :: TagOf(kind) in NodeTypes() && NodeTypes()[TagOf(kind)] == kind
    ensures forall tag :: tag in NodeTypes() ==> TagOf(NodeTypes()[tag]) == tag
  {
    forall kind ensures TagOf(kind) in NodeTypes() && NodeTypes()[TagOf(kind)] == kind {
      match kind
      case InputKind =>
      case LlmKind =>
      case OutputKind =>
      case TextKind =>
      case FilterKind =>
      case TransformKind =>
      case ApiKind =>
      case ConditionalKind =>
      case AggregateKind =>
    }
  }

  /**
   * The configuration each registered component mounts `BaseNode` with, for a
   * node `id` carrying `data`. The input component's file is not part of this
   * model, so it has none here.
   */
  function ConfigFor(kind: NodeKind, id: string, data: DataRecord): (c: Option<NodeConfig>)
    ensures c.None? <==> kind == InputKind
    ensures kind == LlmKind ==> c.Some? && c.value.title == "LLM"
    ensures kind == OutputKind ==> c.Some? && c.value.title == "Output"
    ensures kind == TextKind ==> c.Some? && c.value.title == "Text"
    ensures kind == FilterKind ==> c.Some? && c.value.title == "Filter"
    ensures kind == TransformKind ==> c.Some? && c.value.title == "Transform"
    ensures kind == ApiKind ==> c.Some? && c.value.title == "API Call"
    ensures kind == ConditionalKind ==> c.Some? && c.value.title == "Conditional"
    ensures kind == AggregateKind ==> c.Some? && c.value.title == "Aggregate"
  {
    match kind
    case InputKind => None
    case LlmKind => Some(LlmNode.Config(id, data))
    case OutputKind => Some(OutputNode.Config(id, data))
    case TextKind => Some(TextNode.TextConfig(id, data))
    case FilterKind => Some(FilterNode.Config(id, data))
    case TransformKind => Some(TransformNode.Config(id, data))
    case ApiKind => Some(ApiNode.Config(id, data))
    case ConditionalKind => Some(ConditionalNode.Config(id, data))
    case AggregateKind => Some(AggregateNode.Config(id, data))
  }

  /** Every configured component declares only handles whose ids are `${id}-…`. */
  lemma {:induction false} StaticHandlesNamespaced(kind: NodeKind, id: string, data: DataRecord)
    requires kind != InputKind
    ensures AllNamespaced(ConfigFor(kind, id, data).value.handles, id)
  {
    match kind
    case LlmKind => LlmNode.HandlesShape(id, data);
    case OutputKind => OutputNode.HandlesShape(id, data);
    case TextKind =>
    case FilterKind => FilterNode.HandlesShape(id, data);
    case TransformKind => TransformNode.HandlesShape(id, data);
    case ApiKind => ApiNode.HandlesShape(id, data);
    case ConditionalKind => ConditionalNode.HandlesShape(id, data);
    case AggregateKind => AggregateNode.HandlesShape(id, data);
  }

  // ---------------------------------------------------------------------------
  // The deletion cascade
  // ---------------------------------------------------------------------------

  predicate Unselected(node: FlowNode) {
    !node.selected
  }

  /** `nodes.filter(n => n.selected).map(n => n.id)`. */
  function SelectedNodeIds(nodes: seq<FlowNode>): (ids: seq<string>)
    ensures forall k :: 0 <= k < |nodes| && nodes[k].selected ==> nodes[k].id in ids
    ensures forall j :: 0 <= j < |ids| ==> exists k :: 0 <= k < |nodes| && nodes[k].selected && nodes[k].id == ids[j]
    ensures |ids| == 0 <==> forall k :: 0 <= k < |nodes| ==> !nodes[k].selected
  {
    if nodes == [] then []
    else (if nodes[0].selected then [nodes[0].id] else []) + SelectedNodeIds(nodes[1..])
  }

  /** An edge the cascade keeps: not selected and not touching a selected node. */
  predicate Survives(edge: FlowEdge, selectedIds: seq<string>) {
    !edge.selected && edge.source !in selectedIds && edge.target !in selectedIds
  }

  /**
   * The nodes left after deleting: exactly the unselected ones, in their
   * original order.
   */
  function RemainingNodes(nodes: seq<FlowNode>): (r: seq<FlowNode>)
    ensures forall k :: 0 <= k < |r| ==> r[k] in nodes && !r[k].selected
    ensures forall k :: 0 <= k < |nodes| && !nodes[k].selected ==> nodes[k] in r
    ensures Subsequence(r, nodes)
    ensures forall k :: 0 <= k < |nodes| ==>
              multiset(r)[nodes[k]] == if nodes[k].selected then 0 else multiset(nodes)[nodes[k]]
  {
    Filter(nodes, Unselected)
  }

  /** An edge that is not selected and has no end at a selected node. */
  predicate Untouched(edge: FlowEdge, nodes: seq<FlowNode>) {
    !edge.selected &&
    forall i :: 0 <= i < |nodes| && nodes[i].selected ==>
      edge.source != nodes[i].id && edge.target != nodes[i].id
  }

  /**
   * The edges left after deleting: none is selected, none has an end at a
   * selected node, every other edge is kept, and the order is the original one.
   */
  function RemainingEdges(nodes: seq<FlowNode>, edges: seq<FlowEdge>): (r: seq<FlowEdge>)
    ensures forall k :: 0 <= k < |r| ==> r[k] in edges && !r[k].selected
    ensures forall k, i :: 0 <= k < |r| && 0 <= i < |nodes| && nodes[i].selected ==>
              r[k].source != nodes[i].id && r[k].target != nodes[i].id
    ensures forall k :: 0 <= k < |edges| && !edges[k].selected &&
              (forall i :: 0 <= i < |nodes| && nodes[i].selected ==>
                 edges[k].source != nodes[i].id && edges[k].target != nodes[i].id)
              ==> edges[k] in r
    ensures Subsequence(r, edges)
    ensures forall k :: 0 <= k < |edges| ==>
              multiset(r)[edges[k]] == if Untouched(edges[k], nodes) then multiset(edges)[edges[k]] else 0
  {
    var ids := SelectedNodeIds(nodes);
    var keep := (e: FlowEdge) => Survives(e, ids);
    var r := Filter(edges, keep);
    assert forall k :: 0 <= k < |r| ==> Survives(r[k], ids);
    assert forall k :: 0 <= k < |edges| ==> (Survives(edges[k], ids) <==> Untouched(edges[k], nodes));
    forall k | 0 <= k < |edges| && !edges[k].selected &&
               (forall i :: 0 <= i < |nodes| && nodes[i].selected ==>
                  edges[k].source != nodes[i].id && edges[k].target != nodes[i].id)
      ensures edges[k] in r
    {
      assert edges[k].source !in ids && edges[k].target !in ids;
    }
    r
  }

  /** Deleting again right after a deletion changes nothing. */
  lemma DeleteIsIdempotent(nodes: seq<FlowNode>, edges: seq<FlowEdge>)
    ensures RemainingNodes(RemainingNodes(nodes)) == RemainingNodes(nodes)
    ensures RemainingEdges(RemainingNodes(nodes), RemainingEdges(nodes, edges)) == RemainingEdges(nodes, edges)
  {
    var ns := RemainingNodes(nodes);
    FilterKeepsAll(ns, Unselected);
    var ids := SelectedNodeIds(ns);
    assert ids == [];
    var es := RemainingEdges(nodes, edges);
    FilterKeepsAll(es, (e: FlowEdge) => Survives(e, ids));
  }

  /** The canvas's node and edge lists, which the erase button replaces. */
  class FlowCanvas {
    var nodes: seq<FlowNode>
    var edges: seq<FlowEdge>

    constructor(nodes: seq<FlowNode>, edges: seq<FlowEdge>)
      ensures this.nodes == nodes && this.edges == edges
    {
      this.nodes := nodes;
      this.edges := edges;
    }

    /**
     * `handleDelete`: the node list is replaced by the unselected nodes only
     * when some node is selected; the edge list is always replaced by the
     * edges that survive the cascade.
     */
    method HandleDelete()
      modifies this
      ensures (exists k :: 0 <= k < |old(nodes)| && old(nodes)[k].selected) ==> nodes == RemainingNodes(old(nodes))
      ensures (forall k :: 0 <= k < |old(nodes)| ==> !old(nodes)[k].selected) ==> nodes == old(nodes)
      ensures edges == RemainingEdges(old(nodes), old(edges))
    {
      var selectedNodeIds := SelectedNodeIds(nodes);
      var remainingEdges := RemainingEdges(nodes, edges);
      if |selectedNodeIds| > 0 {
        nodes := RemainingNodes(nodes);
      }
      edges := remainingEdges;
    }
  }

  /** With nothing selected, the cascade keeps every edge. */
  lemma NothingSelectedKeepsEdges(nodes: seq<FlowNode>, edges: seq<FlowEdge>)
    requires forall k :: 0 <= k < |nodes| ==> !nodes[k].selected
    requires forall k :: 0 <= k < |edges| ==> !edges[k].selected
    ensures RemainingEdges(nodes, edges) == edges
  {
    var ids := SelectedNodeIds(nodes);
    assert ids == [];
    FilterKeepsAll(edges, (e: FlowEdge) => Survives(e, ids));
  }

  /** Deleting the middle node of `A -> B -> C` leaves `A`, `C` and no edge. */
  lemma DeleteMiddleOfChain(a: FlowNode, b: FlowNode, c: FlowNode, ab: FlowEdge, bc: FlowEdge)
    requires !a.selected && b.selected && !c.selected
    requires !ab.selected && !bc.selected
    requires ab.source == a.id && ab.target == b.id && bc.source == b.id && bc.target == c.id
    ensures RemainingNodes([a, b, c]) == [a, c]
    ensures RemainingEdges([a, b, c], [ab, bc]) == []
  {
    assert [a, b, c][1..] == [b, c];
    assert [b, c][1..] == [c];
    assert Filter([c], Unselected) == [c];
    assert Filter([b, c], Unselected) == [c];
  }

  // ---------------------------------------------------------------------------
  // Dropping a node
  // ---------------------------------------------------------------------------

  /** `getInitNodeData`: the new node's data `{id, nodeType}`. */
  function InitNodeData(nodeId: string, nodeType: string): (d: DataRecord)
    ensures d.Keys == {"id", "nodeType"}
    ensures Lookup(d, "id") == nodeId && Lookup(d, "nodeType") == nodeType
  {
    map["id" := nodeId, "nodeType" := nodeType]
  }

  /**
   * `onDrop`: the node handed to `addNode`, if any. `dragged` is the parsed
   * `application/reactflow` payload (`None` when the drag carries none),
   * `position` the projected drop point and `getNodeId` the store's id source.
   */
  function Drop(dragged: Option<DataRecord>, position: Position,
                getNodeId: string -> string): (r: Option<FlowNode>)
    ensures r.None? <==> dragged.None? || !Truthy(Lookup(dragged.value, "nodeType"))
    ensures r.Some? ==>
              var nodeType := Lookup(dragged.value, "nodeType");
              && r.value.id == getNodeId(nodeType)
              && r.value.nodeType == nodeType
              && r.value.position == position
              && r.value.data == InitNodeData(getNodeId(nodeType), nodeType)
              && !r.value.selected
  {
    match dragged
    case None => None
    case Some(appData) =>
      var nodeType := Lookup(appData, "nodeType");
      if !Truthy(nodeType) then None
      else
        var nodeId := getNodeId(nodeType);
        Some(FlowNode(nodeId, nodeType, position, InitNodeData(nodeId, nodeType), false))
  }
}
