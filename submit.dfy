/**
 * The submit button: the empty-pipeline guard, the request payload projected
 * from the canvas, and the toast that reports how the request went.
 */
module Submit {

  import opened Wrappers
  import opened Strings
  import opened Graph
  import Backend

  // ---------------------------------------------------------------------------
  // Toasts
  // ---------------------------------------------------------------------------

  datatype ToastKind = Error | Success | Disconnected

  datatype Toast = Toast(kind: ToastKind, message: string)

  const EmptyMessage := "Pipeline is Empty!\n\nPlease add some nodes before submitting."

  /** A single decimal digit. */
  function Digit(d: nat): (c: char)
    requires d < 10
    ensures '0' <= c <= '9' && c as int - '0' as int == d
  {
    "0123456789"[d]
  }

  /** A natural number as a template literal prints it: decimal, no leading zero. */
  function DecimalString(n: nat): (s: string)
    ensures |s| >= 1 && (s[0] == '0' ==> n == 0)
    ensures forall k :: 0 <= k < |s| ==> '0' <= s[k] <= '9'
  {
    if n < 10 then [Digit(n)] else DecimalString(n / 10) + [Digit(n % 10)]
  }

  /** The number a string of decimal digits denotes. */
  function DecimalValue(s: string): nat
    requires forall k :: 0 <= k < |s| ==> '0' <= s[k] <= '9'
  {
    if s == [] then 0
    else DecimalValue(s[..|s| - 1]) * 10 + (s[|s| - 1] as int - '0' as int)
  }

  /** Printing a count and reading it back gives the count. */
  lemma {:induction false} DecimalRoundTrip(n: nat)
    ensures DecimalValue(DecimalString(n)) == n
  {
    if n >= 10 {
      DecimalRoundTrip(n / 10);
      var s := DecimalString(n);
      assert s[..|s| - 1] == DecimalString(n / 10);
    }
  }

  /** `is_dag` as the success message shows it. */
  function YesNo(b: bool): string {
    if b then "Yes" else "No"
  }

  /** The opening of the success toast's text, up to the node count. */
  const SuccessHead := "Pipeline Submitted Successfully!\n\nNodes: "

  /** What separates the node count from the edge count. */
  const EdgesLabel := " | Edges: "

  /** `r[from..to]` is a run of decimal digits that denotes `n`. */
  predicate ShowsCount(r: string, from: nat, to: nat, n: nat) {
    from <= to <= |r| &&
    (forall k :: from <= k < to ==> '0' <= r[k] <= '9') &&
    DecimalValue(r[from..to]) == n
  }

  /**
   * In `head + ${n} + sep + ${m} + tail` each count can be read back from where
   * it was printed, with the separator between them and the tail last.
   */
  lemma {:induction false} TwoCountsReadBack(head: string, n: nat, sep: string, m: nat, tail: string)
    ensures var r := head + DecimalString(n) + sep + DecimalString(m) + tail;
            var a := |head| + |DecimalString(n)|;
            var b := a + |sep| + |DecimalString(m)|;
            && IsPrefix(head, r)
            && ShowsCount(r, |head|, a, n)
            && a + |sep| <= |r| && r[a..a + |sep|] == sep
            && ShowsCount(r, a + |sep|, b, m)
            && r[b..] == tail
  {
    var r := head + DecimalString(n) + sep + DecimalString(m) + tail;
    FiveSegments(head, DecimalString(n), sep, DecimalString(m), tail);
    DigitsReadBack(r, |head|, n);
    DigitsReadBack(r, |head| + |DecimalString(n)| + |sep|, m);
  }

  /** Each piece of a five-piece concatenation can be sliced back out of it. */
  lemma FiveSegments(s1: string, s2: string, s3: string, s4: string, s5: string)
    ensures var r := s1 + s2 + s3 + s4 + s5;
            var a, b, c, d := |s1|, |s1| + |s2|, |s1| + |s2| + |s3|, |s1| + |s2| + |s3| + |s4|;
            && |r| == d + |s5|
            && r[..a] == s1 && r[a..b] == s2 && r[b..c] == s3 && r[c..d] == s4 && r[d..] == s5
  {
  }

  /** Where a string holds the decimal text of `n`, it shows the count `n`. */
  lemma DigitsReadBack(r: string, from: nat, n: nat)
    requires from + |DecimalString(n)| <= |r| && r[from..from + |DecimalString(n)|] == DecimalString(n)
    ensures ShowsCount(r, from, from + |DecimalString(n)|, n)
  {
    DecimalRoundTrip(n);
  }

  /** The success toast's text: the two counts, then whether the graph is a DAG. */
  function SuccessMessage(numNodes: nat, numEdges: nat, isDag: bool): (r: string)
    ensures IsPrefix(SuccessHead, r)
    ensures var a := |SuccessHead| + |DecimalString(numNodes)|;
            var b := a + |EdgesLabel| + |DecimalString(numEdges)|;
            && ShowsCount(r, |SuccessHead|, a, numNodes)
            && a + |EdgesLabel| <= |r| && r[a..a + |EdgesLabel|] == EdgesLabel
            && ShowsCount(r, a + |EdgesLabel|, b, numEdges)
            && r[b..] == " | DAG: " + YesNo(isDag)
  {
    var tail := " | DAG: " + YesNo(isDag);
    TwoCountsReadBack(SuccessHead, numNodes, EdgesLabel, numEdges, tail);
    SuccessHead + DecimalString(numNodes) + EdgesLabel + DecimalString(numEdges) + tail
  }

  /** The disconnected toast's text, which quotes the reason it is given. */
  function UnavailableMessage(reason: string): (r: string)
    ensures IsPrefix("Backend Unavailable", r)
    ensures |r| >= 21 + |reason| && r[21..21 + |reason|] == reason
  {
    "Backend Unavailable\n\n" + reason +
    "\n\nPlease make sure the backend server is running on http://localhost:8000"
  }

  /** The message of the error thrown for a non-ok status. */
  function HttpErrorReason(status: nat): (r: string)
    ensures IsPrefix("HTTP error! status: ", r)
    ensures forall k :: 20 <= k < |r| ==> '0' <= r[k] <= '9'
    ensures DecimalValue(r[20..]) == status
  {
    DecimalRoundTrip(status);
    assert ("HTTP error! status: " + DecimalString(status))[20..] == DecimalString(status);
    "HTTP error! status: " + DecimalString(status)
  }

  // ---------------------------------------------------------------------------
  // The request and its outcome
  // ---------------------------------------------------------------------------

  /** The fields of a canvas node that travel to the backend. */
  function ProjectNode(node: FlowNode): (d: NodeData)
    ensures d.id == node.id && d.nodeType == node.nodeType
    ensures d.position == node.position && d.data == node.data
  {
    NodeData(node.id, node.nodeType, node.position, node.data)
  }

  /** The fields of a canvas edge that travel to the backend. */
  function ProjectEdge(edge: FlowEdge): (d: EdgeData)
    ensures d.id == edge.id && d.source == edge.source && d.target == edge.target
    ensures d.sourceHandle == edge.sourceHandle && d.targetHandle == edge.targetHandle
  {
    EdgeData(edge.id, edge.source, edge.target, edge.sourceHandle, edge.targetHandle)
  }

  /** `pipelineData`: every node and every edge, in order, each projected. */
  function BuildPayload(nodes: seq<FlowNode>, edges: seq<FlowEdge>): (p: PipelineData)
    ensures |p.nodes| == |nodes| && |p.edges| == |edges|
    ensures forall k :: 0 <= k < |nodes| ==> p.nodes[k] == ProjectNode(nodes[k])
    ensures forall k :: 0 <= k < |edges| ==> p.edges[k] == ProjectEdge(edges[k])
  {
    PipelineData(seq(|nodes|, k requires 0 <= k < |nodes| => ProjectNode(nodes[k])),
                 seq(|edges|, k requires 0 <= k < |edges| => ProjectEdge(edges[k])))
  }

  /** The payload forgets the canvas's selection: it is the same whatever is selected. */
  lemma PayloadIgnoresSelection(nodes: seq<FlowNode>, edges: seq<FlowEdge>,
                                nodes': seq<FlowNode>, edges': seq<FlowEdge>)
    requires |nodes| == |nodes'| && |edges| == |edges'|
    requires forall k :: 0 <= k < |nodes| ==> nodes'[k] == nodes[k].(selected := nodes'[k].selected)
    requires forall k :: 0 <= k < |edges| ==> edges'[k] == edges[k].(selected := edges'[k].selected)
    ensures BuildPayload(nodes, edges) == BuildPayload(nodes', edges')
  {
    assert BuildPayload(nodes, edges).nodes == BuildPayload(nodes', edges').nodes;
    assert BuildPayload(nodes, edges).edges == BuildPayload(nodes', edges').edges;
  }

  /** The JSON body of an ok response, or the reason `response.json()` rejected it. */
  datatype Body = Parsed(numNodes: nat, numEdges: nat, isDag: bool) | Malformed(reason: string)

  /** What `fetch` produced: a rejection with its message, or an HTTP response. */
  datatype FetchOutcome =
    | TransportError(reason: string)
    | Answered(ok: bool, status: nat, body: Body)

  /**
   * The toast for a request that was sent. A success only for an ok response
   * whose body parsed, reporting its counts and verdict; every other outcome,
   * a non-ok status included, is reported as disconnected, never as an error.
   */
  function Classify(outcome: FetchOutcome): (t: Toast)
    ensures t.kind != Error
    ensures t.kind == Success <==> outcome.Answered? && outcome.ok && outcome.body.Parsed?
    ensures t.kind == Success ==>
              t.message == SuccessMessage(outcome.body.numNodes, outcome.body.numEdges, outcome.body.isDag)
    ensures outcome.TransportError? ==> t.message == UnavailableMessage(outcome.reason)
    ensures outcome.Answered? && !outcome.ok ==> t.message == UnavailableMessage(HttpErrorReason(outcome.status))
    ensures outcome.Answered? && outcome.ok && outcome.body.Malformed? ==>
              t.message == UnavailableMessage(outcome.body.reason)
  {
    match outcome
    case TransportError(reason) => Toast(Disconnected, UnavailableMessage(reason))
    case Answered(ok, status, body) =>
      if !ok then Toast(Disconnected, UnavailableMessage(HttpErrorReason(status)))
      else match body
        case Malformed(reason) => Toast(Disconnected, UnavailableMessage(reason))
        case Parsed(n, e, dag) => Toast(Success, SuccessMessage(n, e, dag))
  }

  /**
   * A non-ok status and a transport failure carrying the same message are
   * indistinguishable to the user.
   */
  lemma HttpErrorLooksLikeTransportError(status: nat, body: Body)
    ensures Classify(Answered(false, status, body)) == Classify(TransportError(HttpErrorReason(status)))
  {
  }

  /** The button and the toast it currently shows. */
  class SubmitButton {
    var toast: Option<Toast>

    constructor()
      ensures toast == None
    {
      toast := None;
    }

    /**
     * `handleSubmit`. `server` stands for the HTTP round trip. An empty canvas
     * shows the error toast and sends nothing; otherwise the projected payload
     * is sent and the toast reports the outcome.
     */
    method HandleSubmit(nodes: seq<FlowNode>, edges: seq<FlowEdge>,
                        server: PipelineData -> FetchOutcome)
      returns (request: Option<PipelineData>)
      modifies this
      ensures |nodes| == 0 <==> request.None?
      ensures |nodes| == 0 ==> toast == Some(Toast(Error, EmptyMessage))
      ensures |nodes| > 0 ==> request == Some(BuildPayload(nodes, edges))
      ensures |nodes| > 0 ==> toast == Some(Classify(server(request.value)))
    {
      if |nodes| == 0 {
        toast := Some(Toast(Error, EmptyMessage));
        return None;
      }
      var pipelineData := BuildPayload(nodes, edges);
      var outcome := server(pipelineData);
      toast := Some(Classify(outcome));
      request := Some(pipelineData);
    }
  }

  /**
   * When the backend answers with the report `parse_pipeline` computes for the
   * payload, the success toast shows the canvas's node and edge counts, and
   * "Yes" exactly when the submitted graph has no directed cycle.
   */
  lemma SuccessReportsBackendVerdict(nodes: seq<FlowNode>, edges: seq<FlowEdge>, r: Backend.ParseResult)
    requires r.numNodes == |BuildPayload(nodes, edges).nodes|
    requires r.numEdges == |BuildPayload(nodes, edges).edges|
    requires r.isDag <==> !Backend.HasDirectedCycle(BuildPayload(nodes, edges).nodes, BuildPayload(nodes, edges).edges)
    ensures Classify(Answered(true, 200, Parsed(r.numNodes, r.numEdges, r.isDag))) ==
            Toast(Success, SuccessMessage(|nodes|, |edges|,
                  !Backend.HasDirectedCycle(BuildPayload(nodes, edges).nodes, BuildPayload(nodes, edges).edges)))
  {
  }
}
