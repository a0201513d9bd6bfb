/**
 * The backend's structural report on a submitted pipeline: node and edge counts
 * and whether the graph is a directed acyclic graph (`is_dag`, `parse_pipeline`).
 */
module Backend {

  import opened Graph
  import opened Sequences

  // ---------------------------------------------------------------------------
  // The graph `is_dag` decides about
  // ---------------------------------------------------------------------------

  /** The declared node ids; a repeated id is one key of the adjacency dictionary. */
  ghost function NodeIds(nodes: seq<NodeData>): set<string> {
    set n | n in nodes :: n.id
  }

  /**
   * `u -> v` is an edge of the checked graph when some edge record runs from `u`
   * to `v` and `u` is a declared node; records whose source is not declared are
   * ignored, records whose target is not declared are kept.
   */
  ghost predicate Edge(nodes: seq<NodeData>, edges: seq<EdgeData>, u: string, v: string) {
    u in NodeIds(nodes) &&
    exists i :: 0 <= i < |edges| && edges[i].source == u && edges[i].target == v
  }

  /** `c` is a closed walk of at least one edge: a directed cycle. */
  ghost predicate IsCycle(nodes: seq<NodeData>, edges: seq<EdgeData>, c: seq<string>) {
    |c| >= 2 && c[0] == c[|c| - 1] &&
    forall k :: 0 <= k < |c| - 1 ==> Edge(nodes, edges, c[k], c[k + 1])
  }

  ghost predicate HasDirectedCycle(nodes: seq<NodeData>, edges: seq<EdgeData>) {
    exists c :: IsCycle(nodes, edges, c)
  }

  // ---------------------------------------------------------------------------
  // The adjacency dictionary
  // ---------------------------------------------------------------------------

  /** `adjacency_list`: declared id -> targets of its outgoing edge records, in order. */
  type Adjacency = map<string, seq<string>>

  /** `adjacency_list.get(node_id, [])`. */
  function Neighbours(adjacency: Adjacency, u: string): (r: seq<string>)
    ensures u in adjacency ==> r == adjacency[u]
    ensures u !in adjacency ==> r == []
  {
    if u in adjacency then adjacency[u] else []
  }

  /** The targets of the edge records whose source is `u`. */
  function TargetsOf(edges: seq<EdgeData>, u: string): (r: seq<string>)
    ensures forall v :: v in r <==>
              exists i :: 0 <= i < |edges| && edges[i].source == u && edges[i].target == v
  {
    if edges == [] then []
    else
      var init, last := edges[..|edges| - 1], edges[|edges| - 1];
      assert forall i :: 0 <= i < |init| ==> init[i] == edges[i];
      TargetsOf(init, u) + (if last.source == u then [last.target] else [])
  }

  /** The node ids in list order, repeats included. */
  function IdList(nodes: seq<NodeData>): (r: seq<string>)
    ensures |r| == |nodes| && forall i :: 0 <= i < |nodes| ==> r[i] == nodes[i].id
  {
    seq(|nodes|, i requires 0 <= i < |nodes| => nodes[i].id)
  }

  /** The dictionary's key order: each id once, where it first occurs. */
  function KeyOrder(nodes: seq<NodeData>): seq<string> {
    Dedup(IdList(nodes))
  }

  /** Declaring one more node adds its id to the keys, and to the key order unless it is a repeat. */
  lemma KeyOrderStep(nodes: seq<NodeData>, i: nat)
    requires i < |nodes|
    ensures NodeIds(nodes[..i + 1]) == NodeIds(nodes[..i]) + {nodes[i].id}
    ensures Dedup(IdList(nodes)[..i + 1]) ==
              if nodes[i].id in NodeIds(nodes[..i]) then Dedup(IdList(nodes)[..i])
              else Dedup(IdList(nodes)[..i]) + [nodes[i].id]
  {
    var ids := IdList(nodes);
    assert ids[..i + 1] == ids[..i] + [nodes[i].id];
    assert ids[..i + 1][..i] == ids[..i];
    assert nodes[..i + 1] == nodes[..i] + [nodes[i]];
    DedupMembers(ids[..i]);
    if nodes[i].id in NodeIds(nodes[..i]) {
      var n :| n in nodes[..i] && n.id == nodes[i].id;
      var j :| 0 <= j < i && nodes[..i][j] == n;
      assert ids[..i][j] == nodes[i].id;
    } else {
      forall j | 0 <= j < i ensures ids[..i][j] != nodes[i].id {
        assert nodes[j] in nodes[..i];
      }
    }
  }

  /**
   * Builds `adjacency_list`: one empty list per declared id, then each edge whose
   * source is declared appends its target to its source's list.
   * `order` is the dictionary's key order.
   */
  method BuildAdjacency(nodes: seq<NodeData>, edges: seq<EdgeData>)
    returns (adjacency: Adjacency, order: seq<string>)
    ensures adjacency.Keys == NodeIds(nodes)
    ensures forall u :: u in adjacency ==> adjacency[u] == TargetsOf(edges, u)
    ensures order == KeyOrder(nodes)
  {
    adjacency, order := map[], [];
    var i := 0;
    while i < |nodes|
      invariant 0 <= i <= |nodes|
      invariant adjacency.Keys == NodeIds(nodes[..i])
      invariant forall u :: u in adjacency ==> adjacency[u] == []
      invariant order == Dedup(IdList(nodes)[..i])
    {
      KeyOrderStep(nodes, i);
      if nodes[i].id !in adjacency {
        order := order + [nodes[i].id];
      }
      adjacency := adjacency[nodes[i].id := []];
      i := i + 1;
    }
    assert nodes[..i] == nodes;
    assert IdList(nodes)[..i] == IdList(nodes);
    var j := 0;
    while j < |edges|
      invariant 0 <= j <= |edges|
      invariant adjacency.Keys == NodeIds(nodes)
      invariant forall u :: u in adjacency ==> adjacency[u] == TargetsOf(edges[..j], u)
    {
      assert edges[..j + 1][..j] == edges[..j];
      var edge := edges[j];
      if edge.source in adjacency {
        adjacency := adjacency[edge.source := adjacency[edge.source] + [edge.target]];
      }
      j := j + 1;
    }
    assert edges[..j] == edges;
  }

  // ---------------------------------------------------------------------------
  // Walks and cycles over the adjacency dictionary
  // ---------------------------------------------------------------------------

  ghost predicate Step(adjacency: Adjacency, u: string, v: string) {
    u in adjacency && v in adjacency[u]
  }

  /** Consecutive elements of `w` are joined by adjacency entries. */
  ghost predicate IsWalk(adjacency: Adjacency, w: seq<string>) {
    forall k :: 0 <= k < |w| - 1 ==> Step(adjacency, w[k], w[k + 1])
  }

  ghost predicate HasAdjacencyCycle(adjacency: Adjacency) {
    exists c :: |c| >= 2 && c[0] == c[|c| - 1] && IsWalk(adjacency, c)
  }

  ghost function Elems(s: seq<string>): set<string> {
    set x | x in s
  }

  /** Every key and every listed neighbour lies in `universe`. */
  ghost predicate ClosedIn(adjacency: Adjacency, universe: set<string>) {
    adjacency.Keys <= universe &&
    forall u, v :: u in adjacency && v in adjacency[u] ==> v in universe
  }

  /**
   * `rank` numbers fully explored ids so that every neighbour of a ranked id is
   * ranked lower: the finishing order of the search.
   */
  ghost predicate Ranked(adjacency: Adjacency, rank: map<string, nat>) {
    forall x, y :: x in rank && y in Neighbours(adjacency, x) ==> y in rank && rank[y] < rank[x]
  }

  lemma WalkExtend(adjacency: Adjacency, w: seq<string>, v: string)
    requires |w| >= 1 && IsWalk(adjacency, w) && Step(adjacency, w[|w| - 1], v)
    ensures IsWalk(adjacency, w + [v])
  {
    var w' := w + [v];
    forall k | 0 <= k < |w'| - 1 ensures Step(adjacency, w'[k], w'[k + 1]) {
      if k < |w| - 1 {
        assert w'[k] == w[k] && w'[k + 1] == w[k + 1];
      }
    }
  }

  /** An adjacency entry from the end of a walk back onto the walk closes a cycle. */
  lemma BackEdgeCloses(adjacency: Adjacency, w: seq<string>, v: string)
    requires |w| >= 1 && IsWalk(adjacency, w) && v in w && Step(adjacency, w[|w| - 1], v)
    ensures HasAdjacencyCycle(adjacency)
  {
    var k :| 0 <= k < |w| && w[k] == v;
    var c := w[k..] + [v];
    forall j | 0 <= j < |c| - 1 ensures Step(adjacency, c[j], c[j + 1]) {
      if j < |w| - k - 1 {
        assert c[j] == w[k + j] && c[j + 1] == w[k + j + 1];
      }
    }
    assert |c| >= 2 && c[0] == c[|c| - 1] && IsWalk(adjacency, c);
  }

  /** Along a walk that starts at a ranked id, ranks strictly decrease. */
  lemma {:induction false} RankDecreasesAlongWalk(adjacency: Adjacency, rank: map<string, nat>,
                                                  w: seq<string>, k: nat)
    requires Ranked(adjacency, rank) && IsWalk(adjacency, w)
    requires 1 <= k < |w| && w[0] in rank
    ensures w[k] in rank && rank[w[k]] < rank[w[0]]
  {
    assert Step(adjacency, w[k - 1], w[k]);
    if k > 1 {
      RankDecreasesAlongWalk(adjacency, rank, w, k - 1);
    }
    assert w[k] in Neighbours(adjacency, w[k - 1]);
  }

  /** A ranking that covers every declared id rules out every cycle. */
  lemma RankingExcludesCycles(adjacency: Adjacency, rank: map<string, nat>)
    requires Ranked(adjacency, rank) && adjacency.Keys <= rank.Keys
    ensures !HasAdjacencyCycle(adjacency)
  {
    if HasAdjacencyCycle(adjacency) {
      var c :| |c| >= 2 && c[0] == c[|c| - 1] && IsWalk(adjacency, c);
      assert Step(adjacency, c[0], c[1]);
      RankDecreasesAlongWalk(adjacency, rank, c, |c| - 1);
      assert false;
    }
  }

  /** Over the dictionary `BuildAdjacency` returns, walks are exactly paths of the checked graph. */
  lemma AdjacencyCyclesAreGraphCycles(nodes: seq<NodeData>, edges: seq<EdgeData>, adjacency: Adjacency)
    requires adjacency.Keys == NodeIds(nodes)
    requires forall u :: u in adjacency ==> adjacency[u] == TargetsOf(edges, u)
    ensures HasAdjacencyCycle(adjacency) <==> HasDirectedCycle(nodes, edges)
  {
    forall u, v ensures Step(adjacency, u, v) <==> Edge(nodes, edges, u, v) {
    }
    if HasAdjacencyCycle(adjacency) {
      var c :| |c| >= 2 && c[0] == c[|c| - 1] && IsWalk(adjacency, c);
      assert IsCycle(nodes, edges, c);
    }
    if HasDirectedCycle(nodes, edges) {
      var c :| IsCycle(nodes, edges, c);
      assert IsWalk(adjacency, c);
    }
  }

  // ---------------------------------------------------------------------------
  // The depth-first search
  // ---------------------------------------------------------------------------

  /**
   * The search state's invariant: visited ids lie in the universe, the stack is
   * visited, the finished ids (visited, off the stack) are exactly the ranked
   * ones, their numbers are below the clock and they rank below their neighbours.
   */
  ghost predicate SearchInvariant(adjacency: Adjacency, universe: set<string>, visited: set<string>,
                                  stack: set<string>, rank: map<string, nat>, clock: nat)
  {
    && ClosedIn(adjacency, universe)
    && visited <= universe
    && stack <= visited
    && rank.Keys == visited - stack
    && (forall x :: x in rank ==> rank[x] < clock)
    && Ranked(adjacency, rank)
  }

  /**
   * Taking a finished id off the stack with the next finishing number keeps the
   * invariant: its neighbours all finished earlier.
   */
  lemma FinishKeepsInvariant(adjacency: Adjacency, universe: set<string>, visited: set<string>,
                             stack: set<string>, rank: map<string, nat>, clock: nat, u: string)
    requires SearchInvariant(adjacency, universe, visited, stack, rank, clock)
    requires u in stack
    requires forall j :: 0 <= j < |Neighbours(adjacency, u)| ==> Neighbours(adjacency, u)[j] in rank
    ensures SearchInvariant(adjacency, universe, visited, stack - {u}, rank[u := clock], clock + 1)
  {
    var rank' := rank[u := clock];
    forall x, y | x in rank' && y in Neighbours(adjacency, x)
      ensures y in rank' && rank'[y] < rank'[x]
    {
      if x == u {
        var j :| 0 <= j < |Neighbours(adjacency, u)| && Neighbours(adjacency, u)[j] == y;
      }
    }
  }

  class CycleSearch {
    const adjacency: Adjacency
    /** Every id the search can reach: the declared ids and every edge target. */
    ghost const universe: set<string>
    var visited: set<string>
    var recursionStack: set<string>
    /** Finishing number of every id fully explored without finding a cycle. */
    ghost var rank: map<string, nat>
    ghost var clock: nat

    ghost predicate Valid()
      reads this
    {
      SearchInvariant(adjacency, universe, visited, recursionStack, rank, clock)
    }

    constructor (adjacency: Adjacency, ghost universe: set<string>)
      requires ClosedIn(adjacency, universe)
      ensures Valid()
      ensures this.adjacency == adjacency && this.universe == universe
      ensures visited == {} && recursionStack == {}
    {
      this.adjacency := adjacency;
      this.universe := universe;
      visited, recursionStack := {}, {};
      rank, clock := map[], 0;
    }

    /**
     * `has_cycle(node_id)`: marks `nodeId` visited and on the stack, explores its
     * neighbours in order, and reports a cycle on reaching an id still on the stack.
     * `path` is the stack in call order, ending at the caller.
     */
    method HasCycle(nodeId: string, ghost path: seq<string>) returns (found: bool)
      requires Valid()
      requires nodeId in universe && nodeId !in visited
      requires recursionStack == Elems(path)
      requires IsWalk(adjacency, path + [nodeId])
      modifies this
      decreases universe - visited
      ensures old(visited) + {nodeId} <= visited
      ensures found ==> HasAdjacencyCycle(adjacency)
      ensures !found ==> Valid() && recursionStack == old(recursionStack)
      ensures !found ==> old(rank).Keys <= rank.Keys
    {
      visited := visited + {nodeId};
      recursionStack := recursionStack + {nodeId};
      ghost var walk := path + [nodeId];
      assert Elems(walk) == Elems(path) + {nodeId};
      assert recursionStack == Elems(walk);
      var neighbours := Neighbours(adjacency, nodeId);
      var i := 0;
      while i < |neighbours|
        invariant 0 <= i <= |neighbours|
        invariant Valid()
        invariant recursionStack == Elems(walk)
        invariant old(visited) + {nodeId} <= visited
        invariant old(rank).Keys <= rank.Keys
        invariant forall j :: 0 <= j < i ==> neighbours[j] in rank
      {
        var neighbour := neighbours[i];
        assert Step(adjacency, nodeId, neighbour);
        if neighbour !in visited {
          WalkExtend(adjacency, walk, neighbour);
          var cycle := HasCycle(neighbour, walk);
          if cycle {
            return true;
          }
        } else if neighbour in recursionStack {
          BackEdgeCloses(adjacency, walk, neighbour);
          return true;
        }
        i := i + 1;
      }
      FinishKeepsInvariant(adjacency, universe, visited, recursionStack, rank, clock, nodeId);
      assert recursionStack - {nodeId} == old(recursionStack) by {
        assert nodeId !in old(recursionStack);
        assert Elems(walk) == Elems(path) + {nodeId};
      }
      recursionStack := recursionStack - {nodeId};
      rank := rank[nodeId := clock];
      clock := clock + 1;
      return false;
    }
  }

  /** Every id the search can reach: the declared ids and every edge target. */
  ghost function Universe(nodes: seq<NodeData>, edges: seq<EdgeData>): set<string> {
    NodeIds(nodes) + (set e | e in edges :: e.target)
  }

  lemma UniverseCloses(nodes: seq<NodeData>, edges: seq<EdgeData>, adjacency: Adjacency)
    requires adjacency.Keys == NodeIds(nodes)
    requires forall u :: u in adjacency ==> adjacency[u] == TargetsOf(edges, u)
    ensures ClosedIn(adjacency, Universe(nodes, edges))
  {
    forall u, v | u in adjacency && v in adjacency[u] ensures v in Universe(nodes, edges) {
      var i :| 0 <= i < |edges| && edges[i].source == u && edges[i].target == v;
      assert edges[i] in edges;
    }
  }

  /** The dictionary's key order lists exactly the declared ids. */
  lemma KeyOrderMembers(nodes: seq<NodeData>)
    ensures forall u :: u in KeyOrder(nodes) <==> u in NodeIds(nodes)
  {
    DedupMembers(IdList(nodes));
    forall u ensures u in IdList(nodes) <==> u in NodeIds(nodes) {
      if u in NodeIds(nodes) {
        var n :| n in nodes && n.id == u;
        var k :| 0 <= k < |nodes| && nodes[k] == n;
        assert IdList(nodes)[k] == u;
      }
      if u in IdList(nodes) {
        var k :| 0 <= k < |nodes| && IdList(nodes)[k] == u;
        assert nodes[k] in nodes;
      }
    }
  }

  /**
   * `is_dag(nodes, edges)`: searches from every declared id not yet visited, in
   * dictionary order, and answers False as soon as a search finds a cycle.
   */
  method IsDag(nodes: seq<NodeData>, edges: seq<EdgeData>) returns (result: bool)
    ensures result <==> !HasDirectedCycle(nodes, edges)
  {
    var adjacency, order := BuildAdjacency(nodes, edges);
    KeyOrderMembers(nodes);
    UniverseCloses(nodes, edges, adjacency);
    var search := new CycleSearch(adjacency, Universe(nodes, edges));
    var i := 0;
    while i < |order|
      invariant 0 <= i <= |order|
      invariant search.Valid() && search.recursionStack == {}
      invariant search.adjacency == adjacency
      invariant forall j :: 0 <= j < i ==> order[j] in search.visited
    {
      var nodeId := order[i];
      if nodeId !in search.visited {
        assert search.recursionStack == Elems([]);
        var found := search.HasCycle(nodeId, []);
        if found {
          AdjacencyCyclesAreGraphCycles(nodes, edges, adjacency);
          return false;
        }
      }
      assert nodeId in search.visited;
      i := i + 1;
    }
    assert adjacency.Keys <= search.rank.Keys by {
      forall u | u in adjacency ensures u in search.visited {
        var j :| 0 <= j < |order| && order[j] == u;
      }
    }
    RankingExcludesCycles(adjacency, search.rank);
    AdjacencyCyclesAreGraphCycles(nodes, edges, adjacency);
    return true;
  }

  // ---------------------------------------------------------------------------
  // Properties of the verdict
  // ---------------------------------------------------------------------------

  /** A declared node with an edge to itself makes the graph cyclic. */
  lemma SelfLoopIsCycle(nodes: seq<NodeData>, edges: seq<EdgeData>, i: nat)
    requires i < |edges| && edges[i].source == edges[i].target
    requires edges[i].source in NodeIds(nodes)
    ensures HasDirectedCycle(nodes, edges)
  {
    var u := edges[i].source;
    assert IsCycle(nodes, edges, [u, u]);
  }

  /** With no nodes there is no edge to follow, so the graph is acyclic. */
  lemma NoNodesNoCycle(edges: seq<EdgeData>)
    ensures !HasDirectedCycle([], edges)
  {
    assert NodeIds([]) == {};
    forall c: seq<string> | |c| >= 2 ensures !IsCycle([], edges, c) {
      assert !Edge([], edges, c[0], c[1]);
    }
  }

  /**
   * Every id on a cycle is a declared node, so an edge whose target is not
   * declared never lies on a cycle.
   */
  lemma CycleVerticesAreDeclared(nodes: seq<NodeData>, edges: seq<EdgeData>, c: seq<string>)
    requires IsCycle(nodes, edges, c)
    ensures forall k :: 0 <= k < |c| ==> c[k] in NodeIds(nodes)
  {
    forall k | 0 <= k < |c| ensures c[k] in NodeIds(nodes) {
      if k < |c| - 1 {
        assert Edge(nodes, edges, c[k], c[k + 1]);
      } else {
        assert Edge(nodes, edges, c[0], c[1]);
      }
    }
  }

  /** The (source, target) pairs the edge records describe. */
  ghost function EdgePairs(edges: seq<EdgeData>): set<(string, string)> {
    set e | e in edges :: (e.source, e.target)
  }

  /**
   * The verdict depends only on the set of declared ids and on the set of
   * (source, target) pairs: reordering or repeating nodes or edges, or changing
   * edge ids and handles, never changes it.
   */
  lemma VerdictDependsOnlyOnStructure(nodes: seq<NodeData>, edges: seq<EdgeData>,
                                      nodes': seq<NodeData>, edges': seq<EdgeData>)
    requires NodeIds(nodes) == NodeIds(nodes') && EdgePairs(edges) == EdgePairs(edges')
    ensures HasDirectedCycle(nodes, edges) <==> HasDirectedCycle(nodes', edges')
  {
    EdgesFromPairs(nodes, edges, nodes', edges');
    EdgesFromPairs(nodes', edges', nodes, edges);
    if HasDirectedCycle(nodes, edges) {
      var c :| IsCycle(nodes, edges, c);
      assert IsCycle(nodes', edges', c);
    }
    if HasDirectedCycle(nodes', edges') {
      var c :| IsCycle(nodes', edges', c);
      assert IsCycle(nodes, edges, c);
    }
  }

  lemma EdgesFromPairs(nodes: seq<NodeData>, edges: seq<EdgeData>,
                       nodes': seq<NodeData>, edges': seq<EdgeData>)
    requires NodeIds(nodes) == NodeIds(nodes') && EdgePairs(edges) <= EdgePairs(edges')
    ensures forall u, v :: Edge(nodes, edges, u, v) ==> Edge(nodes', edges', u, v)
  {
    forall u, v | Edge(nodes, edges, u, v) ensures Edge(nodes', edges', u, v) {
      var i :| 0 <= i < |edges| && edges[i].source == u && edges[i].target == v;
      assert edges[i] in edges;
      assert (u, v) in EdgePairs(edges');
      var e :| e in edges' && (e.source, e.target) == (u, v);
      var j :| 0 <= j < |edges'| && edges'[j] == e;
    }
  }

  /**
   * An edge from the last id of a path back to its first declared id closes a
   * cycle: a graph that was acyclic stops being so.
   */
  lemma ClosingEdgeMakesCycle(nodes: seq<NodeData>, edges: seq<EdgeData>,
                              w: seq<string>, e: EdgeData)
    requires |w| >= 1 && w[|w| - 1] in NodeIds(nodes)
    requires forall k :: 0 <= k < |w| - 1 ==> Edge(nodes, edges, w[k], w[k + 1])
    requires e.source == w[|w| - 1] && e.target == w[0]
    ensures HasDirectedCycle(nodes, edges + [e])
  {
    var edges' := edges + [e];
    var c := w + [w[0]];
    forall k | 0 <= k < |c| - 1 ensures Edge(nodes, edges', c[k], c[k + 1]) {
      if k < |w| - 1 {
        assert c[k] == w[k] && c[k + 1] == w[k + 1];
        assert Edge(nodes, edges, w[k], w[k + 1]);
        var i :| 0 <= i < |edges| && edges[i].source == w[k] && edges[i].target == w[k + 1];
        assert edges'[i] == edges[i];
      } else {
        assert edges'[|edges|] == e;
      }
    }
    assert IsCycle(nodes, edges', c);
  }

  /** The response of `POST /pipelines/parse`. */
  datatype ParseResult = ParseResult(numNodes: nat, numEdges: nat, isDag: bool, status: string)

  /** `parse_pipeline`: counts as `len` does, duplicates included, and the DAG verdict. */
  method ParsePipeline(pipeline: PipelineData) returns (r: ParseResult)
    ensures r.numNodes == |pipeline.nodes| && r.numEdges == |pipeline.edges|
    ensures r.isDag <==> !HasDirectedCycle(pipeline.nodes, pipeline.edges)
    ensures r.status == "parsed"
  {
    var dag := IsDag(pipeline.nodes, pipeline.edges);
    r := ParseResult(|pipeline.nodes|, |pipeline.edges|, dag, "parsed");
  }
}
