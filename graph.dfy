/**
 * The records the pipeline is made of, as the canvas holds them and as they
 * travel to the backend.
 */
module Graph {

  import opened Wrappers

  /** A canvas position `{x, y}`; its coordinates are only carried, never computed with. */
  datatype Position = Position(x: real, y: real)

  /**
   * A node's `data` object. Values are strings; a key that is absent stands for
   * `undefined`, which is falsy like the empty string.
   */
  type DataRecord = map<string, string>

  /** `data?.[key]` read as a string: `""` when the key is absent. */
  function Lookup(data: DataRecord, key: string): (v: string)
    ensures key !in data ==> v == ""
    ensures key in data ==> v == data[key]
  {
    if key in data then data[key] else ""
  }

  /** A node as the canvas holds it, with the canvas's selection flag. */
  datatype FlowNode = FlowNode(id: string, nodeType: string, position: Position,
                               data: DataRecord, selected: bool)

  /** An edge as the canvas holds it; `sourceHandle`/`targetHandle` may be `null`. */
  datatype FlowEdge = FlowEdge(id: string, source: string, target: string,
                               sourceHandle: Option<string>, targetHandle: Option<string>,
                               selected: bool)

  /** A node of the submitted pipeline (`NodeData` of the backend). */
  datatype NodeData = NodeData(id: string, nodeType: string, position: Position, data: DataRecord)

  /** An edge of the submitted pipeline (`EdgeData` of the backend). */
  datatype EdgeData = EdgeData(id: string, source: string, target: string,
                               sourceHandle: Option<string>, targetHandle: Option<string>)

  /** The request body `{nodes, edges}` (`PipelineData` of the backend). */
  datatype PipelineData = PipelineData(nodes: seq<NodeData>, edges: seq<EdgeData>)
}
