/** The API call node: an HTTP method and URL, body and headers in, response out. */
module ApiNode {

  import opened Wrappers
  import opened Strings
  import opened Sequences
  import opened Graph
  import opened NodeEngine

  /** The `config` object `ApiNode` hands to the node engine for node `id` with data `data`. */
  function Config(id: string, data: DataRecord): (c: NodeConfig)
    ensures c.title == "API Call" && FieldNames(c.fields) == ["method", "url"]
    ensures AllNamespaced(c.handles, id) && c.dynamicHandles.None? && c.renderContent.None?
  {
    NodeConfig(
      "API Call", "/icon-api.png",
      [ Field("method", "Method", Some("select"),
              [ SelectOption("GET", "GET"), SelectOption("POST", "POST"),
                SelectOption("PUT", "PUT"), SelectOption("DELETE", "DELETE") ],
              Or(Lookup(data, "method"), "GET"), ""),
        Field("url", "URL", Some("text"), [], Or(Lookup(data, "url"), ""),
              "https://api.example.com") ],
      [ Handle(Target, Left, Namespaced(id, "body"), Some(33.0), "body"),
        Handle(Target, Left, Namespaced(id, "headers"), Some(66.0), "headers"),
        Handle(Source, Right, Namespaced(id, "response"), None, "") ],
      false, None, None)
  }

  /**
   * Targets body (33%) and headers (66%) and the response source, with distinct
   * ids namespaced by the node id; no generator, so field edits never change them.
   */
  lemma HandlesShape(id: string, data: DataRecord)
    ensures var c := Config(id, data);
            var hs := c.handles;
            && |hs| == 3
            && [hs[0].handleType, hs[1].handleType, hs[2].handleType] == [Target, Target, Source]
            && [hs[0].position, hs[1].position, hs[2].position] == [Left, Left, Right]
            && Distinct(HandleIds(hs)) && AllNamespaced(hs, id)
            && CountOf(hs, Target) == 2 && CountOf(hs, Source) == 1
            && HandleIds(hs) == [Namespaced(id, "body"), Namespaced(id, "headers"), Namespaced(id, "response")]
            && hs[0].top == Some(33.0) && hs[1].top == Some(66.0)
            && forall values :: ResolveHandles(c, values) == hs
  {
    var hs := Config(id, data).handles;
    RolesGiveDistinctIds(id, hs, ["body", "headers", "response"]);
    assert CountOf(hs[2..], Target) == 0;
    assert CountOf(hs[1..], Target) == 1;
    assert CountOf(hs[0..], Target) == 2;
    assert CountOf(hs[2..], Source) == 1;
    assert CountOf(hs[1..], Source) == 1;
    assert CountOf(hs[0..], Source) == 1;
  }

  /** `method` starts as `data.method`, else GET, over GET, POST, PUT, DELETE; `url` as `data.url`, else empty. */
  lemma FieldDefaults(id: string, data: DataRecord)
    ensures var c := Config(id, data);
            && FieldNames(c.fields) == ["method", "url"]
            && OptionValues(c.fields[0].options) == ["GET", "POST", "PUT", "DELETE"]
            && InitialValues(c.fields, data) ==
                 map["method" := Or(Lookup(data, "method"), "GET"), "url" := Lookup(data, "url")]
  {
    var c := Config(id, data);
    InitialValuesOfTwo(c.fields[0], c.fields[1], data);
  }
}
