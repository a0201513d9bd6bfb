/** The LLM node: system and prompt in, response out, fixed content and no fields. */
module LlmNode {

  import opened Wrappers
  import opened Strings
  import opened Sequences
  import opened Graph
  import opened NodeEngine

  /** The text the custom renderer shows, whatever the field values. */
  const Caption := "This is a LLM."

  /** The `config` object `LLMNode` hands to the node engine for node `id` with data `data`. */
  function Config(id: string, data: DataRecord): (c: NodeConfig)
    ensures c.title == "LLM" && FieldNames(c.fields) == []
    ensures AllNamespaced(c.handles, id) && c.dynamicHandles.None? && c.renderContent.Some?
  {
    NodeConfig(
      "LLM", "/icon-llm.png",
      [],
      [ Handle(Target, Left, Namespaced(id, "system"), Some(100.0 / 3.0), "system"),
        Handle(Target, Left, Namespaced(id, "prompt"), Some(200.0 / 3.0), "prompt"),
        Handle(Source, Right, Namespaced(id, "response"), None, "") ],
      false,
      Some((values: FieldValues) => Content(Caption)),
      None)
  }

  /** Targets system (100/3 %) and prompt (200/3 %), then the response source; ids distinct and namespaced. */
  lemma HandlesShape(id: string, data: DataRecord)
    ensures var hs := Config(id, data).handles;
            && |hs| == 3
            && [hs[0].handleType, hs[1].handleType, hs[2].handleType] == [Target, Target, Source]
            && [hs[0].position, hs[1].position, hs[2].position] == [Left, Left, Right]
            && Distinct(HandleIds(hs)) && AllNamespaced(hs, id)
            && CountOf(hs, Target) == 2 && CountOf(hs, Source) == 1
            && HandleIds(hs) == [Namespaced(id, "system"), Namespaced(id, "prompt"), Namespaced(id, "response")]
            && hs[0].top == Some(100.0 / 3.0) && hs[1].top == Some(200.0 / 3.0)
            && Config(id, data).dynamicHandles.None?
  {
    var hs := Config(id, data).handles;
    RolesGiveDistinctIds(id, hs, ["system", "prompt", "response"]);
    assert CountOf(hs[2..], Target) == 0;
    assert CountOf(hs[1..], Target) == 1;
    assert CountOf(hs[0..], Target) == 2;
    assert CountOf(hs[2..], Source) == 1;
    assert CountOf(hs[1..], Source) == 1;
    assert CountOf(hs[0..], Source) == 1;
  }

  /** No fields, and the body is the same custom content for every field state. */
  lemma ContentIsConstant(id: string, data: DataRecord, values: FieldValues)
    ensures Config(id, data).fields == []
    ensures InitialValues(Config(id, data).fields, data) == map[]
    ensures RenderBody(Config(id, data), values) == Custom(Content(Caption))
  {
  }
}
