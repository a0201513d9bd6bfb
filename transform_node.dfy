/** The transform node: one string operation, one input, one output. */
module TransformNode {

  import opened Wrappers
  import opened Strings
  import opened Sequences
  import opened Graph
  import opened NodeEngine

  /** The `config` object `TransformNode` hands to the node engine for node `id` with data `data`. */
  function Config(id: string, data: DataRecord): (c: NodeConfig)
    ensures c.title == "Transform" && FieldNames(c.fields) == ["operation"]
    ensures AllNamespaced(c.handles, id) && c.dynamicHandles.None? && c.renderContent.None?
  {
    NodeConfig(
      "Transform", "/icon-transform.png",
      [ Field("operation", "Operation", Some("select"),
              [ SelectOption("uppercase", "Uppercase"), SelectOption("lowercase", "Lowercase"),
                SelectOption("trim", "Trim"), SelectOption("reverse", "Reverse"),
                SelectOption("capitalize", "Capitalize") ],
              Or(Lookup(data, "operation"), "uppercase"), "") ],
      [ Handle(Target, Left, Namespaced(id, "input"), None, ""),
        Handle(Source, Right, Namespaced(id, "output"), None, "") ],
      false, None, None)
  }

  /** One target `${id}-input`, one source `${id}-output`. */
  lemma HandlesShape(id: string, data: DataRecord)
    ensures var hs := Config(id, data).handles;
            && |hs| == 2
            && [hs[0].handleType, hs[1].handleType] == [Target, Source]
            && [hs[0].position, hs[1].position] == [Left, Right]
            && Distinct(HandleIds(hs)) && AllNamespaced(hs, id)
            && CountOf(hs, Target) == 1 && CountOf(hs, Source) == 1
            && HandleIds(hs) == [Namespaced(id, "input"), Namespaced(id, "output")]
            && Config(id, data).dynamicHandles.None?
  {
    var hs := Config(id, data).handles;
    RolesGiveDistinctIds(id, hs, ["input", "output"]);
  }

  /**
   * Exactly one field, `operation`, starting as `data.operation`, else
   * `uppercase`, over uppercase, lowercase, trim, reverse, capitalize.
   */
  lemma FieldDefaults(id: string, data: DataRecord)
    ensures var c := Config(id, data);
            && FieldNames(c.fields) == ["operation"]
            && OptionValues(c.fields[0].options) == ["uppercase", "lowercase", "trim", "reverse", "capitalize"]
            && InitialValues(c.fields, data) == map["operation" := Or(Lookup(data, "operation"), "uppercase")]
  {
    InitialValuesOfOne(Config(id, data).fields[0], data);
  }
}
