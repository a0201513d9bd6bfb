/** The filter node: a condition and a value, one input, one output. */
module FilterNode {

  import opened Wrappers
  import opened Strings
  import opened Sequences
  import opened Graph
  import opened NodeEngine

  /** The `config` object `FilterNode` hands to the node engine for node `id` with data `data`. */
  function Config(id: string, data: DataRecord): (c: NodeConfig)
    ensures c.title == "Filter" && FieldNames(c.fields) == ["condition", "value"]
    ensures AllNamespaced(c.handles, id) && c.dynamicHandles.None? && c.renderContent.None?
  {
    NodeConfig(
      "Filter", "/icon-filter.png",
      [ Field("condition", "Condition", Some("select"),
              [ SelectOption("equals", "Equals"), SelectOption("contains", "Contains"),
                SelectOption("greater", "Greater Than"), SelectOption("less", "Less Than") ],
              Or(Lookup(data, "condition"), "equals"), ""),
        Field("value", "Value", Some("text"), [], Or(Lookup(data, "value"), ""), "Filter value") ],
      [ Handle(Target, Left, Namespaced(id, "input"), None, ""),
        Handle(Source, Right, Namespaced(id, "output"), None, "") ],
      false, None, None)
  }

  /** One target `${id}-input`, one source `${id}-output`. */
  lemma HandlesShape(id: string, data: DataRecord)
    ensures var hs := Config(id, data).handles;
            && |hs| == 2
            && [hs[0].handleType, hs[1].handleType] == [Target, Source]
            && [hs[0].position, hs[1].position] == [Left, Right]
            && Distinct(HandleIds(hs)) && AllNamespaced(hs, id)
            && CountOf(hs, Target) == 1 && CountOf(hs, Source) == 1
            && HandleIds(hs) == [Namespaced(id, "input"), Namespaced(id, "output")]
            && Config(id, data).dynamicHandles.None?
  {
    var hs := Config(id, data).handles;
    RolesGiveDistinctIds(id, hs, ["input", "output"]);
  }

  /**
   * Two fields, condition then value; `condition` starts as `data.condition`,
   * else `equals`, over equals, contains, greater, less; `value` as `data.value`, else empty.
   */
  lemma FieldDefaults(id: string, data: DataRecord)
    ensures var c := Config(id, data);
            && FieldNames(c.fields) == ["condition", "value"]
            && OptionValues(c.fields[0].options) == ["equals", "contains", "greater", "less"]
            && InitialValues(c.fields, data) ==
                 map["condition" := Or(Lookup(data, "condition"), "equals"), "value" := Lookup(data, "value")]
  {
    var c := Config(id, data);
    InitialValuesOfTwo(c.fields[0], c.fields[1], data);
  }
}
