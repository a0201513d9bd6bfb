/** The aggregate node: combines three inputs with a chosen operation. */
module AggregateNode {

  import opened Wrappers
  import opened Strings
  import opened Sequences
  import opened Graph
  import opened NodeEngine

  /** The `config` object `AggregateNode` hands to the node engine for node `id` with data `data`. */
  function Config(id: string, data: DataRecord): (c: NodeConfig)
    ensures c.title == "Aggregate" && FieldNames(c.fields) == ["operation", "separator"]
    ensures AllNamespaced(c.handles, id) && c.dynamicHandles.None? && c.renderContent.None?
  {
    NodeConfig(
      "Aggregate", "/icon-aggregate.png",
      [ Field("operation", "Operation", Some("select"),
              [ SelectOption("concat", "Concatenate"), SelectOption("sum", "Sum"),
                SelectOption("average", "Average"), SelectOption("max", "Maximum"),
                SelectOption("min", "Minimum") ],
              Or(Lookup(data, "operation"), "concat"), ""),
        Field("separator", "Separator", Some("text"), [],
              Or(Lookup(data, "separator"), ", "), "e.g., \", \"") ],
      [ Handle(Target, Left, Namespaced(id, "input1"), Some(25.0), "input1"),
        Handle(Target, Left, Namespaced(id, "input2"), Some(50.0), "input2"),
        Handle(Target, Left, Namespaced(id, "input3"), Some(75.0), "input3"),
        Handle(Source, Right, Namespaced(id, "output"), None, "") ],
      false, None, None)
  }

  /**
   * Four handles with distinct ids namespaced by the node id: targets input1,
   * input2, input3 at 25%, 50% and 75%, labelled by their role, then the output
   * source. They are static.
   */
  lemma HandlesShape(id: string, data: DataRecord)
    ensures var hs := Config(id, data).handles;
            && |hs| == 4
            && [hs[0].handleType, hs[1].handleType, hs[2].handleType, hs[3].handleType] == [Target, Target, Target, Source]
            && [hs[0].position, hs[1].position, hs[2].position, hs[3].position] == [Left, Left, Left, Right]
            && Distinct(HandleIds(hs)) && AllNamespaced(hs, id)
            && CountOf(hs, Target) == 3 && CountOf(hs, Source) == 1
            && HandleIds(hs) == [Namespaced(id, "input1"), Namespaced(id, "input2"),
                                 Namespaced(id, "input3"), Namespaced(id, "output")]
            && [hs[0].top, hs[1].top, hs[2].top] == [Some(25.0), Some(50.0), Some(75.0)]
            && [hs[0].labelText, hs[1].labelText, hs[2].labelText] == ["input1", "input2", "input3"]
            && Config(id, data).dynamicHandles.None?
  {
    var hs := Config(id, data).handles;
    RolesGiveDistinctIds(id, hs, ["input1", "input2", "input3", "output"]);
    assert CountOf(hs[3..], Target) == 0;
    assert CountOf(hs[2..], Target) == 1;
    assert CountOf(hs[1..], Target) == 2;
    assert CountOf(hs[0..], Target) == 3;
    assert CountOf(hs[3..], Source) == 1;
    assert CountOf(hs[2..], Source) == 1;
    assert CountOf(hs[1..], Source) == 1;
    assert CountOf(hs[0..], Source) == 1;
  }

  /**
   * `operation` starts as `data.operation`, else `concat`, over the options
   * concat, sum, average, max, min; `separator` starts as `data.separator`, else `, `.
   */
  lemma FieldDefaults(id: string, data: DataRecord)
    ensures var c := Config(id, data);
            && FieldNames(c.fields) == ["operation", "separator"]
            && OptionValues(c.fields[0].options) == ["concat", "sum", "average", "max", "min"]
            && InitialValues(c.fields, data) ==
                 map["operation" := Or(Lookup(data, "operation"), "concat"),
                     "separator" := Or(Lookup(data, "separator"), ", ")]
  {
    var c := Config(id, data);
    InitialValuesOfTwo(c.fields[0], c.fields[1], data);
  }
}
