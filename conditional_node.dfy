/** The conditional node: one condition in, a true and a false branch out. */
module ConditionalNode {

  import opened Wrappers
  import opened Strings
  import opened Sequences
  import opened Graph
  import opened NodeEngine

  /** The `config` object `ConditionalNode` hands to the node engine for node `id` with data `data`. */
  function Config(id: string, data: DataRecord): (c: NodeConfig)
    ensures c.title == "Conditional" && FieldNames(c.fields) == ["operator"]
    ensures AllNamespaced(c.handles, id) && c.dynamicHandles.None? && c.renderContent.None?
  {
    NodeConfig(
      "Conditional", "/icon-conditional.png",
      [ Field("operator", "Operator", Some("select"),
              [ SelectOption("equals", "=="), SelectOption("notEquals", "!="),
                SelectOption("greater", ">"), SelectOption("less", "<"),
                SelectOption("greaterOrEqual", ">="), SelectOption("lessOrEqual", "<=") ],
              Or(Lookup(data, "operator"), "equals"), "") ],
      [ Handle(Target, Left, Namespaced(id, "condition"), None, ""),
        Handle(Source, Right, Namespaced(id, "true"), Some(33.0), "true"),
        Handle(Source, Right, Namespaced(id, "false"), Some(66.0), "false") ],
      false, None, None)
  }

  /**
   * One unlabelled, unstyled condition target, then sources true (33%) and
   * false (66%) labelled by their branch; ids distinct and namespaced.
   */
  lemma HandlesShape(id: string, data: DataRecord)
    ensures var hs := Config(id, data).handles;
            && |hs| == 3
            && [hs[0].handleType, hs[1].handleType, hs[2].handleType] == [Target, Source, Source]
            && [hs[0].position, hs[1].position, hs[2].position] == [Left, Right, Right]
            && Distinct(HandleIds(hs)) && AllNamespaced(hs, id)
            && CountOf(hs, Target) == 1 && CountOf(hs, Source) == 2
            && hs[0].id == Namespaced(id, "condition") && hs[0].labelText == "" && hs[0].top == None
            && hs[1].id == Namespaced(id, "true") && hs[1].labelText == "true" && hs[1].top == Some(33.0)
            && hs[2].id == Namespaced(id, "false") && hs[2].labelText == "false" && hs[2].top == Some(66.0)
            && Config(id, data).dynamicHandles.None?
  {
    var hs := Config(id, data).handles;
    RolesGiveDistinctIds(id, hs, ["condition", "true", "false"]);
    assert CountOf(hs[2..], Target) == 0;
    assert CountOf(hs[1..], Target) == 0;
    assert CountOf(hs[0..], Target) == 1;
    assert CountOf(hs[2..], Source) == 1;
    assert CountOf(hs[1..], Source) == 2;
    assert CountOf(hs[0..], Source) == 2;
  }

  /** `operator` starts as `data.operator`, else `equals`, over the six comparison options. */
  lemma FieldDefaults(id: string, data: DataRecord)
    ensures var c := Config(id, data);
            && FieldNames(c.fields) == ["operator"]
            && OptionValues(c.fields[0].options) ==
                 ["equals", "notEquals", "greater", "less", "greaterOrEqual", "lessOrEqual"]
            && InitialValues(c.fields, data) == map["operator" := Or(Lookup(data, "operator"), "equals")]
  {
    InitialValuesOfOne(Config(id, data).fields[0], data);
  }
}
