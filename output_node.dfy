/** The output node: a named, typed sink with a single value input. */
module OutputNode {

  import opened Wrappers
  import opened Strings
  import opened Sequences
  import opened Graph
  import opened NodeEngine

  /** The name used when `data.outputName` is falsy: `id.replace('customOutput-', 'output_')`. */
  function DefaultName(id: string): (r: string)
    ensures IndexOf(id, "customOutput-").None? ==> r == id
    ensures IndexOf(id, "customOutput-").Some? ==>
              var i := IndexOf(id, "customOutput-").value;
              r == id[..i] + "output_" + id[i + |"customOutput-"|..]
  {
    ReplaceFirst(id, "customOutput-", "output_")
  }

  /** The `config` object `OutputNode` hands to the node engine for node `id` with data `data`. */
  function Config(id: string, data: DataRecord): (c: NodeConfig)
    ensures c.title == "Output" && FieldNames(c.fields) == ["outputName", "outputType"]
    ensures AllNamespaced(c.handles, id) && c.dynamicHandles.None? && c.renderContent.None?
  {
    NodeConfig(
      "Output", "/icon-output.png",
      [ Field("outputName", "Name", Some("text"), [], Or(Lookup(data, "outputName"), DefaultName(id)), ""),
        Field("outputType", "Type", Some("select"),
              [ SelectOption("Text", "Text"), SelectOption("File", "Image") ],
              Or(Lookup(data, "outputType"), "Text"), "") ],
      [ Handle(Target, Left, Namespaced(id, "value"), None, "") ],
      false, None, None)
  }

  /** A single target `${id}-value` and no source. */
  lemma HandlesShape(id: string, data: DataRecord)
    ensures var hs := Config(id, data).handles;
            && HandleIds(hs) == [Namespaced(id, "value")] && AllNamespaced(hs, id)
            && CountOf(hs, Target) == 1 && CountOf(hs, Source) == 0
            && Config(id, data).dynamicHandles.None?
  {
  }

  /**
   * `outputName` starts as `data.outputName`, else the default name;
   * `outputType` as `data.outputType`, else `Text`, over the values Text and
   * File (shown as "Image").
   */
  lemma FieldDefaults(id: string, data: DataRecord)
    ensures var c := Config(id, data);
            && FieldNames(c.fields) == ["outputName", "outputType"]
            && c.fields[1].options == [SelectOption("Text", "Text"), SelectOption("File", "Image")]
            && InitialValues(c.fields, data) ==
                 map["outputName" := Or(Lookup(data, "outputName"), DefaultName(id)),
                     "outputType" := Or(Lookup(data, "outputType"), "Text")]
  {
    var c := Config(id, data);
    InitialValuesOfTwo(c.fields[0], c.fields[1], data);
  }

  /** An id made by the store for this type, `customOutput-N`, gives the default name `output_N`. */
  lemma DefaultNameOfStoreId(suffix: string)
    ensures DefaultName("customOutput-" + suffix) == "output_" + suffix
  {
    var id := "customOutput-" + suffix;
    assert IsPrefix("customOutput-", id);
    ReplaceFirstPrefix(id, "customOutput-", "output_");
    assert id[|"customOutput-"|..] == suffix;
  }

  /** An id that does not contain `customOutput-` is its own default name. */
  lemma DefaultNameWithoutPattern(id: string)
    requires forall j :: 0 <= j <= |id| ==> !OccursAt(id, "customOutput-", j)
    ensures DefaultName(id) == id
  {
    ReplaceFirstAbsent(id, "customOutput-", "output_");
  }
}
