/**
 * The generic node engine (`BaseNode`): a declarative configuration plus the
 * node's `data` give the field values and the handle list of one node instance;
 * field edits update the values and recompute dynamic handles.
 */
module NodeEngine {

  import opened Wrappers
  import opened Strings
  import opened Sequences
  import opened Graph

  // ---------------------------------------------------------------------------
  // Configuration
  // ---------------------------------------------------------------------------

  /** `'source'` handles start edges, `'target'` handles receive them. */
  datatype HandleType = Source | Target

  /** The canvas side a handle sits on (`Position.Left`, ...). */
  datatype Side = Left | Right | Top | Bottom

  /**
   * One handle: `top` is `style.top` as a percentage (an exact rational), `None`
   * when the handle has no style; `labelText` is `""` when the handle has none.
   */
  datatype Handle = Handle(handleType: HandleType, position: Side, id: string,
                           top: Option<real>, labelText: string)

  datatype SelectOption = SelectOption(value: string, labelText: string)

  /** A field declaration; `fieldType` is `None` when the declaration has no `type`. */
  datatype Field = Field(name: string, labelText: string, fieldType: Option<string>,
                         options: seq<SelectOption>, defaultValue: string, placeholder: string)

  /** The `fieldValues` state: field name -> current value. */
  type FieldValues = map<string, string>

  /** What a custom content renderer produces. */
  datatype Content = Content(text: string)

  /**
   * A node configuration. `dynamicHandles`, when present, recomputes the handle
   * list from the field values and the static handles; `renderContent`, when
   * present, replaces the field list; `hasFieldHook` says whether an
   * `onFieldChange` hook is declared.
   */
  datatype NodeConfig = NodeConfig(
    title: string,
    icon: string,
    fields: seq<Field>,
    handles: seq<Handle>,
    hasFieldHook: bool,
    renderContent: Option<FieldValues -> Content>,
    dynamicHandles: Option<(FieldValues, seq<Handle>) -> seq<Handle>>)

  function FieldNames(fields: seq<Field>): (r: seq<string>)
    ensures |r| == |fields| && forall k :: 0 <= k < |fields| ==> r[k] == fields[k].name
  {
    seq(|fields|, k requires 0 <= k < |fields| => fields[k].name)
  }

  function HandleIds(handles: seq<Handle>): (r: seq<string>)
    ensures |r| == |handles| && forall k :: 0 <= k < |handles| ==> r[k] == handles[k].id
  {
    seq(|handles|, k requires 0 <= k < |handles| => handles[k].id)
  }

  function OptionValues(options: seq<SelectOption>): (r: seq<string>)
    ensures |r| == |options| && forall k :: 0 <= k < |options| ==> r[k] == options[k].value
  {
    seq(|options|, k requires 0 <= k < |options| => options[k].value)
  }

  /** Every handle id has the form `${nodeId}-...`. */
  predicate AllNamespaced(handles: seq<Handle>, nodeId: string) {
    forall k :: 0 <= k < |handles| ==> IsPrefix(nodeId + "-", handles[k].id)
  }

  /** The number of handles of the given type. */
  function CountOf(handles: seq<Handle>, t: HandleType): (n: nat)
    ensures n <= |handles|
    ensures n == 0 <==> forall k :: 0 <= k < |handles| ==> handles[k].handleType != t
  {
    if handles == [] then 0
    else (if handles[0].handleType == t then 1 else 0) + CountOf(handles[1..], t)
  }

  /**
   * Handles whose ids are `${nodeId}-${role}` for pairwise different roles have
   * pairwise different ids, all namespaced by `nodeId`.
   */
  lemma RolesGiveDistinctIds(nodeId: string, handles: seq<Handle>, roles: seq<string>)
    requires |handles| == |roles| && Distinct(roles)
    requires forall k :: 0 <= k < |handles| ==> handles[k].id == Namespaced(nodeId, roles[k])
    ensures Distinct(HandleIds(handles)) && AllNamespaced(handles, nodeId)
  {
    forall i, j | 0 <= i < j < |handles| ensures handles[i].id != handles[j].id {

    }
  }

  // ---------------------------------------------------------------------------
  // Field values
  // ---------------------------------------------------------------------------

  /** `data?.[name] || field.defaultValue || ''`: an empty default is `''` already. */
  function Seed(data: DataRecord, field: Field): (v: string)
    ensures Truthy(Lookup(data, field.name)) ==> v == data[field.name]
    ensures !Truthy(Lookup(data, field.name)) ==> v == field.defaultValue
  {
    Or(Lookup(data, field.name), field.defaultValue)
  }

  /** The `initialState` the field list's `reduce` builds. */
  function InitialValues(fields: seq<Field>, data: DataRecord): (r: FieldValues)
    ensures forall name :: name in r ==> exists k :: 0 <= k < |fields| && fields[k].name == name
  {
    if fields == [] then map[]
    else
      var last := fields[|fields| - 1];
      InitialValues(fields[..|fields| - 1], data)[last.name := Seed(data, last)]
  }

  /** The initial state has exactly one key per declared field name. */
  lemma {:induction false} InitialValuesKeys(fields: seq<Field>, data: DataRecord)
    ensures forall name :: name in InitialValues(fields, data) <==> name in FieldNames(fields)
  {
    if fields != [] {
      var init := fields[..|fields| - 1];
      InitialValuesKeys(init, data);
      assert FieldNames(fields) == FieldNames(init) + [fields[|fields| - 1].name];
    }
  }

  /**
   * Each declared name maps to the seed of its last declaration (of its only
   * one, when names are unique, as in every configuration of this model).
   */
  lemma {:induction false} InitialValuesSeeds(fields: seq<Field>, data: DataRecord, i: nat)
    requires i < |fields|
    requires forall j :: i < j < |fields| ==> fields[j].name != fields[i].name
    ensures fields[i].name in InitialValues(fields, data)
    ensures InitialValues(fields, data)[fields[i].name] == Seed(data, fields[i])
  {
    if i < |fields| - 1 {
      var init := fields[..|fields| - 1];
      assert init[i] == fields[i];
      InitialValuesSeeds(init, data, i);
    }
  }

  /** The initial state of a one-field configuration. */
  lemma InitialValuesOfOne(f: Field, data: DataRecord)
    ensures InitialValues([f], data) == map[f.name := Seed(data, f)]
  {
    assert [f][..0] == [];
  }

  /** The initial state of a two-field configuration. */
  lemma InitialValuesOfTwo(f: Field, g: Field, data: DataRecord)
    ensures InitialValues([f, g], data) == map[f.name := Seed(data, f)][g.name := Seed(data, g)]
  {
    assert [f, g][..1] == [f];
    InitialValuesOfOne(f, data);
  }

  /** The `reduce` that builds `initialState`, one field at a time. */
  method InitialState(fields: seq<Field>, data: DataRecord) returns (acc: FieldValues)
    ensures acc == InitialValues(fields, data)
  {
    acc := map[];
    var i := 0;
    while i < |fields|
      invariant 0 <= i <= |fields|
      invariant acc == InitialValues(fields[..i], data)
    {
      assert fields[..i + 1][..i] == fields[..i];
      acc := acc[fields[i].name := Seed(data, fields[i])];
      i := i + 1;
    }
    assert fields[..i] == fields;
  }

  // ---------------------------------------------------------------------------
  // Handles
  // ---------------------------------------------------------------------------

  /** The handle list for the given field values: the dynamic one when declared, else the static one. */
  function ResolveHandles(config: NodeConfig, values: FieldValues): (r: seq<Handle>)
    ensures config.dynamicHandles.None? ==> r == config.handles
    ensures config.dynamicHandles.Some? ==> r == config.dynamicHandles.value(values, config.handles)
  {
    match config.dynamicHandles
    case None => config.handles
    case Some(generate) => generate(values, config.handles)
  }

  /** Without a dynamic generator, no field edit can change the handles. */
  lemma StaticHandlesIgnoreValues(config: NodeConfig, values: FieldValues, values': FieldValues)
    requires config.dynamicHandles.None?
    ensures ResolveHandles(config, values) == ResolveHandles(config, values') == config.handles
  {
  }

  /** The arguments the `onFieldChange` hook receives. */
  datatype HookCall = HookCall(fieldName: string, value: string, previous: FieldValues)

  /** One node instance: its configuration, its field values and its computed handles. */
  class BaseNode {
    const id: string
    const config: NodeConfig
    var fieldValues: FieldValues
    var computedHandles: seq<Handle>

    /** The computed handles always follow the current field values. */
    ghost predicate Valid()
      reads this
    {
      computedHandles == ResolveHandles(config, fieldValues)
    }

    /** Mounting: `initialState` is seeded, then the handle effect runs once. */
    constructor (id: string, data: DataRecord, config: NodeConfig)
      ensures Valid()
      ensures this.id == id && this.config == config
      ensures fieldValues == InitialValues(config.fields, data)
    {
      this.id := id;
      this.config := config;
      var initial := InitialState(config.fields, data);
      fieldValues := initial;
      computedHandles := ResolveHandles(config, initial);
    }

    /**
     * `handleChange(fieldName, value)`: sets one field, leaves the others as they
     * were, hands the hook (if declared) the values from before the change, and
     * re-runs the handle effect.
     */
    method HandleChange(fieldName: string, value: string) returns (hook: Option<HookCall>)
      modifies this
      ensures Valid()
      ensures fieldValues == old(fieldValues)[fieldName := value]
      ensures hook == if config.hasFieldHook then Some(HookCall(fieldName, value, old(fieldValues))) else None
    {
      var previous := fieldValues;
      fieldValues := fieldValues[fieldName := value];
      hook := if config.hasFieldHook then Some(HookCall(fieldName, value, previous)) else None;
      computedHandles := ResolveHandles(config, fieldValues);
    }
  }

  // ---------------------------------------------------------------------------
  // Rendering decisions
  // ---------------------------------------------------------------------------

  datatype WidgetKind = SelectBox | TextArea | TextInput

  /** `renderField`'s switch: a missing type is `'text'`, and an unknown type renders as a text input. */
  function WidgetKindOf(fieldType: Option<string>): (k: WidgetKind)
    ensures k == SelectBox <==> fieldType == Some("select")
    ensures k == TextArea <==> fieldType == Some("textarea")
    ensures k == TextInput <==> fieldType != Some("select") && fieldType != Some("textarea")
  {
    match fieldType.GetOr("text")
    case "select" => SelectBox
    case "textarea" => TextArea
    case _ => TextInput
  }

  /** One field's widget: its kind, label, current value, options (select) or placeholder (text). */
  datatype Widget = Widget(kind: WidgetKind, name: string, labelText: string, value: string,
                           options: seq<SelectOption>, placeholder: string)

  function RenderField(field: Field, values: FieldValues): (w: Widget)
    ensures w.name == field.name && w.labelText == field.labelText && w.value == Lookup(values, field.name)
    ensures w.kind == WidgetKindOf(field.fieldType)
    ensures w.kind == SelectBox ==> w.options == field.options && w.placeholder == ""
    ensures w.kind != SelectBox ==> w.options == [] && w.placeholder == field.placeholder
  {
    var kind := WidgetKindOf(field.fieldType);
    var value := Lookup(values, field.name);
    if kind == SelectBox then Widget(kind, field.name, field.labelText, value, field.options, "")
    else Widget(kind, field.name, field.labelText, value, [], field.placeholder)
  }

  /** The node body: the custom content, or the field list. */
  datatype Body = Custom(content: Content) | FieldList(widgets: seq<Widget>)

  /** A custom renderer replaces the field list; otherwise one widget per field, in declaration order. */
  function RenderBody(config: NodeConfig, values: FieldValues): (b: Body)
    ensures config.renderContent.Some? ==> b == Custom(config.renderContent.value(values))
    ensures config.renderContent.None? ==>
              b.FieldList? && |b.widgets| == |config.fields| &&
              forall k :: 0 <= k < |config.fields| ==> b.widgets[k] == RenderField(config.fields[k], values)
  {
    match config.renderContent
    case Some(render) => Custom(render(values))
    case None =>
      FieldList(seq(|config.fields|, k requires 0 <= k < |config.fields| => RenderField(config.fields[k], values)))
  }

  /** Where a handle's label pill goes: outside the left or right edge at height `top` percent. */
  datatype LabelPlacement = OutsideLeft(top: real) | OutsideRight(top: real) | Unplaced

  datatype HandleLabel = HandleLabel(text: string, placement: LabelPlacement)

  datatype RenderedHandle = RenderedHandle(handleType: HandleType, position: Side, id: string,
                                           top: Option<real>, pill: Option<HandleLabel>)

  /** The label rules of `renderHandles`: `top` is `style.top || '50%'`, the side follows the handle's position. */
  function Placement(h: Handle): LabelPlacement {
    match h.position
    case Left => OutsideLeft(h.top.GetOr(50.0))
    case Right => OutsideRight(h.top.GetOr(50.0))
    case _ => Unplaced
  }

  function RenderHandle(h: Handle): RenderedHandle {
    RenderedHandle(h.handleType, h.position, h.id, h.top,
                   if Truthy(h.labelText) then Some(HandleLabel(h.labelText, Placement(h))) else None)
  }

  /**
   * `renderHandles`: one rendered handle per computed handle, in order, keeping
   * type, side, id and style; a label only when it is truthy, placed on the
   * handle's side at its `top` or at 50%.
   */
  function RenderHandles(handles: seq<Handle>): (r: seq<RenderedHandle>)
    ensures |r| == |handles|
    ensures forall k :: 0 <= k < |handles| ==>
              && r[k].handleType == handles[k].handleType
              && r[k].position == handles[k].position
              && r[k].id == handles[k].id
              && r[k].top == handles[k].top
              && (r[k].pill.Some? <==> handles[k].labelText != "")
              && (r[k].pill.Some? ==> r[k].pill.value.text == handles[k].labelText)
    ensures forall k :: 0 <= k < |handles| && r[k].pill.Some? && handles[k].position == Left ==>
              r[k].pill.value.placement == OutsideLeft(if handles[k].top.Some? then handles[k].top.value else 50.0)
    ensures forall k :: 0 <= k < |handles| && r[k].pill.Some? && handles[k].position == Right ==>
              r[k].pill.value.placement == OutsideRight(if handles[k].top.Some? then handles[k].top.value else 50.0)
  {
    seq(|handles|, k requires 0 <= k < |handles| => RenderHandle(handles[k]))
  }
}
