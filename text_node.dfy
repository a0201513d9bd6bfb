/**
 * The text node: its template's `{{variable}}` occurrences become target
 * handles, recomputed whenever the text changes.
 */
module TextNode {

  import opened Wrappers
  import opened Strings
  import opened Sequences
  import opened Graph
  import opened NodeEngine

  // ---------------------------------------------------------------------------
  // The pattern /\{\{(\w+)\}\}/g
  // ---------------------------------------------------------------------------

  /** `\w`: an ASCII letter, digit or underscore. */
  predicate IsWordChar(c: char) {
    ('a' <= c <= 'z') || ('A' <= c <= 'Z') || ('0' <= c <= '9') || c == '_'
  }

  /** A non-empty run of word characters: what `(\w+)` captures. */
  predicate IsIdentifier(v: string) {
    |v| >= 1 && forall k :: 0 <= k < |v| ==> IsWordChar(v[k])
  }

  /** The end of the longest run of word characters starting at `i`. */
  function WordRunEnd(s: string, i: nat): (j: nat)
    requires i <= |s|
    ensures i <= j <= |s|
    ensures forall k :: i <= k < j ==> IsWordChar(s[k])
    ensures j == |s| || !IsWordChar(s[j])
    decreases |s| - i
  {
    if i < |s| && IsWordChar(s[i]) then WordRunEnd(s, i + 1) else i
  }

  /**
   * The pattern matches at `p`: `{{`, a word run, `}}`. Because `\w+` is greedy
   * and `}` is not a word character, only the longest run can be followed by `}}`.
   */
  predicate MatchAt(s: string, p: nat) {
    p + 2 <= |s| && s[p] == '{' && s[p + 1] == '{' &&
    var q := WordRunEnd(s, p + 2);
    q > p + 2 && q + 2 <= |s| && s[q] == '}' && s[q + 1] == '}'
  }

  /** `regex.exec(text)` from `lastIndex`: the leftmost match at or after it. */
  function NextMatch(s: string, from: nat): (r: Option<nat>)
    requires from <= |s|
    ensures r.Some? ==> from <= r.value && MatchAt(s, r.value)
    ensures r.Some? ==> forall p :: from <= p < r.value ==> !MatchAt(s, p)
    ensures r.None? ==> forall p :: from <= p ==> !MatchAt(s, p)
    decreases |s| - from
  {
    if from == |s| then None
    else if MatchAt(s, from) then Some(from)
    else NextMatch(s, from + 1)
  }

  /** The variable a match at `p` captures. */
  function Captured(s: string, p: nat): (v: string)
    requires MatchAt(s, p)
    ensures IsIdentifier(v)
  {
    s[p + 2..WordRunEnd(s, p + 2)]
  }

  /** Where the scan resumes after the match at `p` (the new `lastIndex`). */
  function MatchEnd(s: string, p: nat): (e: nat)
    requires MatchAt(s, p)
    ensures p + 5 <= e <= |s|
  {
    WordRunEnd(s, p + 2) + 2
  }

  /** The captures of the successive `exec` calls from `from` on, in order. */
  function MatchesFrom(s: string, from: nat): (r: seq<string>)
    requires from <= |s|
    ensures forall k :: 0 <= k < |r| ==> IsIdentifier(r[k])
    decreases |s| - from
  {
    match NextMatch(s, from)
    case None => []
    case Some(p) => [Captured(s, p)] + MatchesFrom(s, MatchEnd(s, p))
  }

  /** The value `extractVariables` returns: each captured variable once, at its first occurrence. */
  function Variables(text: string): (r: seq<string>)
    ensures Distinct(r)
    ensures forall k :: 0 <= k < |r| ==> IsIdentifier(r[k])
  {
    DedupDistinct(MatchesFrom(text, 0));
    Dedup(MatchesFrom(text, 0))
  }

  /**
   * `extractVariables`: calls `exec` until it finds nothing, pushing each
   * capture that `variables` does not yet include.
   */
  method ExtractVariables(text: string) returns (variables: seq<string>)
    ensures variables == Variables(text)
  {
    variables := [];
    var lastIndex := 0;
    ghost var seen: seq<string> := [];
    while true
      invariant lastIndex <= |text|
      invariant seen + MatchesFrom(text, lastIndex) == MatchesFrom(text, 0)
      invariant variables == Dedup(seen)
      decreases |text| - lastIndex
    {
      var found := NextMatch(text, lastIndex);
      if found.None? {
        break;
      }
      var variable := Captured(text, found.value);
      ScanStep(text, lastIndex, seen);
      if variable !in variables {
        variables := variables + [variable];
      }
      seen := seen + [variable];
      lastIndex := MatchEnd(text, found.value);
    }
    assert MatchesFrom(text, lastIndex) == [];
    assert seen == MatchesFrom(text, 0);
  }

  /** One `exec` that finds a match extends the captures seen so far by that match's capture. */
  lemma ScanStep(text: string, lastIndex: nat, seen: seq<string>)
    requires lastIndex <= |text| && NextMatch(text, lastIndex).Some?
    requires seen + MatchesFrom(text, lastIndex) == MatchesFrom(text, 0)
    ensures var p := NextMatch(text, lastIndex).value;
            var v := Captured(text, p);
            && (seen + [v]) + MatchesFrom(text, MatchEnd(text, p)) == MatchesFrom(text, 0)
            && Dedup(seen + [v]) == if v in Dedup(seen) then Dedup(seen) else Dedup(seen) + [v]
  {
    var p := NextMatch(text, lastIndex).value;
    var v := Captured(text, p);
    var rest := MatchesFrom(text, MatchEnd(text, p));
    assert MatchesFrom(text, lastIndex) == [v] + rest;
    assert (seen + [v]) + rest == seen + ([v] + rest);
    DedupAppend(seen, v);
  }

  /** Pushing one more capture: `Dedup` unfolds once. */
  lemma DedupAppend(seen: seq<string>, v: string)
    ensures Dedup(seen + [v]) == if v in Dedup(seen) then Dedup(seen) else Dedup(seen) + [v]
  {
    assert (seen + [v])[..|seen|] == seen;
  }

  // ---------------------------------------------------------------------------
  // What the scan finds
  // ---------------------------------------------------------------------------

  /** `v` occurs in `s` wrapped as `{{v}}`. */
  ghost predicate OccursWrapped(s: string, v: string) {
    exists p: nat :: OccursAt(s, "{{" + v + "}}", p)
  }

  /** The captures of a match: the identifier between the braces at `p`. */
  lemma CapturedIsWrapped(s: string, p: nat)
    requires MatchAt(s, p)
    ensures OccursAt(s, "{{" + Captured(s, p) + "}}", p)
  {
    var v := Captured(s, p);
    var w := "{{" + v + "}}";
    assert |w| == |v| + 4;
    forall k | 0 <= k < |w| ensures s[p + k] == w[k] {
      if 2 <= k < |v| + 2 {
        assert w[k] == v[k - 2];
      }
    }
    assert s[p..p + |w|] == w;
  }

  /** No match starts strictly inside another: a match at `p` is followed by none before its end. */
  lemma MatchesDoNotOverlap(s: string, p: nat, p': nat)
    requires MatchAt(s, p) && p < p' < MatchEnd(s, p)
    ensures !MatchAt(s, p')
  {
    var q := WordRunEnd(s, p + 2);
    if p' == p + 1 {
      assert IsWordChar(s[p + 2]);
    } else if p' < q {
      assert IsWordChar(s[p']);
    }
  }

  /** Every capture of the scan from `from` is an identifier that occurs wrapped in braces. */
  lemma {:induction false} MatchesAreWrappedIdentifiers(s: string, from: nat, v: string)
    requires from <= |s| && v in MatchesFrom(s, from)
    ensures IsIdentifier(v) && OccursWrapped(s, v)
    decreases |s| - from
  {
    var p := NextMatch(s, from).value;
    if v == Captured(s, p) {
      CapturedIsWrapped(s, p);
    } else {
      MatchesAreWrappedIdentifiers(s, MatchEnd(s, p), v);
    }
  }

  /** Every match at or after `from` contributes its capture to the scan from `from`. */
  lemma {:induction false} EveryMatchIsCaptured(s: string, from: nat, p: nat)
    requires from <= p && from <= |s| && MatchAt(s, p)
    ensures Captured(s, p) in MatchesFrom(s, from)
    decreases |s| - from
  {
    var p0 := NextMatch(s, from).value;
    if p0 != p {
      assert p0 < p;
      if p < MatchEnd(s, p0) {
        MatchesDoNotOverlap(s, p0, p);
      }
      EveryMatchIsCaptured(s, MatchEnd(s, p0), p);
    }
  }

  /** An identifier wrapped in braces is a match of the pattern. */
  lemma WrappedIdentifierMatches(s: string, v: string, p: nat)
    requires IsIdentifier(v) && OccursAt(s, "{{" + v + "}}", p)
    ensures MatchAt(s, p) && Captured(s, p) == v
  {
    var w := "{{" + v + "}}";
    assert forall k :: 0 <= k < |w| ==> s[p + k] == w[k];
    assert s[p] == '{' && s[p + 1] == '{';
    forall k | 0 <= k < |v| ensures s[p + 2 + k] == v[k] {
      assert w[k + 2] == v[k];
    }
    assert s[p + 2 + |v|] == '}' && s[p + 3 + |v|] == '}' by {
      assert w[|v| + 2] == '}' && w[|v| + 3] == '}';
    }
    WordRunIsIdentifier(s, p + 2, |v|);
    assert s[p + 2..p + 2 + |v|] == v;
  }

  lemma {:induction false} WordRunIsIdentifier(s: string, i: nat, n: nat)
    requires i + n < |s| && !IsWordChar(s[i + n])
    requires forall k :: i <= k < i + n ==> IsWordChar(s[k])
    ensures WordRunEnd(s, i) == i + n
    decreases n
  {
    if n > 0 {
      WordRunIsIdentifier(s, i + 1, n - 1);
    }
  }

  /**
   * The variables of a template are exactly the identifiers that occur in it
   * wrapped as `{{v}}`.
   */
  lemma VariablesAreWrappedIdentifiers(text: string, v: string)
    ensures v in Variables(text) <==> IsIdentifier(v) && OccursWrapped(text, v)
  {
    DedupMembers(MatchesFrom(text, 0));
    if v in Variables(text) {
      MatchesAreWrappedIdentifiers(text, 0, v);
    }
    if IsIdentifier(v) && OccursWrapped(text, v) {
      var p: nat :| OccursAt(text, "{{" + v + "}}", p);
      WrappedIdentifierMatches(text, v, p);
      EveryMatchIsCaptured(text, 0, p);
    }
  }

  /** The variables have no duplicates and appear in order of first occurrence among the matches. */
  lemma VariablesInFirstOccurrenceOrder(text: string)
    ensures Distinct(Variables(text))
    ensures forall v :: v in Variables(text) ==> v in MatchesFrom(text, 0)
    ensures forall i, j :: 0 <= i < j < |Variables(text)| ==>
              FirstIndex(MatchesFrom(text, 0), Variables(text)[i]) <
              FirstIndex(MatchesFrom(text, 0), Variables(text)[j])
  {
    DedupDistinct(MatchesFrom(text, 0));
    DedupFirstOccurrenceOrder(MatchesFrom(text, 0));
  }

  // ---------------------------------------------------------------------------
  // Handles
  // ---------------------------------------------------------------------------

  /** The vertical offset of variable handle `k` of `n`: `(k + 1) * 100 / (n + 1)` percent. */
  function Offset(k: nat, n: nat): real {
    ((k + 1) as real) * 100.0 / ((n + 1) as real)
  }

  /** The target handle of variable `variables[k]`. */
  function VariableHandle(nodeId: string, variables: seq<string>, k: nat): Handle
    requires k < |variables|
  {
    Handle(Target, Left, Namespaced(nodeId, variables[k]), Some(Offset(k, |variables|)), variables[k])
  }

  /** The fixed output handle. */
  function OutputHandle(nodeId: string): Handle {
    Handle(Source, Right, Namespaced(nodeId, "output"), None, "")
  }

  /** `generateDynamicHandles`: one target per variable of `fieldValues.text || ''`, then the output. */
  function GenerateDynamicHandles(nodeId: string, values: FieldValues): (r: seq<Handle>)
    ensures |r| == |Variables(Or(Lookup(values, "text"), ""))| + 1
    ensures r[|r| - 1] == OutputHandle(nodeId) && AllNamespaced(r, nodeId)
  {
    var variables := Variables(Or(Lookup(values, "text"), ""));
    seq(|variables|, k requires 0 <= k < |variables| => VariableHandle(nodeId, variables, k))
      + [OutputHandle(nodeId)]
  }

  /**
   * The handles are one target per variable, in variable order, labelled by the
   * variable and with id `${id}-${variable}`, then the single output source last.
   */
  lemma GeneratedHandlesShape(nodeId: string, values: FieldValues)
    ensures var variables := Variables(Lookup(values, "text"));
            var hs := GenerateDynamicHandles(nodeId, values);
            && |hs| == |variables| + 1
            && hs[|variables|] == OutputHandle(nodeId)
            && (forall k :: 0 <= k < |variables| ==>
                  hs[k].handleType == Target && hs[k].position == Left &&
                  hs[k].id == Namespaced(nodeId, variables[k]) && hs[k].labelText == variables[k] &&
                  hs[k].top == Some(Offset(k, |variables|)))
            && CountOf(hs, Source) == 1 && CountOf(hs, Target) == |variables|
  {
    var variables := Variables(Lookup(values, "text"));
    var hs := GenerateDynamicHandles(nodeId, values);
    CountTargetsThenOutput(hs, |variables|);
  }

  lemma {:induction false} CountTargetsThenOutput(hs: seq<Handle>, n: nat)
    requires |hs| == n + 1 && hs[n].handleType == Source
    requires forall k :: 0 <= k < n ==> hs[k].handleType == Target
    ensures CountOf(hs, Source) == 1 && CountOf(hs, Target) == n
    decreases n
  {
    if n > 0 {
      CountTargetsThenOutput(hs[1..], n - 1);
    }
  }

  /** Every variable handle, a lone one included, sits strictly inside the left edge. */
  lemma OffsetInsideEdge(n: nat, k: nat)
    requires k < n
    ensures 0.0 < Offset(k, n) < 100.0
  {
    var d := (n + 1) as real;
    assert Offset(k, n) == ((k + 1) as real) * (100.0 / d);
    assert 100.0 / d > 0.0;
    assert (k + 1) as real < d;
    assert ((k + 1) as real) * (100.0 / d) < d * (100.0 / d);
  }

  /** Variable handles run top to bottom in variable order. */
  lemma OffsetsIncrease(n: nat, j: nat, k: nat)
    requires j < k < n
    ensures Offset(j, n) < Offset(k, n)
  {
    var d := (n + 1) as real;
    assert Offset(j, n) == ((j + 1) as real) * (100.0 / d);
    assert Offset(k, n) == ((k + 1) as real) * (100.0 / d);
    assert 100.0 / d > 0.0;
  }

  /** A missing or empty text yields the output handle alone. */
  lemma EmptyTextOnlyOutput(nodeId: string, values: FieldValues)
    requires !Truthy(Lookup(values, "text"))
    ensures GenerateDynamicHandles(nodeId, values) == [OutputHandle(nodeId)]
  {
    assert MatchesFrom("", 0) == [];
  }

  /**
   * The handle ids are pairwise different unless a variable is named `output`,
   * whose handle then shares its id with the output handle.
   */
  lemma HandleIdsDistinctUnlessOutputVariable(nodeId: string, values: FieldValues)
    ensures var variables := Variables(Lookup(values, "text"));
            Distinct(HandleIds(GenerateDynamicHandles(nodeId, values))) <==> "output" !in variables
  {
    var variables := Variables(Lookup(values, "text"));
    var hs := GenerateDynamicHandles(nodeId, values);
    var roles := variables + ["output"];
    VariablesInFirstOccurrenceOrder(Lookup(values, "text"));
    GeneratedHandlesShape(nodeId, values);
    forall k | 0 <= k < |hs| ensures hs[k].id == Namespaced(nodeId, roles[k]) {
    }
    if "output" !in variables {
      forall i, j | 0 <= i < j < |roles| ensures roles[i] != roles[j] {
        if j == |variables| {
          assert roles[i] in variables;
        }
      }
      RolesGiveDistinctIds(nodeId, hs, roles);
    } else {
      var k :| 0 <= k < |variables| && variables[k] == "output";
      assert HandleIds(hs)[k] == HandleIds(hs)[|variables|];
    }
  }

  // ---------------------------------------------------------------------------
  // Configuration
  // ---------------------------------------------------------------------------

  /** The template used when `data.text` is falsy. */
  const DefaultText := "{{input}}"

  /** The default template declares exactly one variable, `input`. */
  lemma DefaultTemplateDeclaresInput()
    ensures Variables(DefaultText) == ["input"]
  {
    var s := DefaultText;
    assert WordRunEnd(s, 7) == 7;
    assert WordRunEnd(s, 5) == 7;
    assert WordRunEnd(s, 3) == 7;
    assert WordRunEnd(s, 2) == 7;
    assert MatchAt(s, 0);
    assert NextMatch(s, 0) == Some(0);
    assert Captured(s, 0) == "input";
    assert MatchesFrom(s, 9) == [];
    assert MatchesFrom(s, 0) == ["input"];
    assert Dedup(["input"]) == ["input"] by {
      assert ["input"][..0] == [];
    }
  }

  /** The text node's configuration for node `id` with data `data`. */
  function TextConfig(id: string, data: DataRecord): (c: NodeConfig)
    ensures c.title == "Text" && FieldNames(c.fields) == ["text"] && c.renderContent.None?
    ensures c.fields[0].defaultValue == Or(Lookup(data, "text"), DefaultText)
    ensures c.dynamicHandles.Some? &&
            forall values, base :: c.dynamicHandles.value(values, base) == GenerateDynamicHandles(id, values)
  {
    NodeConfig(
      "Text", "/icon-text.png",
      [Field("text", "Text", Some("textarea"), [], Or(Lookup(data, "text"), DefaultText),
             "Enter text with {{variables}}")],
      [OutputHandle(id)],
      false, None,
      Some((values: FieldValues, base: seq<Handle>) => GenerateDynamicHandles(id, values)))
  }

  /**
   * On mount the node's text is `data.text`, or `{{input}}` when that is falsy,
   * and its handles are the ones that text generates.
   */
  lemma TextConfigMounts(id: string, data: DataRecord)
    ensures var config := TextConfig(id, data);
            var values := InitialValues(config.fields, data);
            && values == map["text" := Or(Lookup(data, "text"), DefaultText)]
            && ResolveHandles(config, values) == GenerateDynamicHandles(id, values)
  {
    var config := TextConfig(id, data);
    assert config.fields[..0] == [];
  }
}
