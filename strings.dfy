/**
 * The few JavaScript string operations the node configurations rely on:
 * truthiness and `||` on strings, the `${id}-${role}` handle-id template,
 * and `String.prototype.replace` with a string pattern (first occurrence only).
 */
module Strings {

  import opened Wrappers

  /** A string is truthy in JavaScript exactly when it is not empty. */
  predicate Truthy(s: string) {
    s != ""
  }

  /** `a || b` on strings: `a` when it is truthy, otherwise `b`. */
  function Or(a: string, b: string): (r: string)
    ensures Truthy(a) ==> r == a
    ensures !Truthy(a) ==> r == b
  {
    if Truthy(a) then a else b
  }

  /** `p` is a prefix of `s`. */
  predicate IsPrefix(p: string, s: string) {
    |p| <= |s| && s[..|p|] == p
  }

  /** `pat` occurs in `s` starting at index `i`. */
  predicate OccursAt(s: string, pat: string, i: nat) {
    i + |pat| <= |s| && s[i..i + |pat|] == pat
  }

  /** The handle-id template `${nodeId}-${role}` used by every node configuration. */
  function Namespaced(nodeId: string, role: string): (r: string)
    ensures IsPrefix(nodeId + "-", r)
    ensures |r| == |nodeId| + 1 + |role|
  {
    nodeId + "-" + role
  }

  /** Two handle ids of one node are equal only when their roles are. */
  lemma NamespacedInjective(nodeId: string, a: string, b: string)
    requires Namespaced(nodeId, a) == Namespaced(nodeId, b)
    ensures a == b
  {
    var n := |nodeId| + 1;
    assert Namespaced(nodeId, a)[n..] == a;
    assert Namespaced(nodeId, b)[n..] == b;
  }

  /** `s.indexOf(pat)` from position `from`: the leftmost occurrence at or after `from`. */
  function IndexOfFrom(s: string, pat: string, from: nat): (r: Option<nat>)
    requires from <= |s|
    ensures r.Some? ==> from <= r.value && OccursAt(s, pat, r.value)
    ensures r.Some? ==> forall j :: from <= j < r.value ==> !OccursAt(s, pat, j)
    ensures r.None? ==> forall j :: from <= j <= |s| ==> !OccursAt(s, pat, j)
    decreases |s| - from
  {
    if OccursAt(s, pat, from) then Some(from)
    else if from == |s| then None
    else IndexOfFrom(s, pat, from + 1)
  }

  /** `s.indexOf(pat)`. */
  function IndexOf(s: string, pat: string): (r: Option<nat>)
    ensures r.Some? ==> OccursAt(s, pat, r.value) && forall j :: 0 <= j < r.value ==> !OccursAt(s, pat, j)
    ensures r.None? ==> forall j :: 0 <= j <= |s| ==> !OccursAt(s, pat, j)
  {
    IndexOfFrom(s, pat, 0)
  }

  /**
   * `s.replace(pat, rep)` with a string pattern: only the first occurrence of
   * `pat` is replaced; when there is none, `s` is returned unchanged.
   * (`rep` is used literally; the replacements in this model hold no `$`.)
   */
  function ReplaceFirst(s: string, pat: string, rep: string): (r: string)
    ensures IndexOf(s, pat).None? ==> r == s
    ensures IndexOf(s, pat).Some? ==>
              var i := IndexOf(s, pat).value;
              r == s[..i] + rep + s[i + |pat|..]
  {
    match IndexOf(s, pat)
    case None => s
    case Some(i) => s[..i] + rep + s[i + |pat|..]
  }

  /** A string that contains `pat` nowhere is left unchanged by `replace`. */
  lemma ReplaceFirstAbsent(s: string, pat: string, rep: string)
    requires forall j :: 0 <= j <= |s| ==> !OccursAt(s, pat, j)
    ensures ReplaceFirst(s, pat, rep) == s
  {
  }

  /**
   * When `s` starts with `pat`, `replace` swaps that prefix for `rep`
   * and keeps the rest of `s`, later occurrences included.
   */
  lemma {:induction false} ReplaceFirstPrefix(s: string, pat: string, rep: string)
    requires IsPrefix(pat, s)
    ensures ReplaceFirst(s, pat, rep) == rep + s[|pat|..]
  {
    assert OccursAt(s, pat, 0);
    assert IndexOf(s, pat) == Some(0);
  }
}
