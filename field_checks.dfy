/**
 * The submit-time loop shared by auth.js, forms.js, project_form.js,
 * personal_info_modern.js and user_profile.js: every field is checked in
 * document order, a failure does not stop the others, and the form is
 * valid only when every check passes.
 */
module FieldChecks {
  import opened Wrappers

  /** The position of the first failing verdict, if any. */
  function FirstFailure(verdicts: seq<Option<string>>): (r: Option<nat>)
    ensures r.None? <==> forall k :: 0 <= k < |verdicts| ==> verdicts[k].None?
    ensures r.Some? ==>
      r.value < |verdicts| && verdicts[r.value].Some? &&
      (forall k :: 0 <= k < r.value ==> verdicts[k].None?)
  {
    if verdicts == [] then None
    else if verdicts[0].Some? then Some(0)
    else
      var rest := FirstFailure(verdicts[1..]);
      if rest.None? then None else Some(rest.value + 1)
  }

  /**
   * The loop over the fields: each field's verdict (None when it passes,
   * else its message), whether all passed, and the first failing field.
   */
  method CheckAll<T>(fields: seq<T>, check: T -> Option<string>) returns (allValid: bool, verdicts: seq<Option<string>>, first: Option<nat>)
    ensures |verdicts| == |fields| && forall k :: 0 <= k < |fields| ==> verdicts[k] == check(fields[k])
    ensures allValid <==> forall k :: 0 <= k < |fields| ==> check(fields[k]).None?
    ensures first == FirstFailure(verdicts)
  {
    allValid := true;
    verdicts := [];
    first := None;
    for k := 0 to |fields|
      invariant |verdicts| == k && forall j :: 0 <= j < k ==> verdicts[j] == check(fields[j])
      invariant allValid <==> forall j :: 0 <= j < k ==> check(fields[j]).None?
      invariant first == FirstFailure(verdicts)
    {
      var verdict := check(fields[k]);
      FirstFailureAppend(verdicts, verdict);
      verdicts := verdicts + [verdict];
      if verdict.Some? {
        if allValid {
          first := Some(k);
        }
        allValid := false;
      }
    }
  }

  /** Appending a verdict can only set the first failure when there was none. */
  lemma {:induction false} FirstFailureAppend(vs: seq<Option<string>>, v: Option<string>)
    ensures FirstFailure(vs + [v]) ==
      if FirstFailure(vs).Some? then FirstFailure(vs)
      else if v.Some? then Some(|vs|) else None
  {
    if vs != [] {
      assert (vs + [v])[1..] == vs[1..] + [v];
      FirstFailureAppend(vs[1..], v);
    } else {
      assert [] + [v] == [v];
      assert [v][1..] == [];
    }
  }
}
