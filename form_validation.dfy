/**
 * backend/static/js/form_validation.js: the keydown and paste guards that
 * keep a field within its `maxlength`, the submit-time `validateForm` and
 * its `getMinimumLength` table.  Lengths are counted in characters.
 */
module FormValidation {
  import opened Text
  import opened Wrappers

  // ------------------------------------------------------------ keydown / paste guards

  const NavigationKeys: seq<string> := ["Backspace", "Delete", "ArrowLeft", "ArrowRight", "ArrowUp", "ArrowDown", "Tab"]

  /** The keydown handler cancels the key iff the field is full and the key is not a navigation or deletion key. */
  function KeydownPrevented(length: nat, maxLength: nat, key: string): (b: bool)
    ensures key in NavigationKeys ==> !b
    ensures b ==> length >= maxLength
  {
    length >= maxLength && key !in NavigationKeys
  }

  /** The paste handler cancels the paste iff it would take the field past its limit. */
  function PastePrevented(length: nat, pastedLength: nat, maxLength: nat): (b: bool)
    ensures !b ==> length + pastedLength <= maxLength
    ensures pastedLength == 0 && length <= maxLength ==> !b
  {
    length + pastedLength > maxLength
  }

  /** What the user does to a field: type one character, press a navigation/deletion key, or paste. */
  datatype Edit = Type(c: char) | Press(key: string) | Paste(text: string)

  /**
   * The field's value after an edit that the guards let through.  Typing
   * appends, a deletion key removes the last character, other navigation
   * keys change nothing, a paste appends; a cancelled edit changes nothing.
   */
  function ApplyEdit(value: string, e: Edit, maxLength: nat): (r: string)
    ensures e.Type? && KeydownPrevented(|value|, maxLength, [e.c]) ==> r == value
    ensures e.Paste? && PastePrevented(|value|, |e.text|, maxLength) ==> r == value
  {
    match e
    case Type(c) => if KeydownPrevented(|value|, maxLength, [c]) then value else value + [c]
    case Press(key) =>
      if key !in NavigationKeys then value
      else if (key == "Backspace" || key == "Delete") && value != [] then value[..|value| - 1]
      else value
    case Paste(text) => if PastePrevented(|value|, |text|, maxLength) then value else value + text
  }

  function ApplyEdits(value: string, es: seq<Edit>, maxLength: nat): (r: string)
    ensures es == [] ==> r == value
    ensures (forall k :: 0 <= k < |es| ==> !es[k].Press?) ==> value <= r
    decreases |es|
  {
    if es == [] then value else ApplyEdits(ApplyEdit(value, es[0], maxLength), es[1..], maxLength)
  }

  /** A field that starts within its limit stays within it, whatever is typed or pasted. */
  lemma {:induction false} EditsKeepLimit(value: string, es: seq<Edit>, maxLength: nat)
    requires |value| <= maxLength
    ensures |ApplyEdits(value, es, maxLength)| <= maxLength
    decreases |es|
  {
    if es != [] {
      var v := ApplyEdit(value, es[0], maxLength);
      if es[0].Type? {
        assert [es[0].c] !in NavigationKeys by {
          assert forall k :: 0 <= k < |NavigationKeys| ==> |NavigationKeys[k]| > 1;
        }
      }
      EditsKeepLimit(v, es[1..], maxLength);
    }
  }

  // ------------------------------------------------------------ getMinimumLength

  /** The minimum-length table, in its declaration order. */
  const MinLengths: seq<(string, nat)> := [
    ("description", 10), ("content", 30), ("summary", 30), ("job_title", 3), ("company_name", 2),
    ("institution", 3), ("degree", 3), ("certification_name", 3), ("issuer", 2)]

  /** The value of the first key, from position `from` on, that the lowercased name contains. */
  function MinimumLengthFrom(lowered: string, from: nat): (r: Option<nat>)
    requires from <= |MinLengths|
    ensures r.None? ==> forall k :: from <= k < |MinLengths| ==> !Contains(lowered, MinLengths[k].0)
    ensures r.Some? ==>
      (exists k :: from <= k < |MinLengths| && Contains(lowered, MinLengths[k].0) &&
                   MinLengths[k].1 == r.value && forall j :: from <= j < k ==> !Contains(lowered, MinLengths[j].0))
    decreases |MinLengths| - from
  {
    if from == |MinLengths| then None
    else if Contains(lowered, MinLengths[from].0) then Some(MinLengths[from].1)
    else MinimumLengthFrom(lowered, from + 1)
  }

  /** `getMinimumLength`: null is `None`. */
  function GetMinimumLength(fieldName: string): (r: Option<nat>)
    ensures r.None? ==> forall k :: 0 <= k < |MinLengths| ==> !Contains(Lower(fieldName), MinLengths[k].0)
    ensures r.Some? ==>
      (exists k :: 0 <= k < |MinLengths| && Contains(Lower(fieldName), MinLengths[k].0) &&
                   MinLengths[k].1 == r.value && forall j :: 0 <= j < k ==> !Contains(Lower(fieldName), MinLengths[j].0))
  {
    MinimumLengthFrom(Lower(fieldName), 0)
  }

  /** Table order decides: a name containing "description" gets 10 even when it also names a certification. */
  lemma DescriptionComesFirst(fieldName: string)
    requires Contains(Lower(fieldName), "description")
    ensures GetMinimumLength(fieldName) == Some(10)
  {
  }

  // ------------------------------------------------------------ validateForm

  /** An element with a `maxlength` attribute. */
  datatype LimitedField = LimitedField(name: string, id: string, value: string, maxLength: nat)

  /** `element.name || element.id || 'field'`. */
  function FieldName(f: LimitedField): (n: string)
    ensures n != []
    ensures f.name != [] ==> n == f.name
    ensures f.name == [] && f.id != [] ==> n == f.id
  {
    if f.name != [] then f.name else if f.id != [] then f.id else "field"
  }

  function TooLongMessage(f: LimitedField): string {
    FieldName(f) + ": Cannot exceed " + NatStr(f.maxLength) + " characters"
  }

  function TooShortMessage(f: LimitedField, min: nat): string {
    FieldName(f) + ": Must be at least " + NatStr(min) + " characters"
  }

  /** Whether the field is under its table minimum (never for an empty value). */
  predicate TooShort(f: LimitedField) {
    var min := GetMinimumLength(FieldName(f));
    min.Some? && min.value > 0 && |f.value| > 0 && |f.value| < min.value
  }

  predicate FieldOk(f: LimitedField) { |f.value| <= f.maxLength && !TooShort(f) }

  /** The errors one element contributes, in push order. */
  function FieldErrors(f: LimitedField): (r: seq<string>)
    ensures r == [] <==> FieldOk(f)
    ensures f.value == [] ==> |r| <= 1
  {
    (if |f.value| > f.maxLength then [TooLongMessage(f)] else []) +
    (if TooShort(f) then [TooShortMessage(f, GetMinimumLength(FieldName(f)).value)] else [])
  }

  /** `f` applied to each element, the results concatenated in order. */
  function ConcatMap<A, B>(f: A -> seq<B>, xs: seq<A>): seq<B> {
    if xs == [] then [] else ConcatMap(f, xs[..|xs| - 1]) + f(xs[|xs| - 1])
  }

  lemma {:induction false} ConcatMapEmpty<A, B>(f: A -> seq<B>, xs: seq<A>)
    ensures ConcatMap(f, xs) == [] <==> forall k :: 0 <= k < |xs| ==> f(xs[k]) == []
  {
    if xs != [] {
      var init := xs[..|xs| - 1];
      ConcatMapEmpty(f, init);
      assert forall k :: 0 <= k < |init| ==> init[k] == xs[k];
    }
  }

  function AllErrors(fs: seq<LimitedField>): (r: seq<string>)
    ensures r == [] <==> forall k :: 0 <= k < |fs| ==> FieldOk(fs[k])
  {
    ConcatMapEmpty(FieldErrors, fs);
    ConcatMap(FieldErrors, fs)
  }

  /** `validateForm`: each element's errors, in document order. */
  method ValidateForm(fields: seq<LimitedField>) returns (errors: seq<string>)
    ensures errors == AllErrors(fields)
  {
    errors := [];
    for i := 0 to |fields|
      invariant errors == ConcatMap(FieldErrors, fields[..i])
    {
      assert fields[..i + 1][..i] == fields[..i];
      errors := errors + FieldErrors(fields[i]);
    }
    assert fields[..|fields|] == fields;
  }

  /** The submit is blocked exactly when some element breaks its maximum or minimum. */
  lemma SubmitBlockedIff(fs: seq<LimitedField>)
    ensures AllErrors(fs) != [] <==> exists k :: 0 <= k < |fs| && !FieldOk(fs[k])
  {
    ConcatMapEmpty(FieldErrors, fs);
    if AllErrors(fs) != [] {
      var k :| 0 <= k < |fs| && FieldErrors(fs[k]) != [];
      assert !FieldOk(fs[k]);
    }
  }

  /** An empty value never raises the minimum-length error. */
  lemma EmptyNeverTooShort(f: LimitedField)
    requires f.value == []
    ensures !TooShort(f)
    ensures FieldErrors(f) == []
  {
  }
}
