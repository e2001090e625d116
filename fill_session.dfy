/**
 * A respondent filling in a form, as the public form page and the
 * builder's live preview both run it: the entered values and the error
 * messages keyed by field id, the step being shown, per-step validation
 * when moving forward, and whole-form validation on submit.
 */
module FillSession {
  import opened Common
  import opened FormModel
  import opened Validator

  /** `formData[id]`, `undefined` when the respondent has not touched the field. */
  function Lookup(data: map<string, Value>, id: string): Value
  {
    if id in data then data[id] else Absent
  }

  /** The message `validateField` gives for a field and its entered value. */
  function FieldError(f: Field, data: map<string, Value>, matches: Matcher): string
  {
    ValidateField(f, Lookup(data, f.id), matches)
  }

  /** `form.steps[i]?.id`: `undefined` when `i` is not a step index. */
  function StepIdAt(form: Form, i: int): Option<string>
  {
    if 0 <= i < |form.steps| then Some(form.steps[i].id) else None
  }

  /**
   * `getFieldsForStep`: every field of a single-step form; in a multi-step
   * form, the fields whose step reference equals the id of step `i`, which
   * for an index outside the step list are the fields without a step.
   */
  function StepFields(form: Form, i: int): (r: seq<Field>)
    ensures !form.isMultiStep ==> r == form.fields
    ensures form.isMultiStep ==> forall f :: f in r <==> f in form.fields && f.stepId == StepIdAt(form, i)
  {
    if !form.isMultiStep then form.fields
    else Filter((f: Field) => f.stepId == StepIdAt(form, i), form.fields)
  }

  /**
   * The error record built by walking `fields` in order and storing the
   * message of every field that fails, under its id.
   */
  function ErrorMap(fields: seq<Field>, data: map<string, Value>, matches: Matcher): map<string, string>
  {
    if fields == [] then map[]
    else
      var rest := ErrorMap(fields[..|fields| - 1], data, matches);
      var f := fields[|fields| - 1];
      var e := FieldError(f, data, matches);
      if e == "" then rest else rest[f.id := e]
  }

  /**
   * An id has an entry in the error record exactly when some field with
   * that id fails, and every entry is a non-empty message.
   */
  lemma {:induction false} ErrorMapKeys(fields: seq<Field>, data: map<string, Value>, matches: Matcher)
    ensures forall id :: id in ErrorMap(fields, data, matches) <==>
      exists i :: 0 <= i < |fields| && fields[i].id == id && FieldError(fields[i], data, matches) != ""
    ensures forall id :: id in ErrorMap(fields, data, matches) ==> ErrorMap(fields, data, matches)[id] != ""
  {
    if fields != [] {
      var init := fields[..|fields| - 1];
      ErrorMapKeys(init, data, matches);
      assert forall i :: 0 <= i < |init| ==> init[i] == fields[i];
    }
  }

  /** With unique field ids, the entry of a failing field is that field's message. */
  lemma {:induction false} ErrorMapValues(fields: seq<Field>, data: map<string, Value>, matches: Matcher)
    requires UniqueFieldIds(fields)
    ensures forall i :: 0 <= i < |fields| && FieldError(fields[i], data, matches) != "" ==>
      fields[i].id in ErrorMap(fields, data, matches)
      && ErrorMap(fields, data, matches)[fields[i].id] == FieldError(fields[i], data, matches)
  {
    if fields != [] {
      var init := fields[..|fields| - 1];
      assert forall i :: 0 <= i < |init| ==> init[i] == fields[i];
      ErrorMapValues(init, data, matches);
    }
  }

  /** The error record is empty exactly when every field passes. */
  lemma ErrorMapEmptyIffValid(fields: seq<Field>, data: map<string, Value>, matches: Matcher)
    ensures ErrorMap(fields, data, matches) == map[] <==>
      forall i :: 0 <= i < |fields| ==> FieldError(fields[i], data, matches) == ""
  {
    ErrorMapKeys(fields, data, matches);
    if ErrorMap(fields, data, matches) != map[] {
      var id :| id in ErrorMap(fields, data, matches);
    }
  }

  /** One more field extends the error record by that field's message, if it has one. */
  lemma ErrorMapSnoc(fields: seq<Field>, i: nat, data: map<string, Value>, matches: Matcher)
    requires i < |fields|
    ensures ErrorMap(fields[..i + 1], data, matches) ==
      if FieldError(fields[i], data, matches) == "" then ErrorMap(fields[..i], data, matches)
      else ErrorMap(fields[..i], data, matches)[fields[i].id := FieldError(fields[i], data, matches)]
  {
    assert fields[..i + 1][..i] == fields[..i];
  }

  /** The `forEach` that collects the messages of the failing fields. */
  method CollectErrors(fields: seq<Field>, data: map<string, Value>, matches: Matcher)
    returns (errs: map<string, string>)
    ensures errs == ErrorMap(fields, data, matches)
  {
    errs := map[];
    var i := 0;
    while i < |fields|
      invariant 0 <= i <= |fields|
      invariant errs == ErrorMap(fields[..i], data, matches)
    {
      var e := FieldError(fields[i], data, matches);
      ErrorMapSnoc(fields, i, data, matches);
      if e != "" {
        errs := errs[fields[i].id := e];
      }
      i := i + 1;
    }
    assert fields[..|fields|] == fields;
  }

  /**
   * In a multi-step form whose every field belongs to one of its steps,
   * every field is checked by some step.
   */
  lemma EveryFieldOnSomeStep(form: Form, f: Field)
    requires form.isMultiStep && f in form.fields
    requires exists i :: 0 <= i < |form.steps| && f.stepId == Some(form.steps[i].id)
    ensures exists i :: 0 <= i < |form.steps| && f in StepFields(form, i)
  {
    var i :| 0 <= i < |form.steps| && f.stepId == Some(form.steps[i].id);
    assert f in StepFields(form, i);
  }

  /**
   * A field of a multi-step form that refers to a step the form does not
   * have is shown and checked on no step, although submit still checks it.
   */
  lemma DanglingFieldOnNoStep(form: Form, f: Field, i: int)
    requires form.isMultiStep && f in form.fields && f.stepId.Some?
    requires forall j :: 0 <= j < |form.steps| ==> f.stepId != Some(form.steps[j].id)
    ensures f !in StepFields(form, i)
  {
  }

  /**
   * Past the last step (which `handleNext` reaches as index -1 when the
   * form has no steps), the step shows exactly the fields without a step.
   */
  lemma StepFieldsOutsideSteps(form: Form, i: int)
    requires form.isMultiStep && !(0 <= i < |form.steps|)
    ensures StepFields(form, i) == Filter((f: Field) => f.stepId.None?, form.fields)
  {
    var p := (f: Field) => f.stepId == StepIdAt(form, i);
    var q := (f: Field) => f.stepId.None?;
    assert forall f :: p(f) == q(f);
    FilterSamePredicate(p, q, form.fields);
  }

  /**
   * The state of one filling session: the form being filled (a saved form
   * on the public page, the form being edited in the preview), the entered
   * values, the messages shown under the fields, the index of the step on
   * screen and whether the form was accepted.
   */
  class Session {
    const form: Form
    const matches: Matcher
    var formData: map<string, Value>
    var errors: map<string, string>
    var currentStep: int
    var isSubmitted: bool

    constructor (form: Form, matches: Matcher)
      ensures this.form == form && this.matches == matches
      ensures formData == map[] && errors == map[] && currentStep == 0 && !isSubmitted
    {
      this.form := form;
      this.matches := matches;
      formData := map[];
      errors := map[];
      currentStep := 0;
      isSubmitted := false;
    }

    /**
     * `handleFieldChange`: store the value; when the id names a field of
     * the form, store its message too (the empty string when it passes).
     */
    method HandleFieldChange(fieldId: string, value: Value)
      modifies this`formData, this`errors
      ensures formData == old(formData)[fieldId := value]
      ensures match Find((f: Field) => f.id == fieldId, form.fields)
        case None => errors == old(errors)
        case Some(f) => errors == old(errors)[fieldId := ValidateField(f, value, matches)]
    {
      formData := formData[fieldId := value];
      var field := Find((f: Field) => f.id == fieldId, form.fields);
      if field.Some? {
        var error := ValidateField(field.value, value, matches);
        errors := errors[fieldId := error];
      }
    }

    /**
     * `validateCurrentStep`: the messages of the failing fields of the
     * current step are merged over the shown ones; the step passes when
     * none of its fields fails.
     */
    method ValidateCurrentStep() returns (ok: bool)
      modifies this`errors
      ensures errors == old(errors) + ErrorMap(StepFields(form, currentStep), formData, matches)
      ensures ok <==> forall f :: f in StepFields(form, currentStep) ==> FieldError(f, formData, matches) == ""
    {
      var stepFields := StepFields(form, currentStep);
      var stepErrors := CollectErrors(stepFields, formData, matches);
      errors := errors + stepErrors;
      ok := |stepErrors| == 0;
      ErrorMapEmptyIffValid(stepFields, formData, matches);
      assert ok <==> stepErrors == map[];
    }

    /** `handleNext`: move one step forward, not past the last, when the current step passes. */
    method HandleNext()
      modifies this`errors, this`currentStep
      ensures errors == old(errors) + ErrorMap(StepFields(form, old(currentStep)), formData, matches)
      ensures var ok := forall f :: f in StepFields(form, old(currentStep)) ==> FieldError(f, formData, matches) == "";
        currentStep == if ok then Min(old(currentStep) + 1, |form.steps| - 1) else old(currentStep)
      ensures 0 <= old(currentStep) < |form.steps| ==> 0 <= currentStep < |form.steps|
    {
      var ok := ValidateCurrentStep();
      if ok {
        currentStep := Min(currentStep + 1, |form.steps| - 1);
      }
    }

    /** `handlePrevious`: move one step back, not before the first. */
    method HandlePrevious()
      modifies this`currentStep
      ensures currentStep == Max(old(currentStep) - 1, 0)
      ensures 0 <= old(currentStep) < |form.steps| ==> 0 <= currentStep < |form.steps|
    {
      currentStep := Max(currentStep - 1, 0);
    }

    /**
     * `handleSubmit`: before the last step of a multi-step form it acts as
     * `handleNext`; otherwise every field of the form is validated, the
     * shown messages are replaced by the new ones, and the form is accepted
     * exactly when there are none.
     */
    method HandleSubmit() returns (accepted: bool)
      modifies this`errors, this`currentStep, this`isSubmitted
      ensures var early := form.isMultiStep && old(currentStep) < |form.steps| - 1;
        if early then
          && !accepted && isSubmitted == old(isSubmitted)
          && errors == old(errors) + ErrorMap(StepFields(form, old(currentStep)), formData, matches)
          && currentStep == (if forall f :: f in StepFields(form, old(currentStep)) ==> FieldError(f, formData, matches) == ""
                             then Min(old(currentStep) + 1, |form.steps| - 1) else old(currentStep))
        else
          && errors == ErrorMap(form.fields, formData, matches)
          && currentStep == old(currentStep)
          && (accepted <==> forall i :: 0 <= i < |form.fields| ==> FieldError(form.fields[i], formData, matches) == "")
          && isSubmitted == (old(isSubmitted) || accepted)
    {
      if form.isMultiStep && currentStep < |form.steps| - 1 {
        HandleNext();
        accepted := false;
        return;
      }
      var allErrors := CollectErrors(form.fields, formData, matches);
      errors := allErrors;
      ErrorMapEmptyIffValid(form.fields, formData, matches);
      accepted := |allErrors| == 0;
      assert accepted <==> allErrors == map[];
      if accepted {
        isSubmitted := true;
      }
    }
  }

  /** `savedForms.find((f) => f.id === formId)`: the public page opens a saved form by id. */
  method OpenSession(savedForms: seq<Form>, formId: string, matches: Matcher) returns (s: Option<Session>)
    ensures LookupForm(savedForms, formId).None? <==> s.None?
    ensures s.Some? ==> (fresh(s.value) && s.value.form == LookupForm(savedForms, formId).value
      && s.value.form.id == formId && s.value.formData == map[] && s.value.currentStep == 0)
  {
    var found := LookupForm(savedForms, formId);
    if found.None? {
      return None;
    }
    var session := new Session(found.value, matches);
    s := Some(session);
  }
}
