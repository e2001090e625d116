/**
 * The form-builder store of lib/store.ts: one state object whose fields
 * each action replaces.  Ids (`Date.now()`-based in the original) and
 * timestamps are parameters; the page origin of a shareable link too.
 */
module Store {
  import opened Common
  import opened FormModel

  /**
   * `splice(from, 1)` followed by `splice(to, 0, removed)` on a copy of
   * `s`, performed in place on an array.
   */
  method SpliceMove<T>(s: seq<T>, from: nat, to: nat) returns (r: seq<T>)
    requires from < |s| && to < |s|
    ensures r == Move(s, from, to)
  {
    var a := new T[|s|](i requires 0 <= i < |s| => s[i]);
    var removed := a[from];
    if from < to {
      var i := from;
      while i < to
        invariant from <= i <= to
        invariant forall k :: 0 <= k < from ==> a[k] == s[k]
        invariant forall k :: from <= k < i ==> a[k] == s[k + 1]
        invariant forall k :: i <= k < |s| ==> a[k] == s[k]
      {
        a[i] := a[i + 1];
        i := i + 1;
      }
    } else {
      var i := from;
      while i > to
        invariant to <= i <= from
        invariant forall k :: 0 <= k <= i ==> a[k] == s[k]
        invariant forall k :: i < k <= from ==> a[k] == s[k - 1]
        invariant forall k :: from < k < |s| ==> a[k] == s[k]
      {
        a[i] := a[i - 1];
        i := i - 1;
      }
    }
    a[to] := removed;
    r := a[..];
    assert forall k :: 0 <= k < |s| ==> r[k] == s[MoveSource(from, to, k)];
    MoveExtensional(s, from, to, r);
  }

  class FormStore {
    var currentForm: Option<Form>
    var selectedFieldId: Option<string>
    var savedForms: seq<Form>
    var templates: seq<FormTemplate>

    /** Ids are unique in the current form, among saved forms and among templates. */
    ghost predicate Valid()
      reads this
    {
      && (currentForm.Some? ==> WellFormed(currentForm.value))
      && UniqueFormIds(savedForms)
      && (forall i :: 0 <= i < |savedForms| ==> WellFormed(savedForms[i]))
      && UniqueTemplateIds(templates)
      && (forall i :: 0 <= i < |templates| ==> ShapeWellFormed(templates[i].form))
    }

    /** The initial state: no form, no selection, nothing saved, the two default templates. */
    constructor ()
      ensures Valid()
      ensures currentForm == None && selectedFieldId == None
      ensures savedForms == [] && templates == DefaultTemplates()
    {
      currentForm := None;
      selectedFieldId := None;
      savedForms := [];
      templates := DefaultTemplates();
    }

    /** `createNewForm`: a fresh untitled form replaces the current one; the selection is cleared. */
    method CreateNewForm(newId: string, now: int)
      requires Valid()
      modifies this`currentForm, this`selectedFieldId
      ensures Valid()
      ensures currentForm == Some(NewForm(newId, now)) && selectedFieldId == None
    {
      currentForm := Some(NewForm(newId, now));
      selectedFieldId := None;
    }

    /** `updateForm`: merges title and description; nothing happens without a current form. */
    method UpdateForm(u: FormPatch, now: int)
      requires Valid()
      modifies this`currentForm
      ensures Valid()
      ensures old(currentForm).None? ==> currentForm == None
      ensures old(currentForm).Some? ==> currentForm == Some(PatchForm(old(currentForm).value, u, now))
    {
      if currentForm.None? {
        return;
      }
      currentForm := Some(PatchForm(currentForm.value, u, now));
    }

    /** `addField`: appends the draft under the fresh id `newId`. */
    method AddField(draft: Field, newId: string, now: int)
      requires Valid()
      requires currentForm.Some? ==> !FieldIdInUse(currentForm.value.fields, newId)
      modifies this`currentForm
      ensures Valid()
      ensures old(currentForm).None? ==> currentForm == None
      ensures old(currentForm).Some? ==> currentForm == Some(old(currentForm).value.(
        fields := AppendField(old(currentForm).value.fields, draft, newId), updatedAt := now))
    {
      if currentForm.None? {
        return;
      }
      var form := currentForm.value;
      AppendFieldSpec(form.fields, draft, newId);
      currentForm := Some(form.(fields := AppendField(form.fields, draft, newId), updatedAt := now));
    }

    /** `updateField`: merges `u` into the field(s) with id `fieldId`. */
    method UpdateField(fieldId: string, u: FieldPatch, now: int)
      requires Valid()
      modifies this`currentForm
      ensures Valid()
      ensures old(currentForm).None? ==> currentForm == None
      ensures old(currentForm).Some? ==> currentForm == Some(old(currentForm).value.(
        fields := UpdateFields(old(currentForm).value.fields, fieldId, u), updatedAt := now))
    {
      if currentForm.None? {
        return;
      }
      var form := currentForm.value;
      UpdateFieldsSpec(form.fields, fieldId, u);
      currentForm := Some(form.(fields := UpdateFields(form.fields, fieldId, u), updatedAt := now));
    }

    /**
     * `removeField`: drops the field(s) with id `fieldId` and clears the
     * selection, whichever field was selected.
     */
    method RemoveField(fieldId: string, now: int)
      requires Valid()
      modifies this`currentForm, this`selectedFieldId
      ensures Valid()
      ensures old(currentForm).None? ==> currentForm == None && selectedFieldId == old(selectedFieldId)
      ensures old(currentForm).Some? ==> selectedFieldId == None && currentForm == Some(old(currentForm).value.(
        fields := RemoveFields(old(currentForm).value.fields, fieldId), updatedAt := now))
    {
      if currentForm.None? {
        return;
      }
      var form := currentForm.value;
      RemoveFieldsSpec(form.fields, fieldId);
      currentForm := Some(form.(fields := RemoveFields(form.fields, fieldId), updatedAt := now));
      selectedFieldId := None;
    }

    /** `reorderFields`: moves the field at `startIndex` so that it ends at `endIndex`. */
    method ReorderFields(startIndex: int, endIndex: int, now: int)
      requires Valid()
      requires currentForm.Some? ==> 0 <= startIndex < |currentForm.value.fields| && 0 <= endIndex < |currentForm.value.fields|
      modifies this`currentForm
      ensures Valid()
      ensures old(currentForm).None? ==> currentForm == None
      ensures old(currentForm).Some? ==> currentForm == Some(old(currentForm).value.(
        fields := Move(old(currentForm).value.fields, startIndex, endIndex), updatedAt := now))
    {
      if currentForm.None? {
        return;
      }
      var form := currentForm.value;
      var fields := SpliceMove(form.fields, startIndex, endIndex);
      MoveKeepsUniqueFieldIds(form.fields, startIndex, endIndex);
      currentForm := Some(form.(fields := fields, updatedAt := now));
    }

    /** `selectField` */
    method SelectField(fieldId: Option<string>)
      requires Valid()
      modifies this`selectedFieldId
      ensures Valid()
      ensures selectedFieldId == fieldId
    {
      selectedFieldId := fieldId;
    }

    /** `saveForm`: upserts the current form into the saved forms by id. */
    method SaveForm()
      requires Valid()
      modifies this`savedForms
      ensures Valid()
      ensures old(currentForm).None? ==> savedForms == old(savedForms)
      ensures old(currentForm).Some? ==> savedForms == Upsert(old(savedForms), currentForm.value)
      ensures currentForm.Some? ==> LookupForm(savedForms, currentForm.value.id) == currentForm
    {
      if currentForm.None? {
        return;
      }
      UpsertSpec(savedForms, currentForm.value);
      LoadAfterSave(savedForms, currentForm.value);
      forall i | 0 <= i < |Upsert(savedForms, currentForm.value)|
        ensures WellFormed(Upsert(savedForms, currentForm.value)[i])
      {
        var r := Upsert(savedForms, currentForm.value);
        if r[i] != currentForm.value {
          assert r[i] in savedForms;
        }
      }
      savedForms := Upsert(savedForms, currentForm.value);
    }

    /** `loadForm`: makes the saved form with that id current; an unknown id changes nothing. */
    method LoadForm(formId: string)
      requires Valid()
      modifies this`currentForm, this`selectedFieldId
      ensures Valid()
      ensures LookupForm(savedForms, formId).None? ==>
        currentForm == old(currentForm) && selectedFieldId == old(selectedFieldId)
      ensures LookupForm(savedForms, formId).Some? ==>
        currentForm == LookupForm(savedForms, formId) && selectedFieldId == None
    {
      var found := LookupForm(savedForms, formId);
      if found.Some? {
        currentForm := found;
        selectedFieldId := None;
      }
    }

    /** `addStep`: appends the draft under the fresh id `newId`. */
    method AddStep(draft: Step, newId: string, now: int)
      requires Valid()
      requires currentForm.Some? ==> !StepIdInUse(currentForm.value.steps, newId)
      modifies this`currentForm
      ensures Valid()
      ensures old(currentForm).None? ==> currentForm == None
      ensures old(currentForm).Some? ==> currentForm == Some(old(currentForm).value.(
        steps := AppendStep(old(currentForm).value.steps, draft, newId), updatedAt := now))
    {
      if currentForm.None? {
        return;
      }
      var form := currentForm.value;
      AppendStepSpec(form.steps, draft, newId);
      currentForm := Some(form.(steps := AppendStep(form.steps, draft, newId), updatedAt := now));
    }

    /** `updateStep`: merges `u` into the step(s) with id `stepId`. */
    method UpdateStep(stepId: string, u: StepPatch, now: int)
      requires Valid()
      modifies this`currentForm
      ensures Valid()
      ensures old(currentForm).None? ==> currentForm == None
      ensures old(currentForm).Some? ==> currentForm == Some(old(currentForm).value.(
        steps := UpdateSteps(old(currentForm).value.steps, stepId, u), updatedAt := now))
    {
      if currentForm.None? {
        return;
      }
      var form := currentForm.value;
      UpdateStepsSpec(form.steps, stepId, u);
      currentForm := Some(form.(steps := UpdateSteps(form.steps, stepId, u), updatedAt := now));
    }

    /** `removeStep`: removes the step and unassigns the fields that referenced it. */
    method RemoveStep(stepId: string, now: int)
      requires Valid()
      modifies this`currentForm
      ensures Valid()
      ensures old(currentForm).None? ==> currentForm == None
      ensures old(currentForm).Some? ==> currentForm == Some(old(currentForm).value.(
        steps := RemoveSteps(old(currentForm).value.steps, stepId),
        fields := ClearStepRefs(old(currentForm).value.fields, stepId),
        updatedAt := now))
    {
      if currentForm.None? {
        return;
      }
      var form := currentForm.value;
      RemoveStepSpec(form, stepId);
      currentForm := Some(form.(steps := RemoveSteps(form.steps, stepId),
                                fields := ClearStepRefs(form.fields, stepId),
                                updatedAt := now));
    }

    /** `toggleMultiStep` */
    method ToggleMultiStepMode(now: int)
      requires Valid()
      modifies this`currentForm
      ensures Valid()
      ensures old(currentForm).None? ==> currentForm == None
      ensures old(currentForm).Some? ==> currentForm == Some(ToggleMultiStep(old(currentForm).value, now))
    {
      if currentForm.None? {
        return;
      }
      ToggleMultiStepSpec(currentForm.value, now);
      currentForm := Some(ToggleMultiStep(currentForm.value, now));
    }

    /** `saveAsTemplate`: appends a snapshot of the current form under the fresh id `templateId`. */
    method SaveAsTemplate(name: string, description: string, templateId: string)
      requires Valid()
      requires currentForm.Some? ==> forall i :: 0 <= i < |templates| ==> templates[i].id != templateId
      modifies this`templates
      ensures Valid()
      ensures old(currentForm).None? ==> templates == old(templates)
      ensures old(currentForm).Some? ==>
        templates == old(templates) + [Snapshot(currentForm.value, templateId, name, description)]
    {
      if currentForm.None? {
        return;
      }
      templates := templates + [Snapshot(currentForm.value, templateId, name, description)];
    }

    /**
     * `loadTemplate`: a new form built from the template with that id becomes
     * current and the selection is cleared; an unknown id changes nothing.
     */
    method LoadTemplate(templateId: string, newFormId: string, now: int)
      requires Valid()
      modifies this`currentForm, this`selectedFieldId
      ensures Valid()
      ensures LookupTemplate(templates, templateId).None? ==>
        currentForm == old(currentForm) && selectedFieldId == old(selectedFieldId)
      ensures LookupTemplate(templates, templateId).Some? ==>
        currentForm == Some(Instantiate(LookupTemplate(templates, templateId).value, newFormId, now))
        && selectedFieldId == None
    {
      var found := LookupTemplate(templates, templateId);
      if found.None? {
        return;
      }
      currentForm := Some(Instantiate(found.value, newFormId, now));
      selectedFieldId := None;
    }

    /**
     * `generateShareableLink`: saves the current form and returns
     * `<origin>/preview/<form id>`, under which the saved form can be looked
     * up; without a current form the link is empty and nothing is saved.
     */
    method GenerateShareableLink(origin: string) returns (link: string)
      requires Valid()
      modifies this`savedForms
      ensures Valid()
      ensures old(currentForm).None? ==> link == "" && savedForms == old(savedForms)
      ensures old(currentForm).Some? ==>
        && link == origin + "/preview/" + currentForm.value.id
        && savedForms == Upsert(old(savedForms), currentForm.value)
        && LookupForm(savedForms, currentForm.value.id) == currentForm
    {
      if currentForm.None? {
        return "";
      }
      SaveForm();
      link := origin + "/preview/" + currentForm.value.id;
    }
  }
}
