/**
 * The step manager of the builder: the draft of a new step, the step being
 * edited and its edit buffer, the guarded calls into the store, and the
 * per-step field count it shows.
 */
module StepManager {
  import opened Common
  import opened FormModel
  import opened JsText
  import opened Store
  import opened Canvas
  import opened FillSession

  /** `{ title, description }` as the inputs hold them. */
  datatype StepDraft = StepDraft(title: string, description: string)

  const BlankDraft := StepDraft("", "")

  /** The record `addStep` receives: the description is passed as typed, even when empty. */
  function DraftStep(d: StepDraft): Step
  {
    Step("", d.title, Some(d.description))
  }

  /** The update `updateStep` receives from the edit buffer. */
  function DraftPatch(d: StepDraft): StepPatch
  {
    StepPatch(Some(d.title), Some(Some(d.description)))
  }

  /** The edit buffer seeded from a step: its title and its description or `""`. */
  function EditBuffer(s: Step): StepDraft
  {
    StepDraft(s.title, OrEmpty(s.description))
  }

  /**
   * Opening a step for editing and saving without changes gives the step
   * back, except that a missing description becomes the empty one.
   */
  lemma EditWithoutChangeKeepsStep(s: Step)
    ensures s.description.Some? ==> MergeStep(s, DraftPatch(EditBuffer(s))) == s
    ensures s.description.None? ==> MergeStep(s, DraftPatch(EditBuffer(s))) == s.(description := Some(""))
  {
  }

  /** `getFieldCountForStep`: how many fields reference the step. */
  function FieldCountForStep(form: Form, stepId: string): nat
  {
    |AssignedTo(form.fields, stepId)|
  }

  /**
   * In a multi-step form the count shown for step `i` is the size of its
   * canvas block and the number of fields its filler step shows.
   */
  lemma FieldCountMatchesCanvas(form: Form, i: nat)
    requires form.isMultiStep && i < |form.steps|
    ensures FieldCountForStep(form, form.steps[i].id) == |FieldsByStep(form)[i].fields|
    ensures FieldCountForStep(form, form.steps[i].id) == |StepFields(form, i)|
  {
    StepGroupFields(form, i);
    CanvasMatchesFillerStep(form, i);
  }

  /** After `removeStep`, no field is counted for the removed step. */
  lemma {:induction false} NoFieldCountedAfterRemove(form: Form, id: string)
    ensures FieldCountForStep(form.(fields := ClearStepRefs(form.fields, id)), id) == 0
  {
    var cleared := ClearStepRefs(form.fields, id);
    FilterNone((f: Field) => f.stepId == Some(id), cleared);
  }

  /** Deleting a step is enabled only while the form has more than one step. */
  predicate StepDeletionEnabled(form: Form)
  {
    |form.steps| > 1
  }

  /** With unique step ids, deleting a step while deletion is enabled leaves at least one. */
  lemma DeletionKeepsAStep(form: Form, id: string)
    requires UniqueStepIds(form.steps) && StepDeletionEnabled(form)
    ensures |RemoveSteps(form.steps, id)| >= 1
  {
    var kept := if form.steps[0].id != id then form.steps[0] else form.steps[1];
    assert kept.id != id by {
      if form.steps[0].id == id {
        assert form.steps[0].id != form.steps[1].id;
      }
    }
    assert kept in RemoveSteps(form.steps, id);
  }

  /** The manager's own state. */
  class Manager {
    var editingStep: Option<string>
    var newStep: StepDraft
    var editData: StepDraft

    constructor ()
      ensures editingStep == None && newStep == BlankDraft && editData == BlankDraft
    {
      editingStep := None;
      newStep := BlankDraft;
      editData := BlankDraft;
    }

    /**
     * `handleAddStep`: nothing when the title is blank after trimming;
     * otherwise the draft is added as a step under the fresh id and the
     * inputs are cleared.
     */
    method HandleAddStep(store: FormStore, newId: string, now: int)
      requires store.Valid()
      requires store.currentForm.Some? ==> !StepIdInUse(store.currentForm.value.steps, newId)
      modifies this`newStep, store`currentForm
      ensures store.Valid()
      ensures Trim(old(newStep).title) == "" ==> newStep == old(newStep) && store.currentForm == old(store.currentForm)
      ensures Trim(old(newStep).title) != "" ==> newStep == BlankDraft
      ensures Trim(old(newStep).title) != "" && old(store.currentForm).None? ==> store.currentForm == None
      ensures Trim(old(newStep).title) != "" && old(store.currentForm).Some? ==>
        store.currentForm == Some(old(store.currentForm).value.(
          steps := AppendStep(old(store.currentForm).value.steps, DraftStep(old(newStep)), newId), updatedAt := now))
    {
      if Trim(newStep.title) == "" {
        return;
      }
      store.AddStep(DraftStep(newStep), newId, now);
      newStep := BlankDraft;
    }

    /** `handleEditStep`: enter edit mode for an existing step, seeding the buffer from it. */
    method HandleEditStep(store: FormStore, stepId: string)
      requires store.currentForm.Some?
      modifies this`editData, this`editingStep
      ensures match Find((s: Step) => s.id == stepId, store.currentForm.value.steps)
        case None => editData == old(editData) && editingStep == old(editingStep)
        case Some(s) => editData == EditBuffer(s) && editingStep == Some(stepId)
    {
      var step := Find((s: Step) => s.id == stepId, store.currentForm.value.steps);
      if step.Some? {
        editData := EditBuffer(step.value);
        editingStep := Some(stepId);
      }
    }

    /**
     * `handleSaveEdit`: nothing when no step is being edited (an empty id
     * counts as none) or the title is blank after trimming; otherwise the
     * buffer is merged into the step and edit mode ends.
     */
    method HandleSaveEdit(store: FormStore, now: int)
      requires store.Valid()
      modifies this`editData, this`editingStep, store`currentForm
      ensures store.Valid()
      ensures var idle := old(editingStep).None? || old(editingStep) == Some("") || Trim(old(editData).title) == "";
        if idle then
          editData == old(editData) && editingStep == old(editingStep) && store.currentForm == old(store.currentForm)
        else
          && editData == BlankDraft && editingStep == None
          && (old(store.currentForm).None? ==> store.currentForm == None)
          && (old(store.currentForm).Some? ==> store.currentForm == Some(old(store.currentForm).value.(
               steps := UpdateSteps(old(store.currentForm).value.steps, old(editingStep).value, DraftPatch(old(editData))),
               updatedAt := now)))
    {
      if editingStep.None? || editingStep == Some("") || Trim(editData.title) == "" {
        return;
      }
      store.UpdateStep(editingStep.value, DraftPatch(editData), now);
      editingStep := None;
      editData := BlankDraft;
    }

    /** `handleCancelEdit`: leave edit mode and clear the buffer; the form is untouched. */
    method HandleCancelEdit()
      modifies this`editData, this`editingStep
      ensures editingStep == None && editData == BlankDraft
    {
      editingStep := None;
      editData := BlankDraft;
    }
  }
}
