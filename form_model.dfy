/**
 * The form document of lib/store.ts: field, step, form and template records,
 * the partial-update records the store merges in with object spread, and
 * the pure document transformations each store action applies.  The store
 * class itself (module Store) assigns these results to its fields.
 */
module FormModel {
  import opened Common

  /** The nine values of `FormField.type`. */
  datatype FieldType = Text | Textarea | Select | Checkbox | Radio | Date | Email | Phone | Number

  /** `FormField.validation`; every attribute is optional. */
  datatype Validation = Validation(minLength: Option<int>, maxLength: Option<int>, pattern: Option<string>)

  datatype Field = Field(
    id: string,
    fieldType: FieldType,
    labelText: string,
    placeholder: Option<string>,
    required: bool,
    helpText: Option<string>,
    options: Option<seq<string>>,
    validation: Option<Validation>,
    stepId: Option<string>)

  datatype Step = Step(id: string, title: string, description: Option<string>)

  /** Timestamps are milliseconds since the epoch. */
  datatype Form = Form(
    id: string,
    title: string,
    description: Option<string>,
    fields: seq<Field>,
    steps: seq<Step>,
    isMultiStep: bool,
    createdAt: int,
    updatedAt: int)

  /** `Omit<Form, "id" | "createdAt" | "updatedAt">`, the form a template carries. */
  datatype FormShape = FormShape(
    title: string,
    description: Option<string>,
    fields: seq<Field>,
    steps: seq<Step>,
    isMultiStep: bool)

  datatype FormTemplate = FormTemplate(id: string, name: string, description: string, form: FormShape)

  /**
   * `Partial<FormField>` as merged by `{ ...field, ...updates }`.  For a
   * required attribute `None` means the key is absent.  For an optional
   * attribute the outer `None` means the key is absent (the old value stays),
   * `Some(None)` that the key is present with value `undefined` (the
   * attribute is cleared) and `Some(Some(v))` that it is set to `v`.
   */
  datatype FieldPatch = FieldPatch(
    fieldType: Option<FieldType>,
    labelText: Option<string>,
    placeholder: Option<Option<string>>,
    required: Option<bool>,
    helpText: Option<Option<string>>,
    options: Option<Option<seq<string>>>,
    validation: Option<Option<Validation>>,
    stepId: Option<Option<string>>)

  /** `Partial<FormStep>` as merged by `{ ...step, ...updates }`. */
  datatype StepPatch = StepPatch(title: Option<string>, description: Option<Option<string>>)

  /** `Partial<Form>` with the keys its one caller (the form header) sends. */
  datatype FormPatch = FormPatch(title: Option<string>, description: Option<Option<string>>)

  const EmptyFieldPatch := FieldPatch(None, None, None, None, None, None, None, None)

  /** One key of an object spread: the update's value if the key is present. */
  function Merge<T>(key: Option<T>, current: T): T
  {
    if key.Some? then key.value else current
  }

  /** `{ ...field, ...updates }` */
  function MergeField(f: Field, u: FieldPatch): (r: Field)
    ensures r.id == f.id
    ensures u == EmptyFieldPatch ==> r == f
  {
    Field(f.id, Merge(u.fieldType, f.fieldType), Merge(u.labelText, f.labelText), Merge(u.placeholder, f.placeholder),
          Merge(u.required, f.required), Merge(u.helpText, f.helpText), Merge(u.options, f.options),
          Merge(u.validation, f.validation), Merge(u.stepId, f.stepId))
  }

  /** `{ ...step, ...updates }` */
  function MergeStep(s: Step, u: StepPatch): Step
  {
    Step(s.id, Merge(u.title, s.title), Merge(u.description, s.description))
  }

  // ---------------------------------------------------------------------
  // Identity invariants
  // ---------------------------------------------------------------------

  predicate UniqueFieldIds(fields: seq<Field>)
  {
    forall i, j :: 0 <= i < j < |fields| ==> fields[i].id != fields[j].id
  }

  predicate UniqueStepIds(steps: seq<Step>)
  {
    forall i, j :: 0 <= i < j < |steps| ==> steps[i].id != steps[j].id
  }

  predicate FieldIdInUse(fields: seq<Field>, id: string)
  {
    exists i :: 0 <= i < |fields| && fields[i].id == id
  }

  predicate StepIdInUse(steps: seq<Step>, id: string)
  {
    exists i :: 0 <= i < |steps| && steps[i].id == id
  }

  /** Field ids and step ids are unique within the document. */
  predicate WellFormed(form: Form)
  {
    UniqueFieldIds(form.fields) && UniqueStepIds(form.steps)
  }

  predicate ShapeWellFormed(shape: FormShape)
  {
    UniqueFieldIds(shape.fields) && UniqueStepIds(shape.steps)
  }

  predicate UniqueFormIds(forms: seq<Form>)
  {
    forall i, j :: 0 <= i < j < |forms| ==> forms[i].id != forms[j].id
  }

  predicate UniqueTemplateIds(templates: seq<FormTemplate>)
  {
    forall i, j :: 0 <= i < j < |templates| ==> templates[i].id != templates[j].id
  }

  // ---------------------------------------------------------------------
  // Document transformations (lib/store.ts actions)
  // ---------------------------------------------------------------------

  /** `createNewForm`'s fresh document. */
  function NewForm(id: string, now: int): Form
  {
    Form(id, "Untitled Form", Some(""), [], [], false, now, now)
  }

  /** `updateForm`: `{ ...currentForm, ...updates, updatedAt }` */
  function PatchForm(form: Form, u: FormPatch, now: int): Form
  {
    form.(title := Merge(u.title, form.title), description := Merge(u.description, form.description), updatedAt := now)
  }

  /** `addField`: the draft with the fresh id, appended. */
  function AppendField(fields: seq<Field>, draft: Field, id: string): seq<Field>
  {
    fields + [draft.(id := id)]
  }

  /** `updateField`: merge the update into every field whose id matches. */
  function UpdateFields(fields: seq<Field>, id: string, u: FieldPatch): seq<Field>
  {
    seq(|fields|, i requires 0 <= i < |fields| => if fields[i].id == id then MergeField(fields[i], u) else fields[i])
  }

  /** `removeField`: keep the fields whose id differs. */
  function RemoveFields(fields: seq<Field>, id: string): seq<Field>
  {
    Filter((f: Field) => f.id != id, fields)
  }

  /** `addStep`: the draft with the fresh id, appended. */
  function AppendStep(steps: seq<Step>, draft: Step, id: string): seq<Step>
  {
    steps + [draft.(id := id)]
  }

  /** `updateStep`: merge the update into every step whose id matches. */
  function UpdateSteps(steps: seq<Step>, id: string, u: StepPatch): seq<Step>
  {
    seq(|steps|, i requires 0 <= i < |steps| => if steps[i].id == id then MergeStep(steps[i], u) else steps[i])
  }

  /** `removeStep`, on the step list. */
  function RemoveSteps(steps: seq<Step>, id: string): seq<Step>
  {
    Filter((s: Step) => s.id != id, steps)
  }

  /** `removeStep`, on the field list: references to the removed step become `undefined`. */
  function ClearStepRefs(fields: seq<Field>, id: string): seq<Field>
  {
    seq(|fields|, i requires 0 <= i < |fields| =>
      if fields[i].stepId == Some(id) then fields[i].(stepId := None) else fields[i])
  }

  /** `toggleMultiStep`'s field map: every step reference becomes `undefined`. */
  function ClearAllStepRefs(fields: seq<Field>): seq<Field>
  {
    seq(|fields|, i requires 0 <= i < |fields| => fields[i].(stepId := None))
  }

  /**
   * `toggleMultiStep`: the flag flips; steps and step references are
   * cleared when the flag was false (multi-step is being ENABLED) and kept
   * when it was true.
   */
  function ToggleMultiStep(form: Form, now: int): Form
  {
    form.(isMultiStep := !form.isMultiStep,
          steps := if !form.isMultiStep then [] else form.steps,
          fields := if !form.isMultiStep then ClearAllStepRefs(form.fields) else form.fields,
          updatedAt := now)
  }

  /** `savedForms.find((f) => f.id === formId)` */
  function LookupForm(forms: seq<Form>, id: string): Option<Form>
  {
    Find((f: Form) => f.id == id, forms)
  }

  /** `saveForm`: replace the first saved form with the same id, or append. */
  function Upsert(forms: seq<Form>, form: Form): seq<Form>
  {
    match FindIndex((f: Form) => f.id == form.id, forms)
    case Some(i) => forms[i := form]
    case None => forms + [form]
  }

  /** `saveAsTemplate`'s template record. */
  function Snapshot(form: Form, templateId: string, name: string, description: string): FormTemplate
  {
    FormTemplate(templateId, name, description,
                 FormShape(form.title, form.description, form.fields, form.steps, form.isMultiStep))
  }

  /** `templates.find((t) => t.id === templateId)` */
  function LookupTemplate(templates: seq<FormTemplate>, id: string): Option<FormTemplate>
  {
    Find((t: FormTemplate) => t.id == id, templates)
  }

  /** `loadTemplate`'s new document: a fresh id and timestamps around the template's form. */
  function Instantiate(t: FormTemplate, id: string, now: int): Form
  {
    Form(id, t.form.title, t.form.description, t.form.fields, t.form.steps, t.form.isMultiStep, now, now)
  }

  // ---------------------------------------------------------------------
  // Properties of the transformations
  // ---------------------------------------------------------------------

  /** `addField` appends exactly one field carrying the fresh id; a fresh id keeps ids unique. */
  lemma AppendFieldSpec(fields: seq<Field>, draft: Field, id: string)
    ensures |AppendField(fields, draft, id)| == |fields| + 1
    ensures AppendField(fields, draft, id)[..|fields|] == fields
    ensures AppendField(fields, draft, id)[|fields|] == draft.(id := id)
    ensures UniqueFieldIds(fields) && !FieldIdInUse(fields, id) ==> UniqueFieldIds(AppendField(fields, draft, id))
  {
  }

  /** `addStep` appends exactly one step carrying the fresh id; a fresh id keeps ids unique. */
  lemma AppendStepSpec(steps: seq<Step>, draft: Step, id: string)
    ensures |AppendStep(steps, draft, id)| == |steps| + 1
    ensures AppendStep(steps, draft, id)[..|steps|] == steps
    ensures AppendStep(steps, draft, id)[|steps|] == draft.(id := id)
    ensures UniqueStepIds(steps) && !StepIdInUse(steps, id) ==> UniqueStepIds(AppendStep(steps, draft, id))
  {
  }

  /**
   * `updateField` keeps length, order and ids, changes exactly the fields
   * whose id matches (by merging), and is the identity for an unknown id.
   */
  lemma UpdateFieldsSpec(fields: seq<Field>, id: string, u: FieldPatch)
    ensures |UpdateFields(fields, id, u)| == |fields|
    ensures forall i :: 0 <= i < |fields| ==> UpdateFields(fields, id, u)[i].id == fields[i].id
    ensures forall i :: 0 <= i < |fields| && fields[i].id == id ==> UpdateFields(fields, id, u)[i] == MergeField(fields[i], u)
    ensures forall i :: 0 <= i < |fields| && fields[i].id != id ==> UpdateFields(fields, id, u)[i] == fields[i]
    ensures !FieldIdInUse(fields, id) ==> UpdateFields(fields, id, u) == fields
    ensures UniqueFieldIds(fields) ==> UniqueFieldIds(UpdateFields(fields, id, u))
  {
    if !FieldIdInUse(fields, id) {
      assert forall i :: 0 <= i < |fields| ==> UpdateFields(fields, id, u)[i] == fields[i];
    }
  }

  /** `updateStep` keeps length, order and ids, changes exactly the matching steps, and is the identity for an unknown id. */
  lemma UpdateStepsSpec(steps: seq<Step>, id: string, u: StepPatch)
    ensures |UpdateSteps(steps, id, u)| == |steps|
    ensures forall i :: 0 <= i < |steps| ==> UpdateSteps(steps, id, u)[i].id == steps[i].id
    ensures forall i :: 0 <= i < |steps| && steps[i].id == id ==> UpdateSteps(steps, id, u)[i] == MergeStep(steps[i], u)
    ensures forall i :: 0 <= i < |steps| && steps[i].id != id ==> UpdateSteps(steps, id, u)[i] == steps[i]
    ensures !StepIdInUse(steps, id) ==> UpdateSteps(steps, id, u) == steps
    ensures UniqueStepIds(steps) ==> UniqueStepIds(UpdateSteps(steps, id, u))
  {
    if !StepIdInUse(steps, id) {
      assert forall i :: 0 <= i < |steps| ==> UpdateSteps(steps, id, u)[i] == steps[i];
    }
  }

  /** Any order-preserving filter of a field list with unique ids has unique ids. */
  lemma FilterKeepsUniqueFieldIds(p: Field -> bool, fields: seq<Field>)
    requires UniqueFieldIds(fields)
    ensures UniqueFieldIds(Filter(p, fields))
  {
    FilterKeepsOrder(p, fields);
    var idx := FilterIndices(p, fields);
    var r := Filter(p, fields);
    forall i, j | 0 <= i < j < |r|
      ensures r[i].id != r[j].id
    {
      assert idx[i] < idx[j];
    }
  }

  /** Any order-preserving filter of a step list with unique ids has unique ids. */
  lemma FilterKeepsUniqueStepIds(p: Step -> bool, steps: seq<Step>)
    requires UniqueStepIds(steps)
    ensures UniqueStepIds(Filter(p, steps))
  {
    FilterKeepsOrder(p, steps);
    var idx := FilterIndices(p, steps);
    var r := Filter(p, steps);
    forall i, j | 0 <= i < j < |r|
      ensures r[i].id != r[j].id
    {
      assert idx[i] < idx[j];
    }
  }

  /**
   * `removeField` drops every field with that id and keeps all the others,
   * in their original order; unique ids stay unique.
   */
  lemma RemoveFieldsSpec(fields: seq<Field>, id: string)
    ensures forall f :: f in RemoveFields(fields, id) ==> f.id != id
    ensures forall i :: 0 <= i < |fields| && fields[i].id != id ==> fields[i] in RemoveFields(fields, id)
    ensures FieldIdInUse(fields, id) ==> |RemoveFields(fields, id)| < |fields|
    ensures !FieldIdInUse(fields, id) ==> RemoveFields(fields, id) == fields
    ensures UniqueFieldIds(fields) ==> UniqueFieldIds(RemoveFields(fields, id))
  {
    var p := (f: Field) => f.id != id;
    if FieldIdInUse(fields, id) {
      var k :| 0 <= k < |fields| && fields[k].id == id;
      assert fields == fields[..k] + [fields[k]] + fields[k + 1..];
      FilterConcat(p, fields[..k] + [fields[k]], fields[k + 1..]);
      FilterConcat(p, fields[..k], [fields[k]]);
      assert Filter(p, [fields[k]]) == [];
    } else {
      FilterAll(p, fields);
    }
    if UniqueFieldIds(fields) {
      FilterKeepsUniqueFieldIds(p, fields);
    }
  }

  /** A single-element move of a field list with unique ids keeps them unique. */
  lemma MoveKeepsUniqueFieldIds(fields: seq<Field>, from: nat, to: nat)
    requires from < |fields| && to < |fields|
    requires UniqueFieldIds(fields)
    ensures UniqueFieldIds(Move(fields, from, to))
  {
    var r := Move(fields, from, to);
    forall i, j | 0 <= i < j < |r|
      ensures r[i].id != r[j].id
    {
      MoveAt(fields, from, to, i);
      MoveAt(fields, from, to, j);
      MoveSourceInjective(from, to, i, j);
    }
  }

  /**
   * `removeStep` removes the step and resets the step reference to
   * `undefined` exactly on the fields that referenced it; no field is
   * deleted or reordered and nothing else about a field changes.
   */
  lemma RemoveStepSpec(form: Form, id: string)
    ensures forall s :: s in RemoveSteps(form.steps, id) ==> s.id != id
    ensures forall i :: 0 <= i < |form.steps| && form.steps[i].id != id ==> form.steps[i] in RemoveSteps(form.steps, id)
    ensures |ClearStepRefs(form.fields, id)| == |form.fields|
    ensures forall i :: 0 <= i < |form.fields| ==>
      ClearStepRefs(form.fields, id)[i].stepId == (if form.fields[i].stepId == Some(id) then None else form.fields[i].stepId)
    ensures forall i :: 0 <= i < |form.fields| ==>
      ClearStepRefs(form.fields, id)[i] == form.fields[i].(stepId := ClearStepRefs(form.fields, id)[i].stepId)
    ensures WellFormed(form) ==>
      WellFormed(form.(steps := RemoveSteps(form.steps, id), fields := ClearStepRefs(form.fields, id)))
  {
    if WellFormed(form) {
      FilterKeepsUniqueStepIds((s: Step) => s.id != id, form.steps);
    }
  }

  /**
   * `toggleMultiStep` negates the flag.  Enabling empties the steps and
   * clears every field's step reference (fields otherwise unchanged);
   * disabling leaves steps and fields as they were.
   */
  lemma ToggleMultiStepSpec(form: Form, now: int)
    ensures ToggleMultiStep(form, now).isMultiStep == !form.isMultiStep
    ensures !form.isMultiStep ==> ToggleMultiStep(form, now).steps == []
    ensures !form.isMultiStep ==> |ToggleMultiStep(form, now).fields| == |form.fields|
    ensures !form.isMultiStep ==> forall i :: 0 <= i < |form.fields| ==>
      ToggleMultiStep(form, now).fields[i] == form.fields[i].(stepId := None)
    ensures form.isMultiStep ==> ToggleMultiStep(form, now).steps == form.steps
    ensures form.isMultiStep ==> ToggleMultiStep(form, now).fields == form.fields
    ensures WellFormed(form) ==> WellFormed(ToggleMultiStep(form, now))
  {
  }

  /**
   * Toggling twice restores the flag but not the step structure: whichever
   * way round, one of the two toggles enabled multi-step mode, so the steps
   * are gone and no field keeps a step reference.
   */
  lemma ToggleTwiceLosesSteps(form: Form, t1: int, t2: int)
    ensures ToggleMultiStep(ToggleMultiStep(form, t1), t2).isMultiStep == form.isMultiStep
    ensures ToggleMultiStep(ToggleMultiStep(form, t1), t2).steps == []
    ensures forall i :: 0 <= i < |ToggleMultiStep(ToggleMultiStep(form, t1), t2).fields| ==>
      ToggleMultiStep(ToggleMultiStep(form, t1), t2).fields[i].stepId == None
  {
  }

  /**
   * `saveForm` upserts by id: an entry with the same id is replaced in
   * place (the first one), otherwise the form is appended.  The list grows
   * by at most one, and ids stay unique.
   */
  lemma UpsertSpec(forms: seq<Form>, form: Form)
    ensures |Upsert(forms, form)| == if exists i :: 0 <= i < |forms| && forms[i].id == form.id then |forms| else |forms| + 1
    ensures form in Upsert(forms, form)
    ensures (forall i :: 0 <= i < |forms| ==> forms[i].id != form.id) ==> Upsert(forms, form) == forms + [form]
    ensures forall i :: 0 <= i < |forms| && forms[i].id != form.id ==> Upsert(forms, form)[i] == forms[i]
    ensures UniqueFormIds(forms) ==> UniqueFormIds(Upsert(forms, form))
  {
    var p := (f: Form) => f.id == form.id;
    match FindIndex(p, forms)
    case Some(k) => {
      assert Upsert(forms, form) == forms[k := form];
      assert Upsert(forms, form)[k] == form;
    }
    case None => {
      assert Upsert(forms, form) == forms + [form];
    }
  }

  /** Loading a form by id right after saving it yields exactly the saved form. */
  lemma LoadAfterSave(forms: seq<Form>, form: Form)
    ensures LookupForm(Upsert(forms, form), form.id) == Some(form)
  {
    var p := (f: Form) => f.id == form.id;
    var r := Upsert(forms, form);
    match FindIndex(p, forms)
    case Some(k) => {
      assert r == forms[k := form];
      assert p(r[k]);
      assert forall j :: 0 <= j < k ==> r[j] == forms[j];
    }
    case None => {
      assert r == forms + [form];
      assert FindIndex(p, r) == Some(|forms|) by {
        assert p(r[|forms|]);
        assert forall j :: 0 <= j < |forms| ==> r[j] == forms[j];
      }
    }
  }

  /**
   * `loadTemplate` after `saveAsTemplate` (with an id no other template
   * uses) gives a form with the saved form's title, description, fields,
   * steps and flag, under the new id and timestamps.
   */
  lemma TemplateRoundTrip(templates: seq<FormTemplate>, form: Form, tid: string, name: string, description: string,
                          newId: string, now: int)
    requires forall i :: 0 <= i < |templates| ==> templates[i].id != tid
    ensures LookupTemplate(templates + [Snapshot(form, tid, name, description)], tid)
         == Some(Snapshot(form, tid, name, description))
    ensures Instantiate(Snapshot(form, tid, name, description), newId, now)
         == form.(id := newId, createdAt := now, updatedAt := now)
  {
    var ts := templates + [Snapshot(form, tid, name, description)];
    var p := (t: FormTemplate) => t.id == tid;
    assert FindIndex(p, ts) == Some(|templates|) by {
      assert p(ts[|templates|]);
      assert forall j :: 0 <= j < |templates| ==> ts[j] == templates[j];
    }
  }

  // ---------------------------------------------------------------------
  // The two templates the store starts with
  // ---------------------------------------------------------------------

  function ContactUsTemplate(): FormTemplate
  {
    FormTemplate("contact-us", "Contact Us", "Basic contact form with name, email, and message",
      FormShape("Contact Us", Some("Get in touch with us"),
        [ Field("name", Text, "Full Name", Some("Enter your full name"), true, None, None,
                Some(Validation(Some(2), None, None)), None),
          Field("email", Email, "Email Address", Some("Enter your email"), true, None, None, None, None),
          Field("message", Textarea, "Message", Some("Enter your message"), true, None, None,
                Some(Validation(Some(10), None, None)), None) ],
        [], false))
  }

  function SurveyTemplate(): FormTemplate
  {
    FormTemplate("survey", "Customer Survey", "Multi-step customer feedback survey",
      FormShape("Customer Survey", Some("Help us improve our services"),
        [ Field("satisfaction", Radio, "How satisfied are you with our service?", None, true, None,
                Some(["Very Satisfied", "Satisfied", "Neutral", "Dissatisfied", "Very Dissatisfied"]), None, Some("step1")),
          Field("recommend", Select, "Would you recommend us to others?", None, true, None,
                Some(["Definitely", "Probably", "Not Sure", "Probably Not", "Definitely Not"]), None, Some("step1")),
          Field("improvements", Textarea, "What can we improve?", Some("Share your suggestions"), false, None, None,
                None, Some("step2")),
          Field("contact-back", Checkbox, "May we contact you for follow-up?", None, false, None, None, None,
                Some("step2")) ],
        [ Step("step1", "Feedback", Some("Tell us about your experience")),
          Step("step2", "Suggestions", Some("Help us improve")) ],
        true))
  }

  /** The store's initial template list; its ids and each template's field and step ids are unique. */
  function DefaultTemplates(): (ts: seq<FormTemplate>)
    ensures UniqueTemplateIds(ts)
    ensures forall i :: 0 <= i < |ts| ==> ShapeWellFormed(ts[i].form)
  {
    [ContactUsTemplate(), SurveyTemplate()]
  }
}
