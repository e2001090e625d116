/**
 * The field palette of the builder: the table of field types it offers and
 * the default field record a click adds to the form.
 */
module Palette {
  import opened Common
  import opened FormModel
  import opened Store
  import opened Canvas
  import opened FillSession

  /** One entry of the palette; the icon is left out. */
  datatype PaletteEntry = PaletteEntry(fieldType: FieldType, name: string, description: string)

  /** `fieldTypes`, in the order the palette shows them. */
  const FieldTypes: seq<PaletteEntry> := [
    PaletteEntry(Text, "Text Input", "Single line text input"),
    PaletteEntry(Textarea, "Textarea", "Multi-line text input"),
    PaletteEntry(Select, "Dropdown", "Select from options"),
    PaletteEntry(Checkbox, "Checkbox", "Single checkbox"),
    PaletteEntry(Radio, "Radio Group", "Select one option"),
    PaletteEntry(Date, "Date Picker", "Date selection"),
    PaletteEntry(Email, "Email", "Email input with validation"),
    PaletteEntry(Phone, "Phone", "Phone number input"),
    PaletteEntry(Number, "Number", "Numeric input")
  ]

  /** The options a new select or radio field starts with. */
  const DefaultOptions: seq<string> := ["Option 1", "Option 2", "Option 3"]

  /** The palette offers every field type, each exactly once. */
  lemma PaletteOffersEveryTypeOnce(t: FieldType)
    ensures |FieldTypes| == 9
    ensures exists i :: 0 <= i < |FieldTypes| && FieldTypes[i].fieldType == t
    ensures forall i, j :: 0 <= i < j < |FieldTypes| ==> FieldTypes[i].fieldType != FieldTypes[j].fieldType
  {
    match t
    case Text => assert FieldTypes[0].fieldType == t;
    case Textarea => assert FieldTypes[1].fieldType == t;
    case Select => assert FieldTypes[2].fieldType == t;
    case Checkbox => assert FieldTypes[3].fieldType == t;
    case Radio => assert FieldTypes[4].fieldType == t;
    case Date => assert FieldTypes[5].fieldType == t;
    case Email => assert FieldTypes[6].fieldType == t;
    case Phone => assert FieldTypes[7].fieldType == t;
    case Number => assert FieldTypes[8].fieldType == t;
  }

  /**
   * `fieldTypes.find((f) => f.type === type)?.label`, interpolated into a
   * template string: `"undefined"` if the type were missing from the table.
   */
  function PaletteLabel(t: FieldType): string
  {
    match Find((e: PaletteEntry) => e.fieldType == t, FieldTypes)
    case Some(e) => e.name
    case None => "undefined"
  }

  /** The label of a type is the label of its palette entry. */
  lemma PaletteLabelOfEntry(t: FieldType, i: nat)
    requires i < |FieldTypes| && FieldTypes[i].fieldType == t
    ensures PaletteLabel(t) == FieldTypes[i].name
  {
    PaletteOffersEveryTypeOnce(t);
    var found := Find((e: PaletteEntry) => e.fieldType == t, FieldTypes);
    assert found.Some?;
    var k :| 0 <= k < |FieldTypes| && FieldTypes[k] == found.value;
    assert k == i;
  }

  /** The step a new field goes to: the first step of a multi-step form that has one. */
  function DefaultStepId(form: Option<Form>): Option<string>
  {
    if form.Some? && form.value.isMultiStep && |form.value.steps| > 0 then Some(form.value.steps[0].id) else None
  }

  /**
   * `handleAddField`'s record: the type, the label "<palette label> Field",
   * not required, on the first step when there is one, and with the three
   * default options for select and radio fields. Its id is assigned by
   * `addField`.
   */
  function DefaultField(t: FieldType, form: Option<Form>): (f: Field)
    ensures f.fieldType == t && !f.required
    ensures f.placeholder.None? && f.helpText.None? && f.validation.None?
    ensures f.options.Some? <==> t == Select || t == Radio
    ensures f.options.Some? ==> f.options.value == DefaultOptions
    ensures f.stepId.Some? <==> form.Some? && form.value.isMultiStep && |form.value.steps| > 0
    ensures f.stepId.Some? ==> f.stepId.value == form.value.steps[0].id
  {
    Field("", t, PaletteLabel(t) + " Field", None, false, None,
          if t == Select || t == Radio then Some(DefaultOptions) else None, None, DefaultStepId(form))
  }

  /** Every new field's label is its palette entry's label followed by " Field". */
  lemma DefaultFieldLabel(t: FieldType, form: Option<Form>, i: nat)
    requires i < |FieldTypes| && FieldTypes[i].fieldType == t
    ensures DefaultField(t, form).labelText == FieldTypes[i].name + " Field"
  {
    PaletteLabelOfEntry(t, i);
  }

  /**
   * In a multi-step form with steps, the added field is shown in the first
   * block of the canvas and on the first step of the filler.
   */
  lemma NewFieldOnFirstStep(form: Form, t: FieldType, newId: string)
    requires form.isMultiStep && |form.steps| > 0
    ensures var added := form.(fields := AppendField(form.fields, DefaultField(t, Some(form)), newId));
      var f := DefaultField(t, Some(form)).(id := newId);
      && f in FieldsByStep(added)[0].fields
      && f in StepFields(added, 0)
  {
    var added := form.(fields := AppendField(form.fields, DefaultField(t, Some(form)), newId));
    var f := DefaultField(t, Some(form)).(id := newId);
    assert added.fields[|form.fields|] == f;
    assert f in added.fields;
  }

  /** `handleAddField`: the default record for the type is appended under the fresh id. */
  method HandleAddField(store: FormStore, t: FieldType, newId: string, now: int)
    requires store.Valid()
    requires store.currentForm.Some? ==> !FieldIdInUse(store.currentForm.value.fields, newId)
    modifies store`currentForm
    ensures store.Valid()
    ensures old(store.currentForm).None? ==> store.currentForm == None
    ensures old(store.currentForm).Some? ==> store.currentForm == Some(old(store.currentForm).value.(
      fields := AppendField(old(store.currentForm).value.fields, DefaultField(t, old(store.currentForm)), newId),
      updatedAt := now))
  {
    var defaultField := DefaultField(t, store.currentForm);
    store.AddField(defaultField, newId, now);
  }
}
