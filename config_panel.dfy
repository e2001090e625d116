/**
 * The field-configuration panel of the builder: an editable copy of the
 * selected field's settings (all text, as the inputs hold them) and the
 * partial update it sends to the store on every edit.
 */
module ConfigPanel {
  import opened Common
  import opened FormModel
  import opened JsText
  import opened Store
  import opened Canvas
  import opened FillSession

  /** The three validation inputs, as typed. */
  datatype RuleText = RuleText(minLength: string, maxLength: string, pattern: string)

  /** The panel's `config` state. */
  datatype Config = Config(
    labelText: string,
    placeholder: string,
    required: bool,
    helpText: string,
    options: seq<string>,
    stepId: string,
    validation: RuleText)

  /** The state before any field was selected. */
  const BlankConfig := Config("", "", false, "", [], "", RuleText("", "", ""))

  /** The keys an input handler passes to `handleUpdate`; `None` means the key is absent. */
  datatype ConfigPatch = ConfigPatch(
    labelText: Option<string>,
    placeholder: Option<string>,
    required: Option<bool>,
    helpText: Option<string>,
    options: Option<seq<string>>,
    stepId: Option<string>,
    validation: Option<RuleText>)

  const NoConfigChange := ConfigPatch(None, None, None, None, None, None, None)

  /** `{ ...config, ...updates }` */
  function MergeConfig(c: Config, u: ConfigPatch): Config
  {
    Config(Merge(u.labelText, c.labelText), Merge(u.placeholder, c.placeholder), Merge(u.required, c.required),
           Merge(u.helpText, c.helpText), Merge(u.options, c.options), Merge(u.stepId, c.stepId),
           Merge(u.validation, c.validation))
  }

  /** `s || undefined` */
  function NonEmpty(s: string): Option<string>
  {
    if s == "" then None else Some(s)
  }

  /** `bound?.toString() || ""` */
  function BoundText(b: Option<int>): string
  {
    if b.Some? then IntToString(b.value) else ""
  }

  /** The seeding effect: the selected field's settings, with `""` for what it lacks. */
  function SeedConfig(f: Field): Config
  {
    var rules := if f.validation.Some? then f.validation.value else Validation(None, None, None);
    Config(f.labelText, OrEmpty(f.placeholder), f.required, OrEmpty(f.helpText),
           if f.options.Some? then f.options.value else [], OrEmpty(f.stepId),
           RuleText(BoundText(rules.minLength), BoundText(rules.maxLength), OrEmpty(rules.pattern)))
  }

  /** A length input that is not blank is read with `Number.parseInt`. */
  function ParseBound(s: string): Option<int>
  {
    if s == "" then None else ParseInt(s)
  }

  /**
   * The validation record `handleUpdate` sends: absent when all three
   * inputs are blank, otherwise the non-blank ones.
   */
  function RulesOf(r: RuleText): (v: Option<Validation>)
    ensures v.None? <==> r.minLength == "" && r.maxLength == "" && r.pattern == ""
    ensures v.Some? ==> (v.value.pattern.None? <==> r.pattern == "")
    ensures v.Some? ==> (r.minLength == "" ==> v.value.minLength.None?)
    ensures v.Some? ==> (r.maxLength == "" ==> v.value.maxLength.None?)
  {
    if r.minLength == "" && r.maxLength == "" && r.pattern == "" then None
    else Some(Validation(ParseBound(r.minLength), ParseBound(r.maxLength), NonEmpty(r.pattern)))
  }

  /**
   * The partial update `handleUpdate` builds from the new config: label,
   * required flag, placeholder, help text and step always (blank text as
   * `undefined`), the options only for select and radio fields, and the
   * validation record only when some rule input is filled in.
   */
  function FieldUpdates(c: Config, t: FieldType): (u: FieldPatch)
    ensures u.fieldType.None?
    ensures u.labelText == Some(c.labelText) && u.required == Some(c.required)
    ensures u.placeholder.Some? && (u.placeholder.value.None? <==> c.placeholder == "")
    ensures u.helpText.Some? && (u.helpText.value.None? <==> c.helpText == "")
    ensures u.stepId.Some? && (u.stepId.value.None? <==> c.stepId == "")
    ensures u.options.Some? <==> t == Select || t == Radio
    ensures u.options.Some? ==> u.options.value == Some(c.options)
    ensures u.validation.Some? <==> c.validation != RuleText("", "", "")
  {
    FieldPatch(
      None, Some(c.labelText), Some(NonEmpty(c.placeholder)), Some(c.required), Some(NonEmpty(c.helpText)),
      if t == Select || t == Radio then Some(Some(c.options)) else None,
      if RulesOf(c.validation).Some? then Some(RulesOf(c.validation)) else None,
      Some(NonEmpty(c.stepId)))
  }

  /** The construction of `fieldUpdates` and `validation` by conditional assignment. */
  method BuildFieldUpdates(c: Config, t: FieldType) returns (u: FieldPatch)
    ensures u == FieldUpdates(c, t)
  {
    u := FieldPatch(None, Some(c.labelText), Some(NonEmpty(c.placeholder)), Some(c.required),
                    Some(NonEmpty(c.helpText)), None, None, Some(NonEmpty(c.stepId)));
    if t == Select || t == Radio {
      u := u.(options := Some(Some(c.options)));
    }
    var minLength: Option<int> := None;
    var maxLength: Option<int> := None;
    var pattern: Option<string> := None;
    var keys := 0;
    if c.validation.minLength != "" {
      minLength := ParseInt(c.validation.minLength);
      keys := keys + 1;
    }
    if c.validation.maxLength != "" {
      maxLength := ParseInt(c.validation.maxLength);
      keys := keys + 1;
    }
    if c.validation.pattern != "" {
      pattern := Some(c.validation.pattern);
      keys := keys + 1;
    }
    if keys > 0 {
      u := u.(validation := Some(Some(Validation(minLength, maxLength, pattern))));
    }
  }

  // ---------------------------------------------------------------------
  // The option list of select and radio fields
  // ---------------------------------------------------------------------

  /** `addOption`'s list: a new entry numbered after the current count. */
  function AddOptionTo(opts: seq<string>): (r: seq<string>)
    ensures |r| == |opts| + 1 && r[..|opts|] == opts
    ensures r[|opts|] == "Option " + NatToString(|opts| + 1)
  {
    opts + ["Option " + NatToString(|opts| + 1)]
  }

  /** `removeOption`'s list: every entry except the one at `index`. */
  function RemoveOptionAt(opts: seq<string>, index: int): (r: seq<string>)
    ensures 0 <= index < |opts| ==> |r| == |opts| - 1
    ensures 0 <= index < |opts| ==> forall j :: 0 <= j < |r| ==> r[j] == opts[if j < index then j else j + 1]
    ensures !(0 <= index < |opts|) ==> r == opts
  {
    if 0 <= index < |opts| then opts[..index] + opts[index + 1..] else opts
  }

  /** The remove buttons are enabled only while there is more than one option. */
  predicate RemoveOptionEnabled(opts: seq<string>)
  {
    |opts| > 1
  }

  /** `updateOption`'s list: a copy with one entry overwritten. */
  method ReplaceOption(opts: seq<string>, index: nat, value: string) returns (r: seq<string>)
    requires index < |opts|
    ensures |r| == |opts| && r[index] == value
    ensures forall j :: 0 <= j < |opts| && j != index ==> r[j] == opts[j]
  {
    var copy := new string[|opts|](j requires 0 <= j < |opts| => opts[j]);
    copy[index] := value;
    r := copy[..];
  }

  /** Removing the option `addOption` just added gives the list back. */
  lemma RemoveAddedOption(opts: seq<string>)
    ensures RemoveOptionAt(AddOptionTo(opts), |opts|) == opts
  {
    assert AddOptionTo(opts)[..|opts|] == opts;
  }

  /** While removal is enabled, removing any option leaves at least one. */
  lemma RemoveKeepsAnOption(opts: seq<string>, index: int)
    requires RemoveOptionEnabled(opts)
    ensures |RemoveOptionAt(opts, index)| >= 1
  {
  }

  // ---------------------------------------------------------------------
  // What an update does to the field
  // ---------------------------------------------------------------------

  /**
   * Clearing all three rule inputs sends no validation record, so the
   * merge in `updateField` keeps the field's previous rules.
   */
  lemma ClearedRulesKeepValidation(f: Field, c: Config)
    requires c.validation == RuleText("", "", "")
    ensures MergeField(f, FieldUpdates(c, f.fieldType)).validation == f.validation
  {
  }

  /**
   * The seeding effect runs again once the updated field replaces the
   * selected one, so after clearing all three rule inputs they show the
   * old rules again.
   */
  lemma ClearedRulesReappear(f: Field, c: Config)
    requires c.validation == RuleText("", "", "")
    ensures SeedConfig(MergeField(f, FieldUpdates(c, f.fieldType))).validation == SeedConfig(f).validation
  {
    ClearedRulesKeepValidation(f, c);
  }

  /** Blank text inputs clear the placeholder, help text and step of the field. */
  lemma BlankInputsClear(f: Field, c: Config)
    requires c.placeholder == "" && c.helpText == "" && c.stepId == ""
    ensures var g := MergeField(f, FieldUpdates(c, f.fieldType));
      g.placeholder.None? && g.helpText.None? && g.stepId.None?
  {
  }

  /** Choosing "No step (unassigned)" stores the literal `"none"` as the step reference. */
  lemma NoStepChoiceStoresNone(f: Field, c: Config)
    requires c.stepId == "none"
    ensures MergeField(f, FieldUpdates(c, f.fieldType)).stepId == Some("none")
  {
  }

  /**
   * In a multi-step form without a step whose id is `"none"`, a field moved
   * to "No step" disappears from the canvas and from every step of the
   * filler.
   */
  lemma NoStepChoiceHidesField(form: Form, f: Field, c: Config, i: int)
    requires form.isMultiStep && f in form.fields && c.stepId == "none"
    requires forall k :: 0 <= k < |form.steps| ==> form.steps[k].id != "none"
    ensures var updated := form.(fields := UpdateFields(form.fields, f.id, FieldUpdates(c, f.fieldType)));
      var g := MergeField(f, FieldUpdates(c, f.fieldType));
      && g in updated.fields
      && !(exists grp :: grp in FieldsByStep(updated) && g in grp.fields)
      && g !in StepFields(updated, i)
  {
    var u := FieldUpdates(c, f.fieldType);
    var updated := form.(fields := UpdateFields(form.fields, f.id, u));
    var g := MergeField(f, u);
    UpdateFieldsSpec(form.fields, f.id, u);
    var k :| 0 <= k < |form.fields| && form.fields[k] == f;
    assert updated.fields[k] == g;
    CanvasCoverage(updated, g);
    DanglingFieldOnNoStep(updated, g, i);
  }

  /** `Number.parseInt` reads back the text the panel shows for a length bound. */
  lemma ParseBoundText(b: Option<int>)
    ensures ParseBound(BoundText(b)) == b
  {
    if b.Some? {
      ParseIntOfIntToString(b.value);
      assert IntToString(b.value) != "" by {
        if b.value < 0 {
          assert |IntToString(b.value)| == 1 + |NatToString(-b.value)|;
        }
      }
    }
  }

  /**
   * Selecting a field and sending its seeded settings back unchanged leaves
   * the field as it was, unless it holds values the panel shows as blank
   * (an empty placeholder, help text, step or pattern) or a select or
   * radio field has no option list.
   */
  lemma SeedThenUpdateIsIdentity(f: Field)
    requires f.placeholder != Some("") && f.helpText != Some("") && f.stepId != Some("")
    requires (f.fieldType == Select || f.fieldType == Radio) ==> f.options.Some?
    requires f.validation.Some? ==> f.validation.value.pattern != Some("")
    ensures MergeField(f, FieldUpdates(SeedConfig(f), f.fieldType)) == f
  {
    var c := SeedConfig(f);
    if f.validation.Some? {
      var v := f.validation.value;
      ParseBoundText(v.minLength);
      ParseBoundText(v.maxLength);
      if c.validation == RuleText("", "", "") {
        assert BoundText(v.minLength) == "" && BoundText(v.maxLength) == "";
        ParseBoundText(v.minLength);
        assert v == Validation(None, None, None);
      }
    }
  }

  /** The panel's own state: the editable copy of the selected field's settings. */
  class Panel {
    var config: Config

    constructor ()
      ensures config == BlankConfig
    {
      config := BlankConfig;
    }

    /**
     * `currentForm?.fields.find((f) => f.id === selectedFieldId)`: the first
     * field of the current form carrying the selected id, if any.
     */
    function SelectedField(store: FormStore): (r: Option<Field>)
      reads store
      ensures r.None? <==> (store.currentForm.None? || store.selectedFieldId.None?
        || forall f :: f in store.currentForm.value.fields ==> f.id != store.selectedFieldId.value)
      ensures r.Some? ==> store.currentForm.Some? && store.selectedFieldId.Some?
      ensures r.Some? ==> r.value.id == store.selectedFieldId.value
      ensures r.Some? ==>
        exists i :: (0 <= i < |store.currentForm.value.fields| && store.currentForm.value.fields[i] == r.value
          && forall j :: 0 <= j < i ==> store.currentForm.value.fields[j].id != store.selectedFieldId.value)
    {
      if store.currentForm.None? || store.selectedFieldId.None? then None
      else
        var id := store.selectedFieldId.value;
        Find((f: Field) => f.id == id, store.currentForm.value.fields)
    }

    /**
     * The seeding effect, which depends on the selected field object: it
     * runs when the selection changes, and also after every `handleUpdate`
     * of the selected field, because `updateField` replaces that field with
     * a new object.
     */
    method SyncWithSelection(store: FormStore)
      modifies this`config
      ensures SelectedField(store).None? ==> config == old(config)
      ensures SelectedField(store).Some? ==> config == SeedConfig(SelectedField(store).value)
    {
      var selected := SelectedField(store);
      if selected.Some? {
        config := SeedConfig(selected.value);
      }
    }

    /**
     * `handleUpdate`: nothing without a selected field; otherwise the new
     * keys are merged into the config and the update built from it is sent
     * to `updateField` for the selected field.
     */
    method HandleUpdate(store: FormStore, u: ConfigPatch, now: int)
      requires store.Valid()
      modifies this`config, store`currentForm
      ensures store.Valid()
      ensures old(SelectedField(store)).None? ==> config == old(config) && store.currentForm == old(store.currentForm)
      ensures old(SelectedField(store)).Some? ==>
        var f := old(SelectedField(store)).value;
        && config == MergeConfig(old(config), u)
        && store.currentForm == Some(old(store.currentForm).value.(
             fields := UpdateFields(old(store.currentForm).value.fields, f.id, FieldUpdates(config, f.fieldType)),
             updatedAt := now))
    {
      var selected := SelectedField(store);
      if selected.None? {
        return;
      }
      var newConfig := MergeConfig(config, u);
      config := newConfig;
      var fieldUpdates := BuildFieldUpdates(newConfig, selected.value.fieldType);
      store.UpdateField(selected.value.id, fieldUpdates, now);
    }

    /** `addOption` */
    method AddOption(store: FormStore, now: int)
      requires store.Valid()
      modifies this`config, store`currentForm
      ensures store.Valid()
      ensures old(SelectedField(store)).Some? ==>
        var f := old(SelectedField(store)).value;
        && config == old(config).(options := AddOptionTo(old(config.options)))
        && store.currentForm == Some(old(store.currentForm).value.(
             fields := UpdateFields(old(store.currentForm).value.fields, f.id, FieldUpdates(config, f.fieldType)),
             updatedAt := now))
      ensures old(SelectedField(store)).None? ==> config == old(config) && store.currentForm == old(store.currentForm)
    {
      HandleUpdate(store, NoConfigChange.(options := Some(AddOptionTo(config.options))), now);
    }

    /** `updateOption` */
    method UpdateOption(store: FormStore, index: nat, value: string, now: int)
      requires store.Valid() && index < |config.options|
      modifies this`config, store`currentForm
      ensures store.Valid()
      ensures old(SelectedField(store)).Some? ==>
        var f := old(SelectedField(store)).value;
        && config == old(config).(options := old(config.options)[index := value])
        && store.currentForm == Some(old(store.currentForm).value.(
             fields := UpdateFields(old(store.currentForm).value.fields, f.id, FieldUpdates(config, f.fieldType)),
             updatedAt := now))
      ensures old(SelectedField(store)).None? ==> config == old(config) && store.currentForm == old(store.currentForm)
    {
      var newOptions := ReplaceOption(config.options, index, value);
      assert newOptions == config.options[index := value];
      HandleUpdate(store, NoConfigChange.(options := Some(newOptions)), now);
    }

    /** `removeOption` */
    method RemoveOption(store: FormStore, index: int, now: int)
      requires store.Valid()
      modifies this`config, store`currentForm
      ensures store.Valid()
      ensures old(SelectedField(store)).Some? ==>
        var f := old(SelectedField(store)).value;
        && config == old(config).(options := RemoveOptionAt(old(config.options), index))
        && store.currentForm == Some(old(store.currentForm).value.(
             fields := UpdateFields(old(store.currentForm).value.fields, f.id, FieldUpdates(config, f.fieldType)),
             updatedAt := now))
      ensures old(SelectedField(store)).None? ==> config == old(config) && store.currentForm == old(store.currentForm)
    {
      HandleUpdate(store, NoConfigChange.(options := Some(RemoveOptionAt(config.options, index))), now);
    }
  }
}
