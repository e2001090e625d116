# FormCraft form core in Dafny

FormCraft is a drag-and-drop form builder. An author edits one form at a time in a
store holding the current form, the selected field, the saved forms and the
templates. Fields are added from a palette, configured in a side panel, grouped
into steps and reordered on a canvas. Respondents fill saved forms on a public
page that validates each field and walks through the steps. The builder's live
preview runs the same validation and step logic.

This project models that core and proves properties of it:

- `common.dfy` (`Common`): the array operations the code relies on (`filter`, `find`, `findIndex`, the two-`splice` move).
- `form_model.dfy` (`FormModel`): the record types of `lib/store.ts` and the pure document operations behind each store action.
- `store.dfy` (`Store`): the store, as a class whose methods replace its fields; ids, timestamps and the page origin are parameters.
- `js_text.dfy` (`JsText`): the JavaScript string built-ins the core uses (`trim`, `\s`, `toString`, `parseInt`).
- `validator.dfy` (`Validator`): `validateField`, including the fixed e-mail and phone patterns.
- `fill_session.dfy` (`FillSession`): the filling session shared by the public filler and the preview (values, errors, current step, submit).
- `canvas.dfy` (`Canvas`): the canvas grouping of fields by step and the drag handler.
- `config_panel.dfy` (`ConfigPanel`): the field-configuration panel (seeding, the partial update it sends, option-list editing).
- `palette.dfy` (`Palette`): the palette table and the default field record.
- `step_manager.dfy` (`StepManager`): the step manager's drafts, guards and field counts.
- `conditional_logic.dfy` (`ConditionalLogic`): the conditional-rule list.

A key absent from a partial update is `None`. A key present with `undefined` is
`Some(None)`, which clears the attribute on merge. A value is `Some(Some(v))`.
The author-supplied validation pattern is checked by a `Matcher` parameter that
stands for `new RegExp(pattern).test(text)`.

## Model

| member | source | states |
|---|---|---|
| Common.Filter | lib/store.ts:232 | `filter` keeps exactly the elements satisfying the predicate and never lengthens the list |
| Common.FilterKeepsOrder | lib/store.ts:232 | the kept elements sit at strictly increasing positions of the input, so document order is preserved |
| Common.FilterSelectsInOrder | lib/store.ts:232 | `filter` yields the input's subsequence at strictly increasing positions, and those are exactly the positions whose element satisfies the predicate |
| Common.FindIndex | lib/store.ts:272 | `findIndex` gives the first position satisfying the predicate, or none when no element does |
| Common.Find | lib/store.ts:283 | `find` gives the first element of the list satisfying the predicate, and none exactly when no element does |
| Common.MoveAt | lib/store.ts:243-245 | every position of the moved list holds the input element at the computed source position |
| Common.MoveIsPermutation | lib/store.ts:239-254 | a single-element move keeps the length, puts the element from `startIndex` at `endIndex`, leaves the others in relative order, and is a permutation |
| FormModel.MergeField | lib/store.ts:219 | merging a partial update keeps the field id, and an empty update changes nothing |
| FormModel.AppendFieldSpec | lib/store.ts:194-210 | `addField` appends exactly one field carrying the fresh id, leaves earlier fields unchanged and keeps ids unique |
| FormModel.AppendStepSpec | lib/store.ts:289-305 | `addStep` appends exactly one step carrying the fresh id, leaves earlier steps unchanged and keeps ids unique |
| FormModel.UpdateFieldsSpec | lib/store.ts:212-223 | `updateField` keeps length, order and ids, merges only into matching fields, and is the identity for an unknown id |
| FormModel.UpdateStepsSpec | lib/store.ts:307-318 | `updateStep` keeps length, order and ids, merges only into matching steps, and is the identity for an unknown id |
| FormModel.FilterKeepsUniqueFieldIds | lib/store.ts:232 | filtering a field list with unique ids keeps them unique |
| FormModel.FilterKeepsUniqueStepIds | lib/store.ts:327 | filtering a step list with unique ids keeps them unique |
| FormModel.RemoveFieldsSpec | lib/store.ts:225-237 | `removeField` drops every field with that id, keeps all others, shrinks the list only when the id is in use, and keeps ids unique |
| FormModel.MoveKeepsUniqueFieldIds | lib/store.ts:239-254 | reordering keeps field ids unique |
| FormModel.RemoveStepSpec | lib/store.ts:320-334 | `removeStep` removes that step and resets the step reference exactly on fields that referenced it; no field is deleted, reordered or otherwise changed |
| FormModel.ToggleMultiStepSpec | lib/store.ts:336-351 | `toggleMultiStep` negates the flag; enabling empties the steps and clears every step reference, while disabling leaves steps and fields as they were |
| FormModel.ToggleTwiceLosesSteps | lib/store.ts:336-351 | toggling twice restores the flag but leaves no steps and no step references |
| FormModel.UpsertSpec | lib/store.ts:268-279 | `saveForm` replaces the entry with the same id in place or appends the form, grows the list by at most one, and keeps ids unique |
| FormModel.LoadAfterSave | lib/store.ts:268-287 | loading a form by id right after saving it returns exactly the saved form |
| FormModel.TemplateRoundTrip | lib/store.ts:353-386 | loading a template right after saving it as a template reproduces the form's title, description, fields, steps and flag under the new id |
| FormModel.DefaultTemplates | lib/store.ts:73-155 | the two default templates have unique ids and unique field and step ids |
| Store.SpliceMove | lib/store.ts:243-245 | the in-place remove-then-insert on an array copy yields the single-element move |
| Store.FormStore.constructor | lib/store.ts:160-165 | the initial state has no form, no selection, no saved forms and the default templates |
| Store.FormStore.CreateNewForm | lib/store.ts:167-179 | a fresh untitled form becomes current and the selection is cleared |
| Store.FormStore.UpdateForm | lib/store.ts:181-192 | title and description are merged; nothing happens without a current form |
| Store.FormStore.AddField | lib/store.ts:194-210 | the draft is appended under the fresh id; nothing happens without a current form; ids stay unique |
| Store.FormStore.UpdateField | lib/store.ts:212-223 | the partial update is merged into the fields with that id; nothing happens without a current form |
| Store.FormStore.RemoveField | lib/store.ts:225-237 | fields with that id are removed and the selection is cleared whichever field was selected; nothing happens without a current form |
| Store.FormStore.ReorderFields | lib/store.ts:239-254 | the field list becomes the single-element move from `startIndex` to `endIndex`; nothing happens without a current form |
| Store.FormStore.SelectField | lib/store.ts:256-258 | the selection becomes the given id or none |
| Store.FormStore.SaveForm | lib/store.ts:268-279 | the current form is upserted into the saved forms and can then be looked up by its id |
| Store.FormStore.LoadForm | lib/store.ts:281-287 | the saved form with that id becomes current and the selection is cleared; an unknown id changes nothing |
| Store.FormStore.AddStep | lib/store.ts:289-305 | the draft step is appended under the fresh id; nothing happens without a current form |
| Store.FormStore.UpdateStep | lib/store.ts:307-318 | the partial update is merged into the steps with that id; nothing happens without a current form |
| Store.FormStore.RemoveStep | lib/store.ts:320-334 | the step is removed and fields referring to it are unassigned; nothing happens without a current form |
| Store.FormStore.ToggleMultiStepMode | lib/store.ts:336-351 | the current form is replaced by its toggled version; nothing happens without a current form |
| Store.FormStore.SaveAsTemplate | lib/store.ts:353-371 | a snapshot of the current form is appended to the templates under the fresh id |
| Store.FormStore.LoadTemplate | lib/store.ts:373-386 | a new form built from the template becomes current and the selection is cleared; an unknown id changes nothing |
| Store.FormStore.GenerateShareableLink | lib/store.ts:388-396 | the form is saved and the link is `<origin>/preview/<id>`, under which the saved form is found; without a form the link is empty |
| JsText.TrimStart | components/form-filler.tsx:51 | the result is a suffix of the input, does not start with whitespace, and only whitespace was removed |
| JsText.TrimEnd | components/form-filler.tsx:51 | the result is a prefix of the input, does not end with whitespace, and only whitespace was removed |
| JsText.TrimEmptyIffAllWhitespace | components/form-filler.tsx:51 | a string trims to empty exactly when it consists of whitespace only |
| JsText.StripWhitespace | components/form-filler.tsx:71 | the result contains no whitespace and keeps every other character, drawing only on the input and never lengthening it |
| JsText.StripOne | components/form-filler.tsx:71 | a single whitespace character is dropped and any other kept; with StripConcat this fixes the result on every string |
| JsText.NatToString | components/field-config-panel.tsx:44-45 | `toString` of a number is a non-empty digit string without a leading zero |
| JsText.NatToStringValue | components/field-config-panel.tsx:44-45 | reading the digits back gives the number |
| JsText.NatToStringLength | components/field-config-panel.tsx:44-45 | a number's decimal form has d digits exactly when it lies between 10^(d-1) and 10^d |
| JsText.DigitPrefixLength | components/field-config-panel.tsx:73 | the longest run of leading digits, followed by a non-digit or the end of the text |
| JsText.ParseIntOfIntToString | components/field-config-panel.tsx:73-76 | `parseInt` reads back every integer that `toString` writes |
| Validator.EmailOfParts | components/form-filler.tsx:67 | every local part, domain and top-level part without whitespace or `@` joins into an address the e-mail pattern accepts |
| Validator.EmailSplits | components/form-filler.tsx:67 | every accepted address splits into such three parts |
| Validator.PhonePlusSign | components/form-filler.tsx:71 | a leading `+` does not change the phone verdict on a string starting with a digit |
| Validator.PhoneNumberRange | components/form-filler.tsx:71 | a number's decimal form passes the phone pattern exactly when the number is between 1 and 10^16 - 1 |
| Validator.PlusPhoneNumberRange | components/form-filler.tsx:71 | the same holds with a leading `+` |
| Validator.FieldErrors | components/form-filler.tsx:48-76 | the list of every failing rule's message is empty exactly when the value passes all rules |
| Validator.ValidateField | components/form-filler.tsx:48-76 | the message of the first failing rule (required, minimum length, maximum length, pattern, e-mail, phone), and `""` exactly when all pass |
| Validator.RequiredMessageIsDistinct | components/form-filler.tsx:48-76 | the required message differs from every other message |
| Validator.RequiredReportedIffBlank | components/form-filler.tsx:51-53 | a required field reports the required message exactly for an absent value, an unticked checkbox or whitespace-only text |
| Validator.OptionalBlankIsValid | components/form-filler.tsx:51-76 | a non-required field with a falsy value is valid whatever its type and rules |
| Validator.CheckboxHasNoLengthError | components/form-filler.tsx:55-61 | a checkbox value never gets a length message |
| Validator.EmailFieldAccepts | components/form-filler.tsx:67 | an e-mail field without rules accepts a non-empty value exactly when it has the shape local `@` domain `.` tld |
| Validator.StripConcat | components/form-filler.tsx:71 | removing whitespace commutes with concatenation |
| Validator.StripDropsSpaces | components/form-filler.tsx:71 | whitespace inserted anywhere disappears when whitespace is removed |
| Validator.PhoneFieldIgnoresSpaces | components/form-filler.tsx:71 | inserting whitespace into a non-empty phone value does not change its verdict |
| Validator.RequiredBeatsMinLength | components/form-filler.tsx:51-58 | the first failing rule wins: a required field holding only whitespace, shorter than an active minimum length, fails both the required and the length rule and reports the required message |
| FillSession.StepFields | components/form-filler.tsx:88-95 | all fields of a single-step form; otherwise exactly the fields referencing step i's id, or the unassigned fields for an index outside the steps |
| FillSession.ErrorMapKeys | components/form-filler.tsx:97-108 | an id has an error entry exactly when a field with that id fails, and every entry is a non-empty message |
| FillSession.ErrorMapValues | components/form-filler.tsx:97-108 | with unique ids, the entry of a failing field is its own message |
| FillSession.ErrorMapEmptyIffValid | components/form-filler.tsx:97-110 | the error record is empty exactly when every field passes |
| FillSession.CollectErrors | components/form-filler.tsx:100-106 | the `forEach` loop builds the error record of the given fields |
| FillSession.EveryFieldOnSomeStep | components/form-filler.tsx:88-95 | a field referencing an existing step is checked on some step |
| FillSession.DanglingFieldOnNoStep | components/form-filler.tsx:88-95 | a field referencing a missing step is checked on no step |
| FillSession.StepFieldsOutsideSteps | components/form-preview.tsx:72-79 | past the step list the step shows exactly the fields without a step reference |
| FillSession.Session.constructor | components/form-filler.tsx:20-24 | an empty session on step 0, not submitted |
| FillSession.Session.HandleFieldChange | components/form-filler.tsx:78-86 | the value is stored; only that field's message is recomputed, and an id matching no field leaves the errors unchanged |
| FillSession.Session.ValidateCurrentStep | components/form-preview.tsx:81-94 | only the current step's failing messages are merged over the shown ones; the result is true exactly when none of its fields fails |
| FillSession.Session.HandleNext | components/form-filler.tsx:112-116 | validates the current step and advances to min(i+1, steps-1) only when it passes |
| FillSession.Session.HandlePrevious | components/form-filler.tsx:118-120 | goes to max(i-1, 0) without validating |
| FillSession.Session.HandleSubmit | components/form-filler.tsx:122-148 | before the last step acts as next; otherwise replaces the errors with all fields' errors, keeps the step, and accepts exactly when there are none |
| FillSession.OpenSession | components/form-filler.tsx:26-31 | a session opens exactly when a saved form has that id, on that form with no values on step 0 |
| Canvas.AssignedTo | components/form-canvas.tsx:28 | exactly the fields referencing that step id |
| Canvas.UnassignedFields | components/form-canvas.tsx:31 | exactly the fields whose step reference is falsy |
| Canvas.FieldsByStep | components/form-canvas.tsx:21-40 | one block with all fields when single-step; otherwise one block per step in step order with its fields, then the "Unassigned Fields" block exactly when some field has a falsy step |
| Canvas.StepBlockInDocumentOrder | components/form-canvas.tsx:25-28 | step i's block is the subsequence of the field list at strictly increasing positions, and those positions are exactly the fields referencing step i |
| Canvas.CanvasCoverage | components/form-canvas.tsx:26-37 | a field is on the canvas exactly when its step reference is falsy or names an existing step |
| Canvas.CanvasDisjoint | components/form-canvas.tsx:26-37 | with unique non-empty step ids no field appears in two blocks |
| Canvas.CanvasMatchesFillerStep | components/form-canvas.tsx:26-29 | step i's block equals the fields the filler shows on step i |
| Canvas.HandleDragEnd | components/form-canvas.tsx:15-19 | no destination changes nothing; otherwise the block-local indices are passed unchanged to `reorderFields` |
| Canvas.DragInSecondStepMovesFirstStepField | components/form-canvas.tsx:15-19 | in a two-step form, dragging within the second block moves a first-step field instead and leaves the second block as it was |
| ConfigPanel.RulesOf | components/field-config-panel.tsx:71-84 | no validation record exactly when all three rule inputs are blank; blank inputs become absent bounds and pattern |
| ConfigPanel.FieldUpdates | components/field-config-panel.tsx:58-84 | the update never changes the type; always carries label and required flag; blank placeholder, help text and step become `undefined`; options only for select and radio; validation only when some rule input is filled |
| ConfigPanel.BuildFieldUpdates | components/field-config-panel.tsx:58-84 | the conditional assignments build exactly that update |
| ConfigPanel.AddOptionTo | components/field-config-panel.tsx:89-92 | appends "Option n+1" after the n existing options |
| ConfigPanel.RemoveOptionAt | components/field-config-panel.tsx:100-103 | drops only the option at the index, shifting the later ones down; an index outside the list changes nothing |
| ConfigPanel.ReplaceOption | components/field-config-panel.tsx:94-98 | the copy differs from the list only at the index, which holds the new value |
| ConfigPanel.RemoveAddedOption | components/field-config-panel.tsx:89-103 | removing the option just added gives the list back |
| ConfigPanel.RemoveKeepsAnOption | components/field-config-panel.tsx:100-103 | while removal is enabled (more than one option), a removal leaves at least one option |
| ConfigPanel.ClearedRulesKeepValidation | components/field-config-panel.tsx:71-84 | clearing all three rule inputs leaves the field's previous validation in place |
| ConfigPanel.ClearedRulesReappear | components/field-config-panel.tsx:34-84 | after clearing all rule inputs, re-seeding from the updated field shows the old rules again |
| ConfigPanel.BlankInputsClear | components/field-config-panel.tsx:60-63 | blank placeholder, help text and step inputs clear those attributes of the field |
| ConfigPanel.NoStepChoiceStoresNone | components/field-config-panel.tsx:179-184 | choosing "No step (unassigned)" stores the literal `"none"` as the step reference |
| ConfigPanel.NoStepChoiceHidesField | components/field-config-panel.tsx:179-184 | in a multi-step form without a step named `"none"`, that choice removes the field from every canvas block and every filler step |
| ConfigPanel.ParseBoundText | components/field-config-panel.tsx:72-77 | reading back the shown text of a length bound gives the bound |
| ConfigPanel.SeedThenUpdateIsIdentity | components/field-config-panel.tsx:34-87 | sending a field's seeded settings back unchanged leaves the field as it was, unless it holds values the panel shows as blank |
| ConfigPanel.Panel.constructor | components/field-config-panel.tsx:20-32 | the panel starts from blank settings |
| ConfigPanel.Panel.SelectedField | components/field-config-panel.tsx:18 | the first field of the current form carrying the selected id, and none exactly when there is no form, no selection or no field with that id |
| ConfigPanel.Panel.SyncWithSelection | components/field-config-panel.tsx:34-50 | the effect that runs on every change of the selected field object (a new selection, and every update of the selected field): with a selected field the settings are seeded from it, otherwise they stay |
| ConfigPanel.Panel.HandleUpdate | components/field-config-panel.tsx:52-87 | nothing without a selected field; otherwise the keys are merged into the settings and the update built from them is merged into the selected field |
| ConfigPanel.Panel.AddOption | components/field-config-panel.tsx:89-92 | nothing without a selected field; otherwise the option list gains "Option n+1", the rest of the settings stay, and the selected field receives the update built from the new settings |
| ConfigPanel.Panel.UpdateOption | components/field-config-panel.tsx:94-98 | nothing without a selected field; otherwise only the option at the index changes, the rest of the settings stay, and the selected field receives the update built from the new settings |
| ConfigPanel.Panel.RemoveOption | components/field-config-panel.tsx:100-103 | nothing without a selected field; otherwise only the option at the index is removed, the rest of the settings stay, and the selected field receives the update built from the new settings |
| Palette.PaletteOffersEveryTypeOnce | components/field-palette.tsx:7-62 | the palette lists the nine field types, each exactly once |
| Palette.PaletteLabelOfEntry | components/field-palette.tsx:70 | a type's label is the label of its palette entry |
| Palette.DefaultField | components/field-palette.tsx:67-77 | the new field has the chosen type, is not required, has no placeholder, help text or rules, gets the three default options exactly for select and radio, and goes to the first step exactly when the form is multi-step with steps |
| Palette.DefaultFieldLabel | components/field-palette.tsx:70 | every new field's label is its palette label followed by " Field" |
| Palette.NewFieldOnFirstStep | components/field-palette.tsx:72 | in a multi-step form with steps the new field shows in the first canvas block and on the first filler step |
| Palette.HandleAddField | components/field-palette.tsx:67-80 | the default field is appended under the fresh id |
| StepManager.EditWithoutChangeKeepsStep | components/multi-step-manager.tsx:28-42 | editing a step and saving without changes gives it back, except that a missing description becomes empty |
| StepManager.FieldCountMatchesCanvas | components/multi-step-manager.tsx:49-51 | the field count shown for a step equals its canvas block size and its filler step size |
| StepManager.NoFieldCountedAfterRemove | components/multi-step-manager.tsx:49-51 | after a step is removed no field is counted for it |
| StepManager.DeletionKeepsAStep | components/multi-step-manager.tsx:150-151 | with unique step ids, deleting a step while deletion is enabled leaves at least one step |
| StepManager.Manager.constructor | components/multi-step-manager.tsx:15-17 | no step being edited and blank drafts |
| StepManager.Manager.HandleAddStep | components/multi-step-manager.tsx:21-26 | nothing when the title trims to empty; otherwise the draft is appended as a step and the inputs are cleared |
| StepManager.Manager.HandleEditStep | components/multi-step-manager.tsx:28-34 | edit mode is entered only for an existing step, seeding title and description (or `""`) |
| StepManager.Manager.HandleSaveEdit | components/multi-step-manager.tsx:36-42 | nothing without an edited step or with a blank title; otherwise the step is updated and edit mode ends |
| StepManager.Manager.HandleCancelEdit | components/multi-step-manager.tsx:44-47 | edit mode ends and the buffer is cleared; the form is untouched |
| ConditionalLogic.RuleOf | components/conditional-logic-manager.tsx:37-44 | the rule carries the draft's trigger, value and non-empty targets, with condition and action defaulting to equals and show |
| ConditionalLogic.WithoutRule | components/conditional-logic-manager.tsx:54-56 | exactly the rules whose id differs remain |
| ConditionalLogic.RemoveAddedRule | components/conditional-logic-manager.tsx:54-56 | removing a rule just added under a new id gives the list back |
| ConditionalLogic.FieldName | components/conditional-logic-manager.tsx:58-60 | a label of a field with that id, or "Unknown Field", which it always is when no field has that id |
| ConditionalLogic.FieldNameOfField | components/conditional-logic-manager.tsx:58-60 | with unique ids, a field with a non-empty label is named by that label |
| ConditionalLogic.TargetCandidates | components/conditional-logic-manager.tsx:155-156 | every field except the chosen trigger |
| ConditionalLogic.TriggerIsNoTarget | components/conditional-logic-manager.tsx:155-156 | the trigger is never offered as a target and every other field is |
| ConditionalLogic.ToggledTargets | components/conditional-logic-manager.tsx:163-170 | checking adds the id, unchecking removes every occurrence, and other ids are untouched |
| ConditionalLogic.CheckThenUncheck | components/conditional-logic-manager.tsx:163-170 | checking an unchecked target and unchecking it again gives the list back |
| ConditionalLogic.RuleList.constructor | components/conditional-logic-manager.tsx:25-30 | no rules and the draft {equals, show, no targets} |
| ConditionalLogic.RuleList.AddRule | components/conditional-logic-manager.tsx:34-52 | nothing unless trigger, value and a target are set; otherwise one rule is appended and the draft starts over |
| ConditionalLogic.RuleList.RemoveRule | components/conditional-logic-manager.tsx:54-56 | the rules with that id are removed, the others kept in order |
| ConditionalLogic.RuleList.ToggleTarget | components/conditional-logic-manager.tsx:163-170 | the draft's target list becomes the toggled list |

## Left out

- `previewMode`, `setPreviewMode`, `isPreviewOpen` and `togglePreview` in lib/store.ts: presentation state only.
- The `persist` middleware and localStorage (lib/store.ts:398-404) are left out; the store lives only in memory.
- `Date.now()` ids and `new Date()` timestamps are method parameters, and so is `window.location.origin`. The `form_`, `field_`, `step_`, `template_` and `rule_` prefixes are not modelled.
- Store.FormStore.AddField, Store.FormStore.AddStep and Store.FormStore.SaveAsTemplate require an id not already in use. The source does not guarantee this; it only makes collisions unlikely.
- Store.FormStore.UpdateForm: only title and description are modelled as keys of the update; the source accepts any `Partial<Form>`.
- The JavaScript regular-expression engine for the author's `pattern` is the `Matcher` parameter. A pattern that is not a valid regular expression, which throws in the source, is not modelled.
- String lengths count Dafny characters, not UTF-16 code units.
- Validator.FailsPhone: the phone check applies only to string values. On a boolean the source would throw, because `replace` is not a function of a boolean.
- JsText.ParseInt: decimal only. `parseInt`'s `0x` hexadecimal prefix and numbers beyond double precision are not modelled.
- ConfigPanel.RulesOf: a length input that `parseInt` reads as `NaN` becomes an absent bound. The source stores `NaN`, which the validator treats like an absent bound (it is falsy) and the panel shows again as "NaN".
- ConfigPanel.Panel.HandleUpdate states the settings as `setConfig` leaves them. The seeding effect then runs again, because `updateField` (lib/store.ts:212-223) gives the selected field a new object; the settings finally shown are those of ConfigPanel.Panel.SyncWithSelection called after it (a minimum length typed as "05" shows again as "5").
- FormModel.FieldPatch has no `id` key. `Partial<FormField>` allows one and the spread would overwrite the id, but no caller sends an id.
- ConfigPanel.Panel.UpdateOption requires an index inside the list. The panel only calls it for existing options; assigning past the end of a JavaScript array is not modelled.
- The draft-editing `onChange` setters of the panels are not modelled as separate operations, since each only replaces one key of a draft. This covers the step title and description inputs and the rule trigger, condition, value and action selects.
- Conditional rules are neither written to the form nor evaluated, so only their list maintenance is modelled.
- The fill progress percentage (`Math.round` of a float) and every rendering detail are left out.
- The preview's submit ends in an alert, which is the `accepted` result of FillSession.Session.HandleSubmit. The preview has no submitted flag, and its form is the live current form rather than a saved one.
- These files are not part of this model:
  - components/landing-page.tsx, components/dashboard.tsx, components/theme-customizer.tsx: presentation, mock data and animation;
  - components/form-builder.tsx: save delay, clipboard and file download;
  - components/form-header.tsx, components/template-manager.tsx: dialogs over store actions modelled here;
  - components/field-renderer.tsx: rendering only;
  - components/AuthForm.tsx, lib/formApi.ts: authentication and network calls.
