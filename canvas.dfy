/**
 * The builder canvas: the fields of the form being edited, grouped under
 * their steps in a multi-step form, and reordered by drag and drop.
 */
module Canvas {
  import opened Common
  import opened FormModel
  import opened Store
  import opened FillSession

  /** One block of the canvas: its step heading (none in a single-step form) and its fields. */
  datatype Group = Group(step: Option<Step>, fields: seq<Field>)

  /** The heading of the block of fields that belong to no step. */
  const UnassignedStep := Step("unassigned", "Unassigned Fields", Some(""))

  /** `!field.stepId`: no step reference, or the empty string. */
  predicate Unassigned(f: Field)
  {
    f.stepId.None? || f.stepId == Some("")
  }

  /** The fields that reference the step with id `id`, in document order. */
  function AssignedTo(fields: seq<Field>, id: string): (r: seq<Field>)
    ensures |r| <= |fields|
    ensures forall f :: f in r <==> f in fields && f.stepId == Some(id)
  {
    Filter((f: Field) => f.stepId == Some(id), fields)
  }

  /** The fields that reference no step, in document order. */
  function UnassignedFields(fields: seq<Field>): (r: seq<Field>)
    ensures |r| <= |fields|
    ensures forall f :: f in r <==> f in fields && Unassigned(f)
  {
    Filter(Unassigned, fields)
  }

  /**
   * `getFieldsByStep`: one block with every field in a single-step form;
   * otherwise one block per step, in step order, then the unassigned block
   * when it is not empty.
   */
  function FieldsByStep(form: Form): (groups: seq<Group>)
    ensures !form.isMultiStep ==> groups == [Group(None, form.fields)]
    ensures form.isMultiStep ==>
      |groups| == |form.steps| + (if UnassignedFields(form.fields) == [] then 0 else 1)
    ensures form.isMultiStep ==> forall i :: 0 <= i < |form.steps| ==>
      groups[i].step == Some(form.steps[i])
      && forall f :: f in groups[i].fields <==> f in form.fields && f.stepId == Some(form.steps[i].id)
    ensures form.isMultiStep && |groups| > |form.steps| ==>
      groups[|form.steps|].step == Some(UnassignedStep)
      && forall f :: f in groups[|form.steps|].fields <==> f in form.fields && Unassigned(f)
    ensures forall g :: g in groups ==> |g.fields| <= |form.fields|
  {
    if !form.isMultiStep then [Group(None, form.fields)]
    else
      var stepGroups := seq(|form.steps|, i requires 0 <= i < |form.steps| =>
        Group(Some(form.steps[i]), AssignedTo(form.fields, form.steps[i].id)));
      var unassigned := UnassignedFields(form.fields);
      if |unassigned| > 0 then stepGroups + [Group(Some(UnassignedStep), unassigned)] else stepGroups
  }

  /** Unfolds `FieldsByStep` at the block of step `i`. */
  lemma StepGroupFields(form: Form, i: nat)
    requires form.isMultiStep && i < |form.steps|
    ensures FieldsByStep(form)[i].fields == AssignedTo(form.fields, form.steps[i].id)
  {
  }

  /**
   * In a multi-step form the block of step `i` lists, in document order,
   * exactly the fields that reference step `i`: it is the subsequence of
   * the field list at strictly increasing positions, and those positions
   * are precisely the ones whose field has that step reference.
   */
  lemma StepBlockInDocumentOrder(form: Form, i: nat)
    requires form.isMultiStep && i < |form.steps|
    ensures var p := (f: Field) => f.stepId == Some(form.steps[i].id);
      SelectedInOrder(p, form.fields, FieldsByStep(form)[i].fields, FilterIndices(p, form.fields))
  {
    StepGroupFields(form, i);
    FilterSelectsInOrder((f: Field) => f.stepId == Some(form.steps[i].id), form.fields);
  }

  /**
   * A field of a multi-step form is on the canvas exactly when it has no
   * step or its step exists: a field referring to a missing step vanishes.
   */
  lemma CanvasCoverage(form: Form, f: Field)
    requires form.isMultiStep && f in form.fields
    ensures (exists g :: g in FieldsByStep(form) && f in g.fields)
      <==> Unassigned(f) || exists i :: 0 <= i < |form.steps| && f.stepId == Some(form.steps[i].id)
  {
    var groups := FieldsByStep(form);
    if exists i :: 0 <= i < |form.steps| && f.stepId == Some(form.steps[i].id) {
      var i :| 0 <= i < |form.steps| && f.stepId == Some(form.steps[i].id);
      assert f in groups[i].fields;
    } else if Unassigned(f) {
      assert f in UnassignedFields(form.fields);
      assert f in groups[|form.steps|].fields;
    }
    if exists g :: g in groups && f in g.fields {
      var g :| g in groups && f in g.fields;
      var k :| 0 <= k < |groups| && groups[k] == g;
      if k < |form.steps| {
        assert f.stepId == Some(form.steps[k].id);
      }
    }
  }

  /** With unique, non-empty step ids, no field is shown in two blocks. */
  lemma CanvasDisjoint(form: Form, f: Field, i: nat, j: nat)
    requires UniqueStepIds(form.steps)
    requires forall k :: 0 <= k < |form.steps| ==> form.steps[k].id != ""
    requires i < j < |FieldsByStep(form)|
    requires f in FieldsByStep(form)[i].fields
    ensures f !in FieldsByStep(form)[j].fields
  {
  }

  /**
   * In a multi-step form the canvas block of step `i` holds the same
   * fields, in the same order, as step `i` of the filler and the preview.
   */
  lemma CanvasMatchesFillerStep(form: Form, i: nat)
    requires form.isMultiStep && i < |form.steps|
    ensures FieldsByStep(form)[i].fields == StepFields(form, i)
  {
    var p := (f: Field) => f.stepId == Some(form.steps[i].id);
    var q := (f: Field) => f.stepId == StepIdAt(form, i);
    FilterSamePredicate(p, q, form.fields);
  }

  /**
   * `handleDragEnd`: a drop outside any list does nothing; otherwise the
   * block-local source and destination indices are handed unchanged to
   * `reorderFields`, which applies them to the whole field list.
   */
  method HandleDragEnd(store: FormStore, group: nat, source: nat, destination: Option<nat>, now: int)
    requires store.Valid()
    requires store.currentForm.Some? ==>
      group < |FieldsByStep(store.currentForm.value)|
      && source < |FieldsByStep(store.currentForm.value)[group].fields|
      && (destination.Some? ==> destination.value < |FieldsByStep(store.currentForm.value)[group].fields|)
    modifies store`currentForm
    ensures store.Valid()
    ensures destination.None? ==> store.currentForm == old(store.currentForm)
    ensures destination.Some? && old(store.currentForm).Some? ==> store.currentForm == Some(old(store.currentForm).value.(
      fields := Move(old(store.currentForm).value.fields, source, destination.value), updatedAt := now))
    ensures old(store.currentForm).None? ==> store.currentForm.None?
  {
    if destination.None? {
      return;
    }
    if store.currentForm.Some? {
      assert FieldsByStep(store.currentForm.value)[group] in FieldsByStep(store.currentForm.value);
    }
    store.ReorderFields(source, destination.value, now);
  }

  /**
   * Moving the first element one place down swaps the first two; a step
   * of the drag scenario below.
   */
  lemma MoveFirstDown<T>(s: seq<T>)
    requires |s| >= 2
    ensures Move(s, 0, 1) == [s[1], s[0]] + s[2..]
  {
    assert RemoveAt(s, 0) == s[1..];
  }

  /**
   * The fields of the drag scenario below that reference step `id`, before
   * and after the move.
   */
  lemma AssignedOfThree(a: Field, b: Field, c: Field, id: string)
    requires a.stepId != Some(id) && b.stepId == Some(id) && c.stepId == Some(id)
    ensures AssignedTo([a, b, c], id) == [b, c]
    ensures AssignedTo([b, a, c], id) == [b, c]
  {
    FilterOfThree((f: Field) => f.stepId == Some(id), a, b, c);
    FilterOfThree((f: Field) => f.stepId == Some(id), b, a, c);
  }

  /**
   * Block-local indices move the wrong field: in a two-step form whose
   * fields are `a` on the first step then `b` and `c` on the second,
   * dragging `b` below `c` in the second block moves `a` behind `b` and
   * leaves the second block as it was.
   */
  lemma DragInSecondStepMovesFirstStepField(form: Form, a: Field, b: Field, c: Field)
    requires form.isMultiStep && |form.steps| == 2 && form.steps[0].id != form.steps[1].id
    requires form.fields == [a, b, c]
    requires a.stepId == Some(form.steps[0].id)
    requires b.stepId == Some(form.steps[1].id) && c.stepId == Some(form.steps[1].id)
    ensures FieldsByStep(form)[1].fields == [b, c]
    ensures Move(FieldsByStep(form)[1].fields, 0, 1) == [c, b]
    ensures Move(form.fields, 0, 1) == [b, a, c]
    ensures FieldsByStep(form.(fields := Move(form.fields, 0, 1)))[1].fields == [b, c]
  {
    var id := form.steps[1].id;
    assert FieldsByStep(form)[1].fields == [b, c] by {
      AssignedOfThree(a, b, c, id);
      SecondBlockIs(form, [b, c]);
    }
    assert Move([b, c], 0, 1) == [c, b] by {
      MoveFirstDown([b, c]);
      assert [b, c][2..] == [];
    }
    assert Move(form.fields, 0, 1) == [b, a, c] by {
      MoveFirstDown([a, b, c]);
      assert [a, b, c][2..] == [c];
    }
    assert FieldsByStep(form.(fields := [b, a, c]))[1].fields == [b, c] by {
      AssignedOfThree(a, b, c, id);
      SecondBlockIs(form.(fields := [b, a, c]), [b, c]);
    }
  }

  /** The second block of a two-step form, for the drag scenario above. */
  lemma SecondBlockIs(form: Form, block: seq<Field>)
    requires form.isMultiStep && |form.steps| == 2
    requires AssignedTo(form.fields, form.steps[1].id) == block
    ensures FieldsByStep(form)[1].fields == block
  {
    StepGroupFields(form, 1);
  }

}
