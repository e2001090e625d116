/**
 * The conditional-logic panel of the builder: a list of rules kept in the
 * panel's own state and the draft of the next rule. Rules are never written
 * to the form or evaluated, so only the list maintenance is modelled.
 */
module ConditionalLogic {
  import opened Common
  import opened FormModel

  datatype Condition = Equals | NotEquals | Contains | GreaterThan | LessThan

  datatype RuleAction = Show | Hide | Require | MakeOptional

  /** `ConditionalRule` */
  datatype Rule = Rule(
    id: string,
    fieldId: string,
    condition: Condition,
    value: string,
    action: RuleAction,
    targetFieldIds: seq<string>)

  /** `Partial<ConditionalRule>` without the id: every attribute may be missing. */
  datatype RuleDraft = RuleDraft(
    fieldId: Option<string>,
    condition: Option<Condition>,
    value: Option<string>,
    action: Option<RuleAction>,
    targetFieldIds: Option<seq<string>>)

  /** The draft the panel starts from and returns to after adding a rule. */
  const BlankDraft := RuleDraft(None, Some(Equals), None, Some(Show), Some([]))

  /** The guard of `addRule` and of its button: a trigger, a value and at least one target. */
  predicate CanAddRule(d: RuleDraft)
  {
    && d.fieldId.Some? && d.fieldId.value != ""
    && d.value.Some? && d.value.value != ""
    && d.targetFieldIds.Some? && |d.targetFieldIds.value| > 0
  }

  /** The rule `addRule` builds from a complete draft; condition and action default to equals and show. */
  function RuleOf(d: RuleDraft, id: string): (r: Rule)
    requires CanAddRule(d)
    ensures r.id == id && r.fieldId == d.fieldId.value && r.value == d.value.value
    ensures r.targetFieldIds == d.targetFieldIds.value && |r.targetFieldIds| > 0
    ensures r.condition == (if d.condition.Some? then d.condition.value else Equals)
    ensures r.action == (if d.action.Some? then d.action.value else Show)
  {
    Rule(id, d.fieldId.value, if d.condition.Some? then d.condition.value else Equals, d.value.value,
         if d.action.Some? then d.action.value else Show, d.targetFieldIds.value)
  }

  /** `rules.filter((rule) => rule.id !== ruleId)` */
  function WithoutRule(rules: seq<Rule>, ruleId: string): (r: seq<Rule>)
    ensures |r| <= |rules|
    ensures forall x :: x in r <==> x in rules && x.id != ruleId
  {
    Filter((x: Rule) => x.id != ruleId, rules)
  }

  /** Removing a rule just added under an id no other rule has gives the list back. */
  lemma RemoveAddedRule(rules: seq<Rule>, rule: Rule)
    requires forall i :: 0 <= i < |rules| ==> rules[i].id != rule.id
    ensures WithoutRule(rules + [rule], rule.id) == rules
  {
    FilterDropsAppended((x: Rule) => x.id != rule.id, rules, rule);
  }

  /**
   * `getFieldName`: the label of the field with that id, or "Unknown Field"
   * when there is no such field or its label is empty.
   */
  function FieldName(fields: seq<Field>, fieldId: string): (r: string)
    ensures r == "Unknown Field" || exists f :: f in fields && f.id == fieldId && f.labelText == r
    ensures (forall i :: 0 <= i < |fields| ==> fields[i].id != fieldId) ==> r == "Unknown Field"
  {
    match Find((f: Field) => f.id == fieldId, fields)
    case Some(f) => if f.labelText != "" then f.labelText else "Unknown Field"
    case None => "Unknown Field"
  }

  /** With unique ids, a field with a non-empty label is named by its label. */
  lemma FieldNameOfField(fields: seq<Field>, i: nat)
    requires UniqueFieldIds(fields) && i < |fields| && fields[i].labelText != ""
    ensures FieldName(fields, fields[i].id) == fields[i].labelText
  {
    var found := Find((f: Field) => f.id == fields[i].id, fields);
    var k :| 0 <= k < |fields| && fields[k] == found.value;
    assert k == i;
  }

  /** The fields offered as targets: every field except the chosen trigger. */
  function TargetCandidates(fields: seq<Field>, trigger: Option<string>): (r: seq<Field>)
    ensures forall f :: f in r <==> f in fields && Some(f.id) != trigger
  {
    Filter((f: Field) => Some(f.id) != trigger, fields)
  }

  /** The trigger field is never offered as a target, and all other fields are. */
  lemma TriggerIsNoTarget(fields: seq<Field>, trigger: string)
    ensures forall f :: f in TargetCandidates(fields, Some(trigger)) ==> f.id != trigger
    ensures forall i :: 0 <= i < |fields| && fields[i].id != trigger ==> fields[i] in TargetCandidates(fields, Some(trigger))
  {
  }

  /** The target list after a checkbox change: appended when checked, every occurrence dropped when unchecked. */
  function ToggledTargets(targets: Option<seq<string>>, fieldId: string, checked: bool): (r: seq<string>)
    ensures checked ==> fieldId in r
    ensures !checked ==> fieldId !in r
    ensures forall id :: id != fieldId ==> (id in r <==> targets.Some? && id in targets.value)
  {
    var current := if targets.Some? then targets.value else [];
    if checked then current + [fieldId] else Filter((id: string) => id != fieldId, current)
  }

  /** Checking a target that was not checked and unchecking it again gives the list back. */
  lemma CheckThenUncheck(targets: seq<string>, fieldId: string)
    requires fieldId !in targets
    ensures ToggledTargets(Some(ToggledTargets(Some(targets), fieldId, true)), fieldId, false) == targets
  {
    FilterDropsAppended((id: string) => id != fieldId, targets, fieldId);
  }

  /** The panel's own state: the rules and the draft of the next one. */
  class RuleList {
    var rules: seq<Rule>
    var newRule: RuleDraft

    constructor ()
      ensures rules == [] && newRule == BlankDraft
    {
      rules := [];
      newRule := BlankDraft;
    }

    /**
     * `addRule`: nothing unless the draft is complete; otherwise one rule
     * is appended under `ruleId` and the draft starts over.
     */
    method AddRule(ruleId: string)
      modifies this`rules, this`newRule
      ensures !CanAddRule(old(newRule)) ==> rules == old(rules) && newRule == old(newRule)
      ensures CanAddRule(old(newRule)) ==> rules == old(rules) + [RuleOf(old(newRule), ruleId)] && newRule == BlankDraft
    {
      if !CanAddRule(newRule) {
        return;
      }
      var rule := RuleOf(newRule, ruleId);
      rules := rules + [rule];
      newRule := BlankDraft;
    }

    /** `removeRule`: every rule with that id goes, the others stay in order. */
    method RemoveRule(ruleId: string)
      modifies this`rules
      ensures rules == WithoutRule(old(rules), ruleId)
    {
      rules := WithoutRule(rules, ruleId);
    }

    /** The target checkbox handler. */
    method ToggleTarget(fieldId: string, checked: bool)
      modifies this`newRule
      ensures newRule == old(newRule).(targetFieldIds := Some(ToggledTargets(old(newRule).targetFieldIds, fieldId, checked)))
    {
      var targetIds := if newRule.targetFieldIds.Some? then newRule.targetFieldIds.value else [];
      if checked {
        newRule := newRule.(targetFieldIds := Some(targetIds + [fieldId]));
      } else {
        newRule := newRule.(targetFieldIds := Some(Filter((id: string) => id != fieldId, targetIds)));
      }
    }
  }
}
