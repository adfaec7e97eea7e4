/** The policy store, held in memory: the queries the evaluator and the plugin make of
    it, with the filters and the ordering the stored queries ask for. */
module PolicyData {
  import opened Values
  import opened Policy
  import Sequences

  /** The organisation service handle; only whether one was supplied matters here. */
  datatype OrganizationService = OrganizationService

  /** The stored policy rows. */
  datatype PolicyCollection = PolicyCollection(rules: seq<PolicyRule>, conditions: seq<PolicyCondition>)

  const EmptyGuid: Values.Guid := seq(32, i => 0)

  /** The active conditions of one rule, ascending by sequence; the empty id is refused. */
  function GetConditions(pc: PolicyCollection, ruleId: Values.Guid): (r: Result<seq<PolicyCondition>, Exception>)
    ensures ruleId == EmptyGuid ==> r == Err(ArgumentNull("ruleId"))
    ensures r.Ok? ==> Sequences.Sorted(r.value, ConditionSequence)
                      && forall c :: c in r.value <==> c in pc.conditions && c.active && c.ruleId == ruleId
  {
    if ruleId == EmptyGuid then Err(ArgumentNull("ruleId"))
    else
      var keep := (c: PolicyCondition) => c.active && c.ruleId == ruleId;
      var picked := Sequences.Filter(pc.conditions, keep);
      Sequences.FilterFacts(pc.conditions, keep);
      var sorted := Sequences.SortByKey(picked, ConditionSequence);
      Sequences.SortByKeyFacts(picked, ConditionSequence);
      assert forall c :: c in sorted <==> c in picked by {
        assert forall c :: c in sorted <==> c in multiset(sorted);
        assert forall c :: c in picked <==> c in multiset(picked);
      }
      Ok(sorted)
  }

  /** The active rules for one entity attribute, ascending by sequence; a null entity or
      attribute name is refused. */
  function GetRules(pc: PolicyCollection, entityLogicalName: Option<string>, attributeLogicalName: Option<string>)
    : (r: Result<seq<PolicyRule>, Exception>)
    ensures entityLogicalName.None? ==> r == Err(ArgumentNull("entityLogicalName"))
    ensures entityLogicalName.Some? && attributeLogicalName.None? ==> r == Err(ArgumentNull("attributeLogicalName"))
    ensures r.Ok? ==> Sequences.Sorted(r.value, RuleSequence) && multiset(r.value) <= multiset(pc.rules)
                      && forall q :: q in r.value <==> (q in pc.rules && q.active
                                                       && q.targetEntityLogicalName == entityLogicalName
                                                       && q.targetAttributeLogicalName == attributeLogicalName)
  {
    if entityLogicalName.None? then Err(ArgumentNull("entityLogicalName"))
    else if attributeLogicalName.None? then Err(ArgumentNull("attributeLogicalName"))
    else
      var keep := (q: PolicyRule) =>
        q.active && q.targetEntityLogicalName == entityLogicalName && q.targetAttributeLogicalName == attributeLogicalName;
      var picked := Sequences.Filter(pc.rules, keep);
      Sequences.FilterFacts(pc.rules, keep);
      var sorted := Sequences.SortByKey(picked, RuleSequence);
      Sequences.SortByKeyFacts(picked, RuleSequence);
      assert forall q :: q in sorted <==> q in picked by {
        assert forall q :: q in sorted <==> q in multiset(sorted);
        assert forall q :: q in picked <==> q in multiset(picked);
      }
      Ok(sorted)
  }

  predicate Governs(q: PolicyRule, pc: PolicyCollection, entityLogicalName: string, a: string) {
    q in pc.rules && q.active && q.targetEntityLogicalName == Some(entityLogicalName)
    && q.targetAttributeLogicalName == Some(a)
  }

  /** The attribute names that active rules of an entity govern; a blank entity name
      governs nothing, and neither does a rule with a null or empty attribute name. */
  function GetGovernedAttributes(pc: PolicyCollection, entityLogicalName: string): (g: set<string>)
    ensures IsNullOrWhiteSpace(Some(entityLogicalName)) ==> g == {}
    ensures !IsNullOrWhiteSpace(Some(entityLogicalName)) ==>
              forall a :: a in g <==> a != "" && exists q :: Governs(q, pc, entityLogicalName, a)
  {
    if IsNullOrWhiteSpace(Some(entityLogicalName)) then {}
    else
      var g := set q | q in pc.rules && q.active && q.targetEntityLogicalName == Some(entityLogicalName)
                       && q.targetAttributeLogicalName.Some? && q.targetAttributeLogicalName.value != ""
                     :: q.targetAttributeLogicalName.value;
      assert forall a :: a in g <==> a != "" && exists q :: Governs(q, pc, entityLogicalName, a) by {
        forall a | a != "" && exists q :: Governs(q, pc, entityLogicalName, a)
          ensures a in g
        {
          var q :| Governs(q, pc, entityLogicalName, a);
          assert a == q.targetAttributeLogicalName.value;
        }
        forall a | a in g
          ensures a != "" && exists q :: Governs(q, pc, entityLogicalName, a)
        {
          var q :| q in pc.rules && q.active && q.targetEntityLogicalName == Some(entityLogicalName)
                   && q.targetAttributeLogicalName.Some? && q.targetAttributeLogicalName.value != ""
                   && a == q.targetAttributeLogicalName.value;
          assert Governs(q, pc, entityLogicalName, a);
        }
      }
      g
  }
}
