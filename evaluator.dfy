/** Evaluating one attribute: fetch its rules, split them by scope, and run the server
    pass and then the client pass, each on the matching record of a new decision. */
module Evaluator {
  import opened Values
  import opened Policy
  import opened PolicyModel
  import opened PolicyData
  import opened ScopeEvaluation
  import Sequences

  predicate ServerScoped(q: PolicyRule) { q.scope == Some(ServerOnly) || q.scope == Some(Both) }

  predicate ClientScoped(q: PolicyRule) { q.scope == Some(FormOnly) || q.scope == Some(Both) }

  /** The rules the server pass sees: the server-scoped ones, by sequence. */
  function ServerRules(rules: seq<PolicyRule>): (r: seq<PolicyRule>)
    ensures forall q :: q in r <==> q in rules && ServerScoped(q)
    ensures Sequences.Sorted(r, RuleSequence) && multiset(r) <= multiset(rules)
    ensures forall k :: Sequences.WithKey(r, RuleSequence, k)
                        == Sequences.Filter(Sequences.WithKey(rules, RuleSequence, k), ServerScoped)
  {
    var picked := Sequences.Filter(rules, ServerScoped);
    Sequences.FilterFacts(rules, ServerScoped);
    Sequences.SortByKeyFacts(picked, RuleSequence);
    assert forall k :: Sequences.WithKey(Sequences.SortByKey(picked, RuleSequence), RuleSequence, k)
                       == Sequences.Filter(Sequences.WithKey(rules, RuleSequence, k), ServerScoped) by {
      forall k {
        Sequences.SortedFilterKeepsTies(rules, ServerScoped, RuleSequence, k);
      }
    }
    var r := Sequences.SortByKey(picked, RuleSequence);
    assert forall q :: q in r <==> q in picked by {
      assert forall q :: q in r <==> q in multiset(r);
      assert forall q :: q in picked <==> q in multiset(picked);
    }
    r
  }

  /** The rules the client pass sees: the form-scoped ones, by sequence. */
  function ClientRules(rules: seq<PolicyRule>): (r: seq<PolicyRule>)
    ensures forall q :: q in r <==> q in rules && ClientScoped(q)
    ensures Sequences.Sorted(r, RuleSequence) && multiset(r) <= multiset(rules)
    ensures forall k :: Sequences.WithKey(r, RuleSequence, k)
                        == Sequences.Filter(Sequences.WithKey(rules, RuleSequence, k), ClientScoped)
  {
    var picked := Sequences.Filter(rules, ClientScoped);
    Sequences.FilterFacts(rules, ClientScoped);
    Sequences.SortByKeyFacts(picked, RuleSequence);
    assert forall k :: Sequences.WithKey(Sequences.SortByKey(picked, RuleSequence), RuleSequence, k)
                       == Sequences.Filter(Sequences.WithKey(rules, RuleSequence, k), ClientScoped) by {
      forall k {
        Sequences.SortedFilterKeepsTies(rules, ClientScoped, RuleSequence, k);
      }
    }
    var r := Sequences.SortByKey(picked, RuleSequence);
    assert forall q :: q in r <==> q in picked by {
      assert forall q :: q in r <==> q in multiset(r);
      assert forall q :: q in picked <==> q in multiset(picked);
    }
    r
  }

  /** A snapshot of a PolicyDecision. */
  datatype DecisionFlags = DecisionFlags(server: ServerFlags, client: ClientFlags)

  const DefaultDecision := DecisionFlags(DefaultServer, DefaultClient)

  /** Both passes over fetched rules; the first exception raised ends the evaluation. */
  ghost function EvaluateRules(pc: PolicyCollection, service: Option<OrganizationService>, rules: seq<PolicyRule>,
                         target: Option<Entity>, preImage: Option<Entity>): Result<DecisionFlags, Exception>
  {
    var server := EvaluateServer(pc, service, Some(ServerRules(rules)), target, preImage, DefaultServer);
    if server.error.Some? then Err(server.error.value)
    else
      var client := EvaluateClient(pc, service, Some(ClientRules(rules)), target, preImage, DefaultClient);
      if client.error.Some? then Err(client.error.value)
      else Ok(DecisionFlags(server.flags, client.flags))
  }

  /** What EvaluateAttribute decides. */
  ghost function Evaluate(pc: PolicyCollection, service: Option<OrganizationService>, entityLogicalName: Option<string>,
                    attributeLogicalName: Option<string>, target: Option<Entity>, preImage: Option<Entity>)
    : (r: Result<DecisionFlags, Exception>)
    ensures service.None? || target.None? ==> r == Ok(DefaultDecision)
    ensures service.Some? && target.Some? && entityLogicalName.None? ==> r == Err(ArgumentNull("entityLogicalName"))
    ensures service.Some? && target.Some? && GetRules(pc, entityLogicalName, attributeLogicalName).Err?
            ==> r == Err(GetRules(pc, entityLogicalName, attributeLogicalName).error)
    ensures service.Some? && target.Some? && GetRules(pc, entityLogicalName, attributeLogicalName) == Ok([])
            ==> r == Ok(DefaultDecision)
  {
    if service.None? || target.None? then Ok(DefaultDecision)
    else
      var rules :- GetRules(pc, entityLogicalName, attributeLogicalName);
      if |rules| == 0 then Ok(DefaultDecision)
      else EvaluateRules(pc, service, rules, target, preImage)
  }

  /** An attribute no active rule targets keeps the default decision. */
  lemma UntargetedAttributeIsUnrestricted(pc: PolicyCollection, service: Option<OrganizationService>,
                                          entityLogicalName: string, attributeLogicalName: string,
                                          target: Option<Entity>, preImage: Option<Entity>)
    requires forall q :: q in pc.rules && q.active
                         ==> (q.targetEntityLogicalName != Some(entityLogicalName)
                              || q.targetAttributeLogicalName != Some(attributeLogicalName))
    ensures Evaluate(pc, service, Some(entityLogicalName), Some(attributeLogicalName), target, preImage)
            == Ok(DefaultDecision)
  {
  }

  class PolicyEvaluator {
    const policyCollection: PolicyCollection

    constructor (policyCollection: PolicyCollection)
      ensures this.policyCollection == policyCollection
    {
      this.policyCollection := policyCollection;
    }

    /** The checked construction: a null collection is refused. */
    static method New(policyCollection: Option<PolicyCollection>) returns (r: Result<PolicyEvaluator, Exception>)
      ensures policyCollection.None? ==> r == Err(ArgumentNull("policyCollection"))
      ensures policyCollection.Some? ==> r.Ok? && fresh(r.value) && r.value.policyCollection == policyCollection.value
    {
      if policyCollection.None? {
        return Err(ArgumentNull("policyCollection"));
      }
      var evaluator := new PolicyEvaluator(policyCollection.value);
      return Ok(evaluator);
    }

    /** Decides one attribute; the decision and both its records are new objects, the
        records being the ones the passes updated in place. */
    method EvaluateAttribute(service: Option<OrganizationService>, entityLogicalName: Option<string>,
                             attributeLogicalName: Option<string>, target: Option<Entity>, preImage: Option<Entity>)
      returns (r: Result<PolicyDecision, Exception>)
      ensures r.Ok? ==> fresh(r.value) && fresh(r.value.serverDetails) && fresh(r.value.clientDetails)
      ensures Evaluate(policyCollection, service, entityLogicalName, attributeLogicalName, target, preImage)
              == if r.Ok? then Ok(DecisionFlags(r.value.serverDetails.Flags(), r.value.clientDetails.Flags()))
                 else Err(r.error)
    {
      var decision := new PolicyDecision();
      if service.None? || target.None? {
        return Ok(decision);
      }
      var rules := GetRules(policyCollection, entityLogicalName, attributeLogicalName);
      if rules.Err? {
        return Err(rules.error);
      }
      if |rules.value| == 0 {
        return Ok(decision);
      }
      r := EvaluateFetched(decision, service, rules.value, target.value, preImage);
    }

    /** The two scope passes over fetched rules, each updating the matching record of
        decision in place; decision then holds the records the passes returned, which are
        its own. */
    method EvaluateFetched(decision: PolicyDecision, service: Option<OrganizationService>, rules: seq<PolicyRule>,
                           target: Entity, preImage: Option<Entity>)
      returns (r: Result<PolicyDecision, Exception>)
      requires decision.serverDetails.Flags() == DefaultServer && decision.clientDetails.Flags() == DefaultClient
      modifies decision, decision.serverDetails, decision.clientDetails
      ensures r.Ok? ==> r.value == decision && decision.serverDetails == old(decision.serverDetails)
                        && decision.clientDetails == old(decision.clientDetails)
      ensures EvaluateRules(policyCollection, service, rules, Some(target), preImage)
              == if r.Ok? then Ok(DecisionFlags(decision.serverDetails.Flags(), decision.clientDetails.Flags()))
                 else Err(r.error)
    {
      var serverRules := ServerRules(rules);
      var clientRules := ClientRules(rules);
      var scopeEvaluator := new PolicyScopeEvaluation(policyCollection);
      var serverDetails, serverError :=
        scopeEvaluator.EvaluateServerScope(service, Some(serverRules), Some(target), preImage, decision.serverDetails);
      if serverError.Some? {
        return Err(serverError.value);
      }
      decision.serverDetails := serverDetails;
      var clientDetails, clientError :=
        scopeEvaluator.EvaluateClientScope(service, Some(clientRules), Some(target), preImage, decision.clientDetails);
      if clientError.Some? {
        return Err(clientError.value);
      }
      decision.clientDetails := clientDetails;
      return Ok(decision);
    }
  }

  // ---------------------------------------------------------------------------
  // Properties of the orchestration

  /** A rule without a scope is in neither pass, and a Both rule is in both. */
  lemma ScopePartition(rules: seq<PolicyRule>, q: PolicyRule)
    requires q in rules
    ensures q.scope.None? ==> q !in ServerRules(rules) && q !in ClientRules(rules)
    ensures q.scope == Some(Both) ==> q in ServerRules(rules) && q in ClientRules(rules)
    ensures q.scope == Some(ServerOnly) ==> q in ServerRules(rules) && q !in ClientRules(rules)
    ensures q.scope == Some(FormOnly) ==> q !in ServerRules(rules) && q in ClientRules(rules)
  {
  }

  /** The pass's own sort leaves the already sorted partition as it is. */
  lemma PartitionsArePresorted(rules: seq<PolicyRule>)
    ensures Sequences.SortByKey(ServerRules(rules), RuleSequence) == ServerRules(rules)
    ensures Sequences.SortByKey(ClientRules(rules), RuleSequence) == ClientRules(rules)
  {
    Sequences.SortSortedIsIdentity(ServerRules(rules), RuleSequence);
    Sequences.SortSortedIsIdentity(ClientRules(rules), RuleSequence);
  }

  /** Server-only rules leave the client record at its default. */
  lemma ServerOnlyRulesLeaveClientDefault(pc: PolicyCollection, service: Option<OrganizationService>,
                                          rules: seq<PolicyRule>, target: Option<Entity>, preImage: Option<Entity>)
    requires forall q :: q in rules ==> q.scope == Some(ServerOnly)
    ensures EvaluateRules(pc, service, rules, target, preImage).Ok? ==>
              EvaluateRules(pc, service, rules, target, preImage).value.client == DefaultClient
  {
    Sequences.FilterNone(rules, ClientScoped);
  }

  /** Form-only rules leave the server record at its default and raise nothing there. */
  lemma FormOnlyRulesLeaveServerDefault(pc: PolicyCollection, service: Option<OrganizationService>,
                                        rules: seq<PolicyRule>, target: Option<Entity>, preImage: Option<Entity>)
    requires forall q :: q in rules ==> q.scope == Some(FormOnly)
    ensures EvaluateRules(pc, service, rules, target, preImage).Ok? ==>
              EvaluateRules(pc, service, rules, target, preImage).value.server == DefaultServer
    ensures EvaluateRules(pc, service, rules, target, preImage)
            == var client := EvaluateClient(pc, service, Some(ClientRules(rules)), target, preImage, DefaultClient);
               if client.error.Some? then Err(client.error.value) else Ok(DecisionFlags(DefaultServer, client.flags))
  {
    Sequences.FilterNone(rules, ServerScoped);
  }

  /** End to end: one active, unconditional, Both-scoped NotAllowed rule with result true
      makes the attribute not allowed on the server and on the form, and changes nothing
      else. */
  lemma UnconditionalNotAllowedRuleBlocksBothScopes(rule: PolicyRule, entity: string, attribute: string, target: Entity,
                                                     preImage: Option<Entity>)
    requires rule.active && rule.id != EmptyGuid
    requires rule.targetEntityLogicalName == Some(entity) && rule.targetAttributeLogicalName == Some(attribute)
    requires rule.scope == Some(Both) && rule.policyType == Some(NotAllowed) && rule.result == Some(true)
    ensures Evaluate(PolicyCollection([rule], []), Some(OrganizationService), Some(entity), Some(attribute),
                     Some(target), preImage)
            == Ok(DecisionFlags(ServerFlags(false, true), ClientFlags(true, false, true)))
  {
    var pc := PolicyCollection([rule], []);
    OnlyRuleIsFetched(pc, rule, entity, attribute);
    BothScopedRuleInBothPasses(rule);
    UnconditionalRuleMatches(pc, rule, target, preImage);
    Sequences.SortSortedIsIdentity([rule], RuleSequence);
    assert EvaluateServer(pc, Some(OrganizationService), Some([rule]), Some(target), preImage, DefaultServer)
           == Outcome(ServerFlags(false, true), None);
    assert EvaluateClient(pc, Some(OrganizationService), Some([rule]), Some(target), preImage, DefaultClient)
           == Outcome(ClientFlags(true, false, true), None);
  }

  /** The store's only rule is what GetRules returns for its own entity and attribute. */
  lemma OnlyRuleIsFetched(pc: PolicyCollection, rule: PolicyRule, entity: string, attribute: string)
    requires pc.rules == [rule] && rule.active
    requires rule.targetEntityLogicalName == Some(entity) && rule.targetAttributeLogicalName == Some(attribute)
    ensures GetRules(pc, Some(entity), Some(attribute)) == Ok([rule])
  {
    var rules := GetRules(pc, Some(entity), Some(attribute));
    assert rules.Ok? && forall q :: q in rules.value <==> q == rule;
    assert |rules.value| == |multiset(rules.value)| <= |multiset([rule])| == 1;
    assert rule in rules.value;
    assert rules.value[0] == rule;
    assert rules.value == [rule];
  }

  /** A Both-scoped rule on its own is the whole of each pass. */
  lemma BothScopedRuleInBothPasses(rule: PolicyRule)
    requires rule.scope == Some(Both)
    ensures ServerRules([rule]) == [rule] && ClientRules([rule]) == [rule]
  {
    assert rule in ServerRules([rule]) && rule in ClientRules([rule]);
    assert |ServerRules([rule])| == |multiset(ServerRules([rule]))| <= |multiset([rule])| == 1;
    assert |ClientRules([rule])| == |multiset(ClientRules([rule]))| <= |multiset([rule])| == 1;
    assert ServerRules([rule])[0] == rule && ClientRules([rule])[0] == rule;
  }

  /** A rule without stored conditions matches every record. */
  lemma UnconditionalRuleMatches(pc: PolicyCollection, rule: PolicyRule, target: Entity, preImage: Option<Entity>)
    requires pc.conditions == [] && rule.id != EmptyGuid
    ensures RuleMatches(pc, rule, target, preImage) == Ok(true)
  {
    EmptyConditions(pc, rule.id);
  }

  lemma EmptyConditions(pc: PolicyCollection, ruleId: Values.Guid)
    requires pc.conditions == [] && ruleId != EmptyGuid
    ensures GetConditions(pc, ruleId) == Ok([])
  {
  }
}
