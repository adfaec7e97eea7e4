/** The pre-operation plugin that enforces server-side policy on Create and Update:
    each governed attribute of the target is evaluated, and a change to a NotAllowed
    attribute or a missing Required value is refused with an exception. */
module PolicyEnforcement {
  import opened Values
  import opened Policy
  import opened PolicyModel
  import opened PolicyData
  import opened Evaluator
  import ValueEquality

  /** The parts of the plugin execution context the plugin reads.  target is None when
      the input parameters hold no Entity under "Target"; preEntityImages maps an image
      name to the registered image, which may itself be null. */
  datatype PluginContext = PluginContext(messageName: string, stage: int, target: Option<Entity>,
                                         preEntityImages: map<string, Option<Entity>>)

  const PreImageName := "PreImage"
  const PreOperationStage := 20

  function Blocked(message: string): Exception {
    Exception(InvalidPluginExecutionException, message)
  }

  const TargetMissingMessage := "Target entity is missing in the input parameters."
  const PreImageMissingMessage := "Pre-Image named " + PreImageName + " required on update"

  function ChangeBlockedMessage(entity: string, attribute: string): string {
    "Change blocked by policy: " + entity + "." + attribute + " is not allowed to change."
  }

  function RequiredMessage(entity: string, attribute: string): string {
    "Policy violation: " + entity + "." + attribute + " is required."
  }

  function CreationBlockedMessage(entity: string, attribute: string): string {
    "Creation blocked by policy: " + entity + "." + attribute + " is not allowed to be set."
  }

  /** What the catch block throws in place of any exception raised while enforcing:
      an InvalidPluginExecutionException with the same message. */
  function Rethrown(e: Exception): (r: Exception)
    ensures r.kind == InvalidPluginExecutionException && r.message == e.message
  {
    Blocked(e.message)
  }

  /** Is this a message and stage the plugin acts on? */
  predicate Handles(context: PluginContext) {
    (context.messageName == "Create" || context.messageName == "Update") && context.stage == PreOperationStage
  }

  /** An update without a registered pre-image is refused before anything is evaluated;
      a pre-image registered as null passes this check. */
  predicate PreImageMissing(context: PluginContext) {
    context.messageName == "Update" && PreImageName !in context.preEntityImages
  }

  /** The pre-image the checks see: the registered one on update, none on create. */
  function PreImageOf(context: PluginContext): (p: Option<Entity>)
    ensures context.messageName != "Update" ==> p.None?
  {
    if context.messageName == "Update" && PreImageName in context.preEntityImages
    then context.preEntityImages[PreImageName] else None
  }

  /** The old value of an attribute on update: absent from the pre-image counts as null. */
  function OldValue(preImage: Entity, attribute: string): (v: Value)
    ensures attribute !in preImage.attributes ==> v == Null
  {
    if attribute in preImage.attributes then preImage.attributes[attribute] else Null
  }

  /** The exception (before the catch block rewraps it) that checking one governed
      attribute raises, if any. */
  ghost function CheckAttribute(pc: PolicyCollection, messageName: string, target: Entity, preImage: Option<Entity>,
                                attribute: string): Option<Exception>
  {
    var entity := target.logicalName;
    var inTarget := attribute in target.attributes;
    if messageName == "Update" && inTarget then
      match Evaluate(pc, Some(OrganizationService), Some(entity), Some(attribute), Some(target), preImage)
      case Err(e) => Some(e)
      case Ok(decision) =>
        var newValue := target.attributes[attribute];
        var changeError :=
          if !decision.server.notAllowed then None
          else if preImage.None? then Some(Exception(NullReferenceException, NullReferenceMessage))
          else match ValueEquality.AreEqual(newValue, OldValue(preImage.value, attribute))
            case Err(e) => Some(e)
            case Ok(true) => None
            case Ok(false) => Some(Blocked(ChangeBlockedMessage(entity, attribute)));
        if changeError.Some? then changeError
        else if decision.server.required && newValue.Null? then Some(Blocked(RequiredMessage(entity, attribute)))
        else None
    else if messageName == "Create" then
      match Evaluate(pc, Some(OrganizationService), Some(entity), Some(attribute), Some(target), None)
      case Err(e) => Some(e)
      case Ok(decision) =>
        if decision.server.required && (!inTarget || target.attributes[attribute].Null?) then
          Some(Blocked(RequiredMessage(entity, attribute)))
        else if decision.server.notAllowed && inTarget && !target.attributes[attribute].Null? then
          Some(Blocked(CreationBlockedMessage(entity, attribute)))
        else None
    else None
  }

  /** One iteration of the plugin's loop: evaluates the attribute and applies the
      message's checks to the server decision. */
  method EnforceAttribute(evaluator: PolicyEvaluator, messageName: string, target: Entity, preImage: Option<Entity>,
                          attribute: string)
    returns (error: Option<Exception>)
    ensures error == CheckAttribute(evaluator.policyCollection, messageName, target, preImage, attribute)
  {
    var entity := target.logicalName;
    var isCreate := messageName == "Create";
    var isUpdate := messageName == "Update";
    var inTarget := attribute in target.attributes;
    error := None;
    if isUpdate && inTarget {
      var decision := evaluator.EvaluateAttribute(Some(OrganizationService), Some(entity), Some(attribute),
                                                  Some(target), preImage);
      if decision.Err? {
        return Some(decision.error);
      }
      var server := decision.value.serverDetails;
      if server.notAllowed {
        var newValue := target.attributes[attribute];
        if preImage.None? {
          return Some(Exception(NullReferenceException, NullReferenceMessage));
        }
        var oldValue := if attribute in preImage.value.attributes then preImage.value.attributes[attribute] else Null;
        var equal := ValueEquality.AreEqual(newValue, oldValue);
        if equal.Err? {
          return Some(equal.error);
        }
        if !equal.value {
          return Some(Blocked(ChangeBlockedMessage(entity, attribute)));
        }
      }
      if server.required {
        if target.attributes[attribute].Null? {
          return Some(Blocked(RequiredMessage(entity, attribute)));
        }
      }
    }
    if isCreate {
      var decision := evaluator.EvaluateAttribute(Some(OrganizationService), Some(entity), Some(attribute),
                                                  Some(target), None);
      if decision.Err? {
        return Some(decision.error);
      }
      var server := decision.value.serverDetails;
      if server.required {
        if !inTarget || target.attributes[attribute].Null? {
          return Some(Blocked(RequiredMessage(entity, attribute)));
        }
      }
      if server.notAllowed && inTarget && !target.attributes[attribute].Null? {
        return Some(Blocked(CreationBlockedMessage(entity, attribute)));
      }
    }
  }

  /** The plugin.  pc stands for the policy store the plugin queries.  The governed
      attributes are a set visited in no particular order, so when several attributes
      fail, the exception is that of any one of them. */
  method ExecuteCdsPlugin(context: PluginContext, pc: PolicyCollection) returns (error: Option<Exception>)
    ensures !Handles(context) ==> error.None?
    ensures Handles(context) && context.target.None? ==> error == Some(Blocked(TargetMissingMessage))
    ensures Handles(context) && context.target.Some? && PreImageMissing(context)
            ==> error == Some(Blocked(PreImageMissingMessage))
    ensures Handles(context) && context.target.Some? && !PreImageMissing(context) ==>
              var target := context.target.value;
              var governed := GetGovernedAttributes(pc, target.logicalName);
              var check := (a: string) => CheckAttribute(pc, context.messageName, target, PreImageOf(context), a);
              && (error.None? <==> forall a :: a in governed ==> check(a).None?)
              && (error.Some? ==> exists a :: a in governed && check(a).Some? && error.value == Rethrown(check(a).value))
  {
    if context.messageName != "Create" && context.messageName != "Update" {
      return None;
    }
    if context.stage != PreOperationStage {
      return None;
    }
    if context.target.None? {
      return Some(Blocked(TargetMissingMessage));
    }
    var target := context.target.value;
    var preImage: Option<Entity> := None;
    if context.messageName == "Update" {
      if PreImageName !in context.preEntityImages {
        return Some(Blocked(PreImageMissingMessage));
      }
      preImage := context.preEntityImages[PreImageName];
    }
    var governed := GetGovernedAttributes(pc, target.logicalName);
    if governed == {} {
      return None;
    }
    var evaluator := new PolicyEvaluator(pc);
    error := EnforceAll(evaluator, context.messageName, target, preImage, governed);
  }

  /** The plugin's loop over the governed attributes: the first failing check, in the
      order the set is visited, ends it with that check's exception rewrapped. */
  method EnforceAll(evaluator: PolicyEvaluator, messageName: string, target: Entity, preImage: Option<Entity>,
                    governed: set<string>)
    returns (error: Option<Exception>)
    ensures var check := (a: string) => CheckAttribute(evaluator.policyCollection, messageName, target, preImage, a);
            && (error.None? <==> forall a :: a in governed ==> check(a).None?)
            && (error.Some? ==> exists a :: a in governed && check(a).Some? && error.value == Rethrown(check(a).value))
  {
    var remaining := governed;
    while remaining != {}
      invariant remaining <= governed
      invariant forall a :: (a in governed && a !in remaining)
                             ==> CheckAttribute(evaluator.policyCollection, messageName, target, preImage, a).None?
      decreases |remaining|
    {
      var attribute :| attribute in remaining;
      var failure := EnforceAttribute(evaluator, messageName, target, preImage, attribute);
      if failure.Some? {
        return Some(Rethrown(failure.value));
      }
      remaining := remaining - {attribute};
    }
    error := None;
  }

  // ---------------------------------------------------------------------------
  // Properties of one attribute's checks

  /** On update, an attribute the target does not carry is not checked at all. */
  lemma UpdateChecksOnlyAttributesInTarget(pc: PolicyCollection, target: Entity, preImage: Option<Entity>,
                                           attribute: string)
    requires attribute !in target.attributes
    ensures CheckAttribute(pc, "Update", target, preImage, attribute).None?
  {
  }

  /** On update, a NotAllowed attribute is refused exactly when its new value differs
      from its old one (absent from the pre-image counting as null); an unchanged value
      goes on to the Required check. */
  lemma UpdateBlocksChangeOfNotAllowed(pc: PolicyCollection, target: Entity, preImage: Entity, attribute: string,
                                       decision: DecisionFlags)
    requires attribute in target.attributes
    requires Evaluate(pc, Some(OrganizationService), Some(target.logicalName), Some(attribute), Some(target),
                      Some(preImage)) == Ok(decision)
    requires decision.server.notAllowed
    ensures var equal := ValueEquality.AreEqual(target.attributes[attribute], OldValue(preImage, attribute));
            var check := CheckAttribute(pc, "Update", target, Some(preImage), attribute);
            && (equal == Ok(false) ==> check == Some(Blocked(ChangeBlockedMessage(target.logicalName, attribute))))
            && (equal == Ok(true) ==> (check.Some? <==> decision.server.required && target.attributes[attribute].Null?))
  {
  }

  /** On update, a value set to null where the attribute was absent is no change. */
  lemma UpdateNullOverAbsentIsNoChange(pc: PolicyCollection, target: Entity, preImage: Entity, attribute: string,
                                       decision: DecisionFlags)
    requires attribute in target.attributes && target.attributes[attribute] == Null
    requires attribute !in preImage.attributes
    requires Evaluate(pc, Some(OrganizationService), Some(target.logicalName), Some(attribute), Some(target),
                      Some(preImage)) == Ok(decision)
    ensures CheckAttribute(pc, "Update", target, Some(preImage), attribute)
            == if decision.server.required then Some(Blocked(RequiredMessage(target.logicalName, attribute))) else None
  {
    assert ValueEquality.AreEqual(Null, OldValue(preImage, attribute)) == Ok(true);
  }

  /** On update, NotAllowed is checked before Required: a changed value that is also
      missing is reported as a blocked change. */
  lemma UpdateChecksNotAllowedFirst(pc: PolicyCollection, target: Entity, preImage: Entity, attribute: string)
    requires attribute in target.attributes && target.attributes[attribute] == Null
    requires OldValue(preImage, attribute) != Null
    requires Evaluate(pc, Some(OrganizationService), Some(target.logicalName), Some(attribute), Some(target),
                      Some(preImage)) == Ok(DecisionFlags(ServerFlags(true, true), DefaultClient))
    ensures CheckAttribute(pc, "Update", target, Some(preImage), attribute)
            == Some(Blocked(ChangeBlockedMessage(target.logicalName, attribute)))
  {
    assert ValueEquality.AreEqual(Null, OldValue(preImage, attribute)) == Ok(false);
  }

  /** An update whose pre-image is registered as null fails with a null dereference
      when a NotAllowed attribute is in the target. */
  lemma NullPreImageRaisesOnNotAllowed(pc: PolicyCollection, target: Entity, attribute: string, decision: DecisionFlags)
    requires attribute in target.attributes
    requires Evaluate(pc, Some(OrganizationService), Some(target.logicalName), Some(attribute), Some(target), None)
             == Ok(decision)
    requires decision.server.notAllowed
    ensures CheckAttribute(pc, "Update", target, None, attribute)
            == Some(Exception(NullReferenceException, NullReferenceMessage))
  {
  }

  /** On create, Required refuses an absent or null attribute, NotAllowed refuses only
      a present non-null one, and Required is checked first. */
  lemma CreateChecks(pc: PolicyCollection, target: Entity, attribute: string, decision: DecisionFlags)
    requires Evaluate(pc, Some(OrganizationService), Some(target.logicalName), Some(attribute), Some(target), None)
             == Ok(decision)
    ensures var present := attribute in target.attributes && !target.attributes[attribute].Null?;
            var check := CheckAttribute(pc, "Create", target, None, attribute);
            && (decision.server.required && !present ==> check == Some(Blocked(RequiredMessage(target.logicalName, attribute))))
            && (decision.server.notAllowed && present
                ==> check == Some(Blocked(CreationBlockedMessage(target.logicalName, attribute))))
            && (check.None? <==> !(decision.server.required && !present) && !(decision.server.notAllowed && present))
  {
  }

  /** A failure inside the evaluation is what the attribute's check raises. */
  lemma EvaluationFailureIsRaised(pc: PolicyCollection, messageName: string, target: Entity,
                                  preImage: Option<Entity>, attribute: string, e: Exception)
    requires messageName == "Create" || (messageName == "Update" && attribute in target.attributes)
    requires Evaluate(pc, Some(OrganizationService), Some(target.logicalName), Some(attribute), Some(target),
                      if messageName == "Create" then None else preImage) == Err(e)
    ensures CheckAttribute(pc, messageName, target, preImage, attribute) == Some(e)
  {
  }
}
