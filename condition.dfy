/** Condition matching: the typed equality between a condition's stored value and a
    runtime value, one condition against the trigger attribute of a record, and the
    sequence-ordered conjunction of a rule's conditions. */
module Condition {
  import opened Values
  import opened Policy
  import Sequences

  /** The outcome of a Convert.ToX call inside the comparison's try block: an
      InvalidCastException is caught and means "not equal"; a FormatException or an
      OverflowException escapes. */
  function Caught<T>(c: Conversion<T>, equal: T -> bool): Result<bool, Exception> {
    match c
    case Converted(x) => Ok(equal(x))
    case InvalidCast => Ok(false)
    case Raised(e) => Err(e)
  }

  /** Does the runtime value equal the condition's stored typed value? */
  function ConditionValueEquals(condition: Option<PolicyCondition>, value: Value): (r: Result<bool, Exception>)
    ensures condition.None? || value.Null? ==> r == Ok(false)
    ensures condition.Some? && condition.value.valueType.Unrecognized? ==> r == Ok(false)
    ensures condition.Some? && condition.value.valueType == ValueType.Money && !value.Money? ==> r == Ok(false)
    ensures condition.Some? && condition.value.valueType == Lookup && !value.Reference? ==> r == Ok(false)
    ensures condition.Some? && !value.Null? && condition.value.valueType == String ==>
              r == Ok(condition.value.valueString.Some? && Upper(condition.value.valueString.value) == Upper(Text(value)))
    ensures condition.Some? && !value.Null? && condition.value.valueType == Guid ==>
              r == Ok(condition.value.valueGuid.Some? && Upper(condition.value.valueGuid.value) == Upper(Text(value)))
  {
    if condition.None? || value.Null? then Ok(false)
    else
      var c := condition.value;
      match c.valueType
      case String => Ok(EqualsIgnoreCase(c.valueString, Some(Text(value))))
      case WholeNumber => Caught(ToInt32(value), (n: Int32) => c.valueWholeNumber == Some(n))
      case Decimal => Caught(ToDecimal(value), (d: DecimalAmount) => c.valueDecimal == Some(d))
      case Boolean => Caught(ToBoolean(value), (b: bool) => c.valueBoolean == Some(b))
      case DateTime => Caught(ToDateTime(value), (t: Ticks) => c.valueDateTime == Some(t))
      case Guid => Ok(EqualsIgnoreCase(c.valueGuid, Some(Text(value))))
      case Money => Ok(value.Money? && c.valueMoney == Some(value.amount))
      case OptionSet => Caught(ToInt32(value), (n: Int32) => c.valueOptionSetValue == Some(n))
      case Lookup =>
        Ok(value.Reference?
           && EqualsIgnoreCase(c.valueLookupLogicalName, Some(value.ref.logicalName))
           && c.valueLookupId == Some(GuidText(value.ref.id)))
      case Unrecognized(_) => Ok(false)
  }

  /** Only a conversion of text or of a decimal raises, and only a FormatException or
      an OverflowException. */
  lemma ConditionValueEqualsRaises(condition: Option<PolicyCondition>, value: Value)
    ensures var r := ConditionValueEquals(condition, value);
            r.Err? ==> (value.Str? || value.Dec?) && r.error.kind in {FormatException, OverflowException}
  {
    if condition.Some? && !value.Null? {
      match condition.value.valueType
      case WholeNumber =>
      case Decimal =>
      case Boolean =>
      case DateTime =>
      case OptionSet =>
      case _ =>
    }
  }

  /** The trigger attribute's value: the target's if the target holds the attribute
      (possibly as Null), else the pre-image's, else None. */
  function TriggerValue(name: string, target: Entity, preImage: Option<Entity>): (v: Option<Value>)
    ensures name in target.attributes ==> v == Some(target.attributes[name])
    ensures v.None? <==> name !in target.attributes
                         && (preImage.None? || name !in preImage.value.attributes)
  {
    if name in target.attributes then Some(target.attributes[name])
    else if preImage.Some? && name in preImage.value.attributes then Some(preImage.value.attributes[name])
    else None
  }

  function ApplyOperator(c: PolicyCondition, v: Value): Result<bool, Exception> {
    match c.operator
    case Some(Equals) => ConditionValueEquals(Some(c), v)
    case Some(NotEquals) =>
      (match ConditionValueEquals(Some(c), v)
       case Ok(b) => Ok(!b)
       case Err(e) => Err(e))
    case Some(IsNull) => Ok(v.Null?)
    case Some(IsNotNull) => Ok(!v.Null?)
    case _ => Ok(false)
  }

  /** Does one condition hold of the rule's trigger attribute?  A null rule,
      condition or target is an ArgumentNullException, and so is a rule without a
      trigger attribute name (the attribute collection refuses a null key). */
  function ConditionMatches(rule: Option<PolicyRule>, condition: Option<PolicyCondition>,
                            target: Option<Entity>, preImage: Option<Entity>): (r: Result<bool, Exception>)
    ensures rule.None? || condition.None? || target.None? ==> r.Err? && r.error.kind == ArgumentNullException
    ensures rule.Some? && condition.Some? && target.Some? && rule.value.triggerAttributeLogicalName.Some?
            && (condition.value.operator.None? || condition.value.operator.value.UnrecognizedOperator?)
            ==> r == Ok(false)
  {
    if rule.None? then Err(ArgumentNull("rule"))
    else if condition.None? then Err(ArgumentNull("condition"))
    else if target.None? then Err(ArgumentNull("target"))
    else if rule.value.triggerAttributeLogicalName.None? then Err(ArgumentNull("key"))
    else match TriggerValue(rule.value.triggerAttributeLogicalName.value, target.value, preImage)
      case None => Ok(false)
      case Some(v) => ApplyOperator(condition.value, v)
  }

  /** The cases in which a rule applies without looking at its conditions. */
  predicate Unconditional(rule: Option<PolicyRule>, conditions: Option<seq<PolicyCondition>>, target: Option<Entity>) {
    rule.None? || conditions.None? || |conditions.value| == 0 || target.None?
    || rule.value.triggerAttributeLogicalName.None? || rule.value.triggerAttributeLogicalName.value == ""
  }

  /** The short-circuit conjunction over conditions taken in the given order. */
  function AllInOrder(rule: PolicyRule, conditions: seq<PolicyCondition>, target: Entity,
                      preImage: Option<Entity>): Result<bool, Exception>
  {
    if conditions == [] then Ok(true)
    else match ConditionMatches(Some(rule), Some(conditions[0]), Some(target), preImage)
      case Err(e) => Err(e)
      case Ok(false) => Ok(false)
      case Ok(true) => AllInOrder(rule, conditions[1..], target, preImage)
  }

  /** Do all of a rule's conditions hold?  They are visited in ascending sequence. */
  function AllConditionsMatch(rule: Option<PolicyRule>, conditions: Option<seq<PolicyCondition>>,
                              target: Option<Entity>, preImage: Option<Entity>): (r: Result<bool, Exception>)
    ensures Unconditional(rule, conditions, target) ==> r == Ok(true)
  {
    if Unconditional(rule, conditions, target) then Ok(true)
    else AllInOrder(rule.value, Sequences.SortByKey(conditions.value, ConditionSequence), target.value, preImage)
  }

  predicate Holds(rule: PolicyRule, c: PolicyCondition, target: Entity, preImage: Option<Entity>) {
    ConditionMatches(Some(rule), Some(c), Some(target), preImage) == Ok(true)
  }

  predicate Evaluates(rule: PolicyRule, c: PolicyCondition, target: Entity, preImage: Option<Entity>) {
    ConditionMatches(Some(rule), Some(c), Some(target), preImage).Ok?
  }

  // ---------------------------------------------------------------------------
  // Properties of the conjunction

  lemma {:induction false} AllInOrderTrueIff(rule: PolicyRule, cs: seq<PolicyCondition>, target: Entity, preImage: Option<Entity>)
    ensures AllInOrder(rule, cs, target, preImage) == Ok(true)
            <==> forall c :: c in cs ==> Holds(rule, c, target, preImage)
  {
    if cs != [] {
      AllInOrderTrueIff(rule, cs[1..], target, preImage);
      assert forall c :: c in cs <==> c == cs[0] || c in cs[1..];
      if !Holds(rule, cs[0], target, preImage) {
        assert AllInOrder(rule, cs, target, preImage) != Ok(true);
      } else {
        assert AllInOrder(rule, cs, target, preImage) == AllInOrder(rule, cs[1..], target, preImage);
      }
    }
  }

  lemma {:induction false} AllInOrderWithoutErrors(rule: PolicyRule, cs: seq<PolicyCondition>, target: Entity, preImage: Option<Entity>)
    requires forall c :: c in cs ==> Evaluates(rule, c, target, preImage)
    ensures AllInOrder(rule, cs, target, preImage) == Ok(forall c :: c in cs ==> Holds(rule, c, target, preImage))
  {
    if cs != [] {
      assert forall c :: c in cs <==> c == cs[0] || c in cs[1..];
      AllInOrderWithoutErrors(rule, cs[1..], target, preImage);
      if !Holds(rule, cs[0], target, preImage) {
        assert Evaluates(rule, cs[0], target, preImage);
        assert AllInOrder(rule, cs, target, preImage) == Ok(false);
      } else {
        assert AllInOrder(rule, cs, target, preImage) == AllInOrder(rule, cs[1..], target, preImage);
      }
    }
  }

  /** Outside the unconditional cases, a rule's conditions all match exactly when
      every one of them holds. */
  lemma AllConditionsMatchIff(rule: PolicyRule, cs: seq<PolicyCondition>, target: Entity, preImage: Option<Entity>)
    requires !Unconditional(Some(rule), Some(cs), Some(target))
    ensures AllConditionsMatch(Some(rule), Some(cs), Some(target), preImage) == Ok(true)
            <==> forall c :: c in cs ==> Holds(rule, c, target, preImage)
  {
    var sorted := Sequences.SortByKey(cs, ConditionSequence);
    Sequences.SortByKeyFacts(cs, ConditionSequence);
    assert forall c :: c in sorted <==> c in multiset(sorted);
    assert forall c :: c in cs <==> c in multiset(cs);
    AllInOrderTrueIff(rule, sorted, target, preImage);
  }

  /** When no condition raises, the outcome does not depend on the order in which the
      conditions are listed. */
  lemma AllConditionsMatchOrderIndependent(rule: PolicyRule, cs1: seq<PolicyCondition>, cs2: seq<PolicyCondition>,
                                           target: Entity, preImage: Option<Entity>)
    requires multiset(cs1) == multiset(cs2)
    requires forall c :: c in cs1 ==> Evaluates(rule, c, target, preImage)
    ensures AllConditionsMatch(Some(rule), Some(cs1), Some(target), preImage)
            == AllConditionsMatch(Some(rule), Some(cs2), Some(target), preImage)
  {
    assert forall c :: c in cs1 <==> c in cs2 by {
      assert forall c :: c in cs1 <==> c in multiset(cs1);
      assert forall c :: c in cs2 <==> c in multiset(cs2);
    }
    assert |cs1| == |multiset(cs1)| == |cs2|;
    if !Unconditional(Some(rule), Some(cs1), Some(target)) {
      var s1 := Sequences.SortByKey(cs1, ConditionSequence);
      var s2 := Sequences.SortByKey(cs2, ConditionSequence);
      Sequences.SortByKeyFacts(cs1, ConditionSequence);
      Sequences.SortByKeyFacts(cs2, ConditionSequence);
      assert forall c :: c in s1 <==> c in cs1 by {
        assert forall c :: c in s1 <==> c in multiset(s1);
        assert forall c :: c in cs1 <==> c in multiset(cs1);
      }
      assert forall c :: c in s2 <==> c in cs2 by {
        assert forall c :: c in s2 <==> c in multiset(s2);
        assert forall c :: c in cs2 <==> c in multiset(cs2);
      }
      AllInOrderWithoutErrors(rule, s1, target, preImage);
      AllInOrderWithoutErrors(rule, s2, target, preImage);
    }
  }

  // ---------------------------------------------------------------------------
  // Properties of single comparisons

  /** String conditions compare with the value's text ignoring letter case. */
  lemma StringComparisonIgnoresCase(c: PolicyCondition, stored: string, t: string)
    requires c.valueType == String && c.valueString == Some(stored)
    ensures ConditionValueEquals(Some(c), Str(t)) == Ok(true) <==> Upper(stored) == Upper(t)
    ensures stored == "TestValue" && t == "testvalue" ==> ConditionValueEquals(Some(c), Str(t)) == Ok(true)
  {
    if stored == "TestValue" && t == "testvalue" {
      assert Upper(stored) == Upper(t);
    }
  }

  /** Guid conditions compare the stored text with the value's text ignoring letter
      case, so a GUID stored in upper case matches the lower-case text the Guid prints. */
  lemma GuidComparisonIgnoresCase(c: PolicyCondition, g: Values.Guid)
    requires c.valueType == Guid && c.valueGuid == Some(Upper(GuidText(g)))
    ensures ConditionValueEquals(Some(c), GuidValue(g)) == Ok(true)
    ensures ConditionValueEquals(Some(c), Str(GuidText(g))) == Ok(true)
  {
    UpperIsIdempotent(GuidText(g));
  }

  lemma UpperIsIdempotent(s: string)
    ensures Upper(Upper(s)) == Upper(s)
  {
  }

  /** A condition whose operator is unset or not one of the four known ones never
      holds, whatever the trigger attribute's value. */
  lemma UnknownOperatorNeverMatches(rule: PolicyRule, c: PolicyCondition, target: Entity, preImage: Option<Entity>)
    requires rule.triggerAttributeLogicalName.Some?
    requires c.operator.None? || c.operator.value.UnrecognizedOperator?
    ensures ConditionMatches(Some(rule), Some(c), Some(target), preImage) == Ok(false)
    ensures ConditionMatches(Some(rule), Some(c.(operator := None)), Some(target), preImage) == Ok(false)
    ensures ConditionMatches(Some(rule), Some(c.(operator := Some(UnrecognizedOperator(3)))), Some(target), preImage)
            == Ok(false)
  {
  }

  /** A whole-number condition matches the decimal text of its own number. */
  lemma WholeNumberMatchesItsText(c: PolicyCondition, n: Int32)
    requires c.valueType == WholeNumber && c.valueWholeNumber == Some(n)
    ensures ConditionValueEquals(Some(c), Str(IntText(n))) == Ok(true)
    ensures ConditionValueEquals(Some(c), Int(n)) == Ok(true)
  {
    IntTextRoundTrip(n);
  }

  /** Text that is not a number makes a numeric comparison raise instead of failing. */
  lemma UnparsableTextRaises(c: PolicyCondition, s: string)
    requires c.valueType in {WholeNumber, ValueType.OptionSet, Decimal}
    requires ParseInteger(s).None?
    ensures ConditionValueEquals(Some(c), Str(s)) == Err(Exception(FormatException, InputFormatMessage))
  {
    if c.valueType == Decimal {
      assert ToDecimal(Str(s)) == Raised(Exception(FormatException, InputFormatMessage));
    } else {
      assert ToInt32(Str(s)) == Raised(Exception(FormatException, InputFormatMessage));
    }
  }

  /** An option-set condition converts the runtime value with Convert.ToInt32; an
      OptionSetValue is not convertible, so it never equals such a condition. */
  lemma OptionSetValueNeverEquals(c: PolicyCondition, code: Int32)
    requires c.valueType == ValueType.OptionSet
    ensures ConditionValueEquals(Some(c), Value.OptionSet(code)) == Ok(false)
  {
  }

  function LowerHexOrHyphen(ch: char): bool { ('0' <= ch <= '9') || ('a' <= ch <= 'f') || ch == '-' }

  lemma GuidTextAlphabet(g: Values.Guid)
    ensures forall k :: 0 <= k < |GuidText(g)| ==> LowerHexOrHyphen(GuidText(g)[k])
  {
    var a, b, c, d, e := HexText(g[..8]), HexText(g[8..12]), HexText(g[12..16]),
                         HexText(g[16..20]), HexText(g[20..]);
    var t := GuidText(g);
    assert t == a + "-" + b + "-" + c + "-" + d + "-" + e;
    forall k | 0 <= k < |t| ensures LowerHexOrHyphen(t[k]) {
      if k < 8 { assert t[k] == a[k]; }
      else if 8 < k < 13 { assert t[k] == b[k - 9]; }
      else if 13 < k < 18 { assert t[k] == c[k - 14]; }
      else if 18 < k < 23 { assert t[k] == d[k - 19]; }
      else if 23 < k { assert t[k] == e[k - 24]; }
    }
  }

  /** A lookup condition matches exactly when the logical names agree ignoring case
      and the stored id is, character for character, the reference id's lower-case
      text. */
  lemma LookupMatchIff(c: PolicyCondition, er: EntityReference)
    requires c.valueType == Lookup
    ensures ConditionValueEquals(Some(c), Reference(er)) == Ok(true)
            <==> c.valueLookupLogicalName.Some? && Upper(c.valueLookupLogicalName.value) == Upper(er.logicalName)
                 && c.valueLookupId == Some(GuidText(er.id))
  {
  }

  /** So a stored id that matches parses back to the reference's id, and an id
      stored with an upper-case letter never matches: the id comparison is
      case-sensitive. */
  lemma LookupMatchedIdIsLowerCaseText(c: PolicyCondition, er: EntityReference)
    requires c.valueType == Lookup
    requires ConditionValueEquals(Some(c), Reference(er)) == Ok(true)
    ensures c.valueLookupId.Some? && ParseGuid(c.valueLookupId.value) == Some(er.id)
    ensures forall k :: 0 <= k < |c.valueLookupId.value| ==> !('A' <= c.valueLookupId.value[k] <= 'Z')
  {
    LookupMatchIff(c, er);
    IdTextParses(c.valueLookupId.value, er.id);
    IdTextHasNoUpperCase(c.valueLookupId.value, er.id);
  }

  lemma IdTextParses(id: string, g: Values.Guid)
    requires id == GuidText(g)
    ensures ParseGuid(id) == Some(g)
  {
    GuidTextRoundTrip(g);
  }

  lemma IdTextHasNoUpperCase(id: string, g: Values.Guid)
    requires id == GuidText(g)
    ensures forall k :: 0 <= k < |id| ==> !('A' <= id[k] <= 'Z')
  {
    GuidTextAlphabet(g);
  }

  // ---------------------------------------------------------------------------
  // Properties of one condition against a record

  /** A trigger attribute found in neither the target nor the pre-image matches no
      condition, whatever its operator, IsNull included. */
  lemma AbsentTriggerNeverMatches(rule: PolicyRule, c: PolicyCondition, target: Entity, preImage: Option<Entity>)
    requires rule.triggerAttributeLogicalName.Some?
    requires rule.triggerAttributeLogicalName.value !in target.attributes
    requires preImage.None? || rule.triggerAttributeLogicalName.value !in preImage.value.attributes
    ensures ConditionMatches(Some(rule), Some(c), Some(target), preImage) == Ok(false)
  {
  }

  /** The pre-image is consulted only when the target lacks the trigger attribute. */
  lemma TargetShadowsPreImage(rule: PolicyRule, c: PolicyCondition, target: Entity, preImage: Option<Entity>)
    requires rule.triggerAttributeLogicalName.Some?
    requires rule.triggerAttributeLogicalName.value in target.attributes
    ensures ConditionMatches(Some(rule), Some(c), Some(target), preImage)
            == ConditionMatches(Some(rule), Some(c), Some(target), None)
  {
  }

  /** NotEquals is the negation of Equals on the same stored value, and raises exactly
      when Equals does. */
  lemma NotEqualsNegatesEquals(rule: PolicyRule, c: PolicyCondition, target: Entity, preImage: Option<Entity>)
    requires c.operator == Some(NotEquals)
    ensures var eq := ConditionMatches(Some(rule), Some(c.(operator := Some(Equals))), Some(target), preImage);
            var ne := ConditionMatches(Some(rule), Some(c), Some(target), preImage);
            (eq.Err? <==> ne.Err?) && (eq.Err? ==> ne == eq)
            && (rule.triggerAttributeLogicalName.Some? && eq.Ok? && ne.Ok?
                && TriggerValue(rule.triggerAttributeLogicalName.value, target, preImage).Some?
                ==> ne.value == !eq.value)
  {
  }

  /** IsNull holds of a resolved trigger value exactly when that value is null, and
      IsNotNull exactly when it is not. */
  lemma NullOperatorsTestResolvedValue(rule: PolicyRule, c: PolicyCondition, target: Entity, preImage: Option<Entity>)
    requires rule.triggerAttributeLogicalName.Some?
    requires c.operator == Some(IsNull) || c.operator == Some(IsNotNull)
    ensures var v := TriggerValue(rule.triggerAttributeLogicalName.value, target, preImage);
            ConditionMatches(Some(rule), Some(c), Some(target), preImage)
            == Ok(v.Some? && (v.value.Null? <==> c.operator == Some(IsNull)))
  {
  }
}
