/** The stored policy records (dpe_policyrule, dpe_policycondition) and the host's
    Entity record, as the evaluator reads them.  A field the host may leave empty is
    an Option. */
module Policy {
  import opened Values

  /** dpe_policyconditionvaluetype; Unrecognized carries any other stored code. */
  datatype ValueType =
    | String | WholeNumber | Decimal | Boolean | DateTime | Guid | Money | OptionSet | Lookup
    | Unrecognized(code: int)

  /** dpe_policyconditionoperator; UnrecognizedOperator carries any other stored code. */
  datatype Operator = Equals | NotEquals | IsNull | IsNotNull | UnrecognizedOperator(code: int)

  datatype PolicyType = Visible | Required | NotAllowed

  /** dpe_policyscope: FormOnly is the client (form) scope. */
  datatype PolicyScope = ServerOnly | FormOnly | Both

  datatype PolicyCondition = PolicyCondition(
    id: Values.Guid,
    ruleId: Values.Guid,
    active: bool,
    sequence: Option<int>,
    operator: Option<Operator>,
    valueType: ValueType,
    valueString: Option<string>,
    valueWholeNumber: Option<Int32>,
    valueDecimal: Option<DecimalAmount>,
    valueBoolean: Option<bool>,
    valueDateTime: Option<Ticks>,
    valueGuid: Option<string>,
    valueMoney: Option<DecimalAmount>,
    valueOptionSetValue: Option<Int32>,
    valueLookupLogicalName: Option<string>,
    valueLookupId: Option<string>)

  datatype PolicyRule = PolicyRule(
    id: Values.Guid,
    active: bool,
    targetEntityLogicalName: Option<string>,
    targetAttributeLogicalName: Option<string>,
    triggerAttributeLogicalName: Option<string>,
    policyType: Option<PolicyType>,
    scope: Option<PolicyScope>,
    sequence: Option<int>,
    result: Option<bool>)

  /** An Entity: its logical name and its attribute collection.  An attribute present
      with a null value maps to Null; an absent attribute is not a key. */
  datatype Entity = Entity(logicalName: string, attributes: map<string, Value>)

  function RuleSequence(r: PolicyRule): Option<int> { r.sequence }

  function ConditionSequence(c: PolicyCondition): Option<int> { c.sequence }
}
