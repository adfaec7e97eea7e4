# Dataverse Policy Enforcement, modelled in Dafny

Dataverse Policy Enforcement attaches policy rules to the attributes of Dataverse
tables. Each rule has a type: Visible, Required or NotAllowed. It also has a scope
(form, server or both), a sequence number, an optional result, and a list of
conditions on a trigger attribute. The engine evaluates the rules of one attribute
against a record and its pre-image, and produces a decision:

- **Client decision:** three flags for the form.
- **Server decision:** two flags for the server.

A plug-in enforces the server decision when records are created and updated. On the
form side, the script reads a form configuration of rules and trigger groups. A
custom API reads its input parameters and parses the trigger's current value
according to the attribute's type.

The model follows the C# and TypeScript sources file by file:

| file | module | what it holds |
|---|---|---|
| `values.dfy` | `Values` | The runtime values an attribute can hold: strings, Int32, decimals as exact integers, DateTime ticks, GUIDs, Money, option sets, entity references and aliased values. Also `Option`/`Result`, .NET exceptions, white space, `Trim`, and the integer and GUID text forms with their parsers. |
| `sequences.dfy` | `Sequences` | LINQ `Where` and the stable `OrderBy` on a nullable integer key. |
| `policy.dfy` | `Policy` | Rules, conditions, records (entities). |
| `condition.dfy` | `Condition` | `ConditionValueEquals`, `ConditionMatches`, `AllConditionsMatch`. |
| `details.dfy` | `PolicyModel` | The mutable `ClientPolicyDetails`, `ServerPolicyDetails` and `PolicyDecision` classes. |
| `data.dfy` | `PolicyData` | The policy store held in memory: the rule, condition and governed-attribute queries. |
| `scope.dfy` | `ScopeEvaluation` | The `PolicyScopeEvaluation` class. Its two passes update a details record in place; they are proved against pure pass functions. |
| `evaluator.dfy` | `Evaluator` | The `PolicyEvaluator` class. It splits the rules by scope and runs both passes on a new decision. |
| `equality.dfy` | `ValueEquality` | `AreEqual`, the plug-in's change test. |
| `plugin.dfy` | `PolicyEnforcement` | The plug-in: gating, the loop over governed attributes, and the Create and Update checks. |
| `formconfig.dfy` | `FormConfiguration` | The form configuration class, over an already parsed JSON value. |
| `inputparams.dfy` | `InputParameters` | The custom API's input-parameter class. |
| `metadata.dfy` | `MetadataHelper` | Parsing of the trigger's current value, by attribute type. |

**Exceptions.** The .NET and JavaScript code signals failure by throwing. The model
returns a `Result` instead, and its error carries the exception's kind and message.
`Convert.ToInt32`, `ToDecimal`, `ToBoolean` and `ToDateTime` can raise a
FormatException or an OverflowException inside the condition comparison. Only
InvalidCastException is caught there, so the other two are explicit error outcomes.
They travel up through the scope passes and the evaluator to the plug-in, which
rethrows the message as an InvalidPluginExecutionException.

**Mutable state.** Mutable objects are Dafny classes:

- the details records and the decision;
- the scope evaluator and the policy evaluator;
- the form configuration and the input parameters.

Each state-changing method is proved against a pure function of its inputs. The
properties of that function are proved as lemmas.

**Two details the model keeps exactly as the code has them:**

- **Lookup condition ids** are compared case-sensitively with `Id.ToString()`
  (`Condition.cs:53-54`). An id stored in upper case never matches.
- **The current-value key.** The input-parameter tests supply `dpe_gad_currentvalue`,
  but the constructor reads `dpe_gad_triggercurrentvalue`
  (`AttributeDecisionInputParameters.cs:16,62-67`). `InputParameters.CurrentValueKeyIsExact`
  states the consequence.

## Model

| member | source | states |
|---|---|---|
| Sequences.FilterFacts | DataversePolicyEnforcement.Core/Evaluation/PolicyEvaluator.cs:42-57 | `Where` keeps every occurrence of each element that satisfies the predicate and drops every other one: the count of each element is its input count or zero. |
| Sequences.FilterAppend | DataversePolicyEnforcement.Core/Evaluation/PolicyEvaluator.cs:42-57 | `Where` keeps input order: filtering a concatenation is filtering each part in turn. |
| Sequences.FilterWithKey | DataversePolicyEnforcement.Core/Evaluation/PolicyEvaluator.cs:42-57 | The elements of one sequence number that pass `Where` are, in the same order, the ones the filtered sequence holds with that number. |
| Sequences.SortedFilterKeepsTies | DataversePolicyEnforcement.Core/Evaluation/PolicyEvaluator.cs:42-57 | `Where` followed by the stable `OrderBy`: the rules of one sequence number that pass the filter come out in their fetched order. |
| Sequences.SortByKeyFacts | DataversePolicyEnforcement.Core/Evaluation/PolicyEvaluator.cs:48-56 | `OrderBy` on the sequence number gives a sequence sorted by key (null first) that is a permutation of its input and, for every key, keeps the input order of the elements with that key (the sort is stable). |
| Sequences.InsertIsStable | DataversePolicyEnforcement.Core/Evaluation/PolicyEvaluator.cs:48 | Inserting an element puts it ahead of every element with an equal key and leaves their order alone. |
| Sequences.SortByKeyIsStable | DataversePolicyEnforcement.Core/Evaluation/PolicyEvaluator.cs:48-56 | `OrderBy` is stable: the elements with any one sequence number come out in their input order. |
| Sequences.TiedElementsKeepTheirOrder | DataversePolicyEnforcement.Core/Evaluation/PolicyEvaluator.cs:48-56 | Two rules with the same sequence number leave the sort in the order they had in the input. |
| Sequences.SortByKeyIdempotent | DataversePolicyEnforcement.Core/Evaluation/PolicyScopeEvaluation.cs:39 | Sorting twice is sorting once, so the scope pass's own sort of an already sorted partition changes nothing. |
| Condition.ConditionValueEquals | DataversePolicyEnforcement.Core/Comparison/Condition.cs:12-63 | A null condition or value is false. An unknown type is false. String and Guid conditions are true exactly when the stored text equals the value's text, ignoring letter case. A value that is not Money, or not an EntityReference, compared with a Money or Lookup condition is false: the cast failure is caught. |
| Condition.GuidComparisonIgnoresCase | DataversePolicyEnforcement.Core/Comparison/Condition.cs:37-42 | A Guid condition stored in upper case matches the GUID itself and its lower-case text. |
| Condition.ConditionValueEqualsRaises | DataversePolicyEnforcement.Core/Comparison/Condition.cs:19-62 | Only text or a decimal being converted can raise, and only a FormatException or OverflowException; everything else yields a boolean. |
| Condition.StringComparisonIgnoresCase | DataversePolicyEnforcement.Core/Comparison/Condition.cs:23-28 | A String condition matches text iff the two agree ignoring letter case ("TestValue" matches "testvalue"). |
| Condition.WholeNumberMatchesItsText | DataversePolicyEnforcement.Core/Comparison/Condition.cs:29-30 | A WholeNumber condition matches both the boxed number and its decimal text. |
| Condition.UnparsableTextRaises | DataversePolicyEnforcement.Core/Comparison/Condition.cs:29-46 | Text that is not an integer makes a WholeNumber, Decimal or OptionSet comparison raise a FormatException rather than return false. |
| Condition.OptionSetValueNeverEquals | DataversePolicyEnforcement.Core/Comparison/Condition.cs:45-46 | An OptionSetValue object is not convertible, so an OptionSet condition never equals it. |
| Condition.LookupMatchIff | DataversePolicyEnforcement.Core/Comparison/Condition.cs:47-54 | A Lookup condition matches a reference iff the stored name is present and equal ignoring case, and the stored id is exactly the id's text. |
| Condition.LookupMatchedIdIsLowerCaseText | DataversePolicyEnforcement.Core/Comparison/Condition.cs:53-54 | A matching stored id parses back to the reference's id and contains no upper-case letter: the id comparison is case-sensitive. |
| Condition.TriggerValue | DataversePolicyEnforcement.Core/Comparison/Condition.cs:79-96 | The target's value when the target holds the attribute, and absent iff neither the target nor the pre-image holds it. |
| Condition.ConditionMatches | DataversePolicyEnforcement.Core/Comparison/Condition.cs:65-111 | A null rule, condition or target raises ArgumentNullException. A null or unrecognised operator is false. |
| Condition.UnknownOperatorNeverMatches | DataversePolicyEnforcement.Core/Comparison/Condition.cs:98-110 | A condition without a recognised operator never matches, whatever its value. |
| Condition.AbsentTriggerNeverMatches | DataversePolicyEnforcement.Core/Comparison/Condition.cs:86-95 | A trigger attribute in neither the target nor the pre-image gives false for every operator, IsNull included. |
| Condition.TargetShadowsPreImage | DataversePolicyEnforcement.Core/Comparison/Condition.cs:79-84 | When the target holds the trigger attribute, the pre-image is irrelevant. |
| Condition.NotEqualsNegatesEquals | DataversePolicyEnforcement.Core/Comparison/Condition.cs:100-103 | NotEquals raises exactly when Equals does, and otherwise is its negation. |
| Condition.NullOperatorsTestResolvedValue | DataversePolicyEnforcement.Core/Comparison/Condition.cs:104-107 | IsNull and IsNotNull test the resolved value; a value present as null counts as null. |
| Condition.AllConditionsMatch | DataversePolicyEnforcement.Core/Comparison/Condition.cs:113-137 | The result is true when the rule, the conditions or the target is null, the conditions are empty, or the trigger name is null or empty. |
| Condition.AllInOrderTrueIff | DataversePolicyEnforcement.Core/Comparison/Condition.cs:130-136 | The short-circuit loop returns true iff every condition holds. |
| Condition.AllInOrderWithoutErrors | DataversePolicyEnforcement.Core/Comparison/Condition.cs:130-136 | When no condition raises, the loop returns exactly whether all hold. |
| Condition.AllConditionsMatchIff | DataversePolicyEnforcement.Core/Comparison/Condition.cs:120-136 | Outside the unconditional cases, all conditions match iff each one holds. |
| Condition.AllConditionsMatchOrderIndependent | DataversePolicyEnforcement.Core/Comparison/Condition.cs:130 | Without exceptions, the result does not depend on the order in which the conditions are listed. |
| PolicyModel.ClientPolicyDetails.constructor | DataversePolicyEnforcement.Core/Model/PolicyDetails.cs:5-7 | A new client record is visible, not required and allowed. |
| PolicyModel.ServerPolicyDetails.constructor | DataversePolicyEnforcement.Core/Model/PolicyDetails.cs:12-13 | A new server record is not required and allowed. |
| PolicyModel.PolicyDecision.constructor | DataversePolicyEnforcement.Core/Model/PolicyDecision.cs:5-6 | A new decision holds two new default records. |
| PolicyData.GetConditions | DataversePolicyEnforcement.Core/Data/PolicyCollection.cs:15-44 | The empty rule id raises ArgumentNullException; otherwise the result is sorted by sequence. |
| PolicyData.GetRules | DataversePolicyEnforcement.Core/Data/PolicyCollection.cs:65-98 | A null entity or attribute name raises ArgumentNullException; otherwise the result is sorted by sequence and drawn from the stored rules. |
| PolicyData.GetGovernedAttributes | DataversePolicyEnforcement.Core/Data/PolicyCollection.cs:119-153 | A blank entity name governs nothing. Otherwise the result is exactly the non-empty attribute names of the entity's active rules. |
| ScopeEvaluation.StoredConditions | DataversePolicyEnforcement.Core/Evaluation/PolicyScopeEvaluation.cs:44-46 | The matcher the passes use agrees, rule by rule, with the rule's stored conditions. |
| ScopeEvaluation.EvaluateClient | DataversePolicyEnforcement.Core/Evaluation/PolicyScopeEvaluation.cs:30-33 | A null service, null or empty rules, or a null target leave the starting record unchanged. |
| ScopeEvaluation.EvaluateServer | DataversePolicyEnforcement.Core/Evaluation/PolicyScopeEvaluation.cs:93-96 | The same guards for the server pass. |
| ScopeEvaluation.PolicyScopeEvaluation.New | DataversePolicyEnforcement.Core/Evaluation/PolicyScopeEvaluation.cs:16-20 | A null collection raises ArgumentNullException("policyCollection"). |
| ScopeEvaluation.PolicyScopeEvaluation.MatchRule | DataversePolicyEnforcement.Core/Evaluation/PolicyScopeEvaluation.cs:44-46 | Fetching a rule's conditions and testing them gives what the rule's stored conditions say. |
| ScopeEvaluation.PolicyScopeEvaluation.ApplyClientRule | DataversePolicyEnforcement.Core/Evaluation/PolicyScopeEvaluation.cs:48-79 | The switch on a matching rule's type updates the record and the locks as the client pass function says, and reports an early return. |
| ScopeEvaluation.PolicyScopeEvaluation.ApplyServerRule | DataversePolicyEnforcement.Core/Evaluation/PolicyScopeEvaluation.cs:110-137 | The same for the server switch, where Visible does nothing. |
| ScopeEvaluation.PolicyScopeEvaluation.EvaluateClientScope | DataversePolicyEnforcement.Core/Evaluation/PolicyScopeEvaluation.cs:22-83 | A null initial is replaced by a new default record; otherwise initial is updated in place and returned. The final flags and any exception are the client pass over the sorted rules. |
| ScopeEvaluation.PolicyScopeEvaluation.ClientRuleLoop | DataversePolicyEnforcement.Core/Evaluation/PolicyScopeEvaluation.cs:39-80 | The loop leaves the record as the client pass function says, whatever rules it visits. |
| ScopeEvaluation.PolicyScopeEvaluation.EvaluateServerScope | DataversePolicyEnforcement.Core/Evaluation/PolicyScopeEvaluation.cs:85-141 | The server counterpart of EvaluateClientScope. |
| ScopeEvaluation.PolicyScopeEvaluation.ServerRuleLoop | DataversePolicyEnforcement.Core/Evaluation/PolicyScopeEvaluation.cs:101-138 | The server loop leaves the record as the server pass function says. |
| ScopeEvaluation.ClientApplyFacts | DataversePolicyEnforcement.Core/Evaluation/PolicyScopeEvaluation.cs:48-79 | On one matching rule: the pass stops iff NotAllowed's effect (`result ?? current`) is true, and NotAllowed becomes that effect. A locked or other-typed field is unchanged; an unlocked field of the rule's type becomes `result ?? current` and locks. |
| ScopeEvaluation.NonMatchingRuleChangesNothing | DataversePolicyEnforcement.Core/Evaluation/PolicyScopeEvaluation.cs:45-46 | A rule whose conditions do not all match changes nothing. |
| ScopeEvaluation.BlockingRuleEndsPass | DataversePolicyEnforcement.Core/Evaluation/PolicyScopeEvaluation.cs:66-73 | A matching NotAllowed rule with effect true sets NotAllowed and ends the pass; no later rule changes any field. |
| ScopeEvaluation.LockedFieldKept | DataversePolicyEnforcement.Core/Evaluation/PolicyScopeEvaluation.cs:51-64 | Once Visible or Required is decided, it keeps its value to the end of the pass. |
| ScopeEvaluation.UnfiredFieldKept | DataversePolicyEnforcement.Core/Evaluation/PolicyScopeEvaluation.cs:50-64 | A field that no matching rule of its type reaches keeps its starting value. |
| ScopeEvaluation.FirstFiringRuleDecides | DataversePolicyEnforcement.Core/Evaluation/PolicyScopeEvaluation.cs:50-64 | The first matching Visible or Required rule fixes its field at `result ?? current`; later rules of that type are ignored. |
| ScopeEvaluation.NotAllowedIffSomeRuleBlocks | DataversePolicyEnforcement.Core/Evaluation/PolicyScopeEvaluation.cs:66-77 | From an allowed start, without exceptions, the pass ends not allowed iff some matching NotAllowed rule has result true. A false result is not a lock, so a later true still wins. |
| ScopeEvaluation.ServerPassIsClientPassWithoutVisible | DataversePolicyEnforcement.Core/Evaluation/PolicyScopeEvaluation.cs:85-141 | The server pass gives the client pass's Required and NotAllowed, and the same exception. |
| ScopeEvaluation.ServerIgnoresVisibleRules | DataversePolicyEnforcement.Core/Evaluation/PolicyScopeEvaluation.cs:112-114 | When the non-Visible rules raise nothing, removing the Visible rules does not change the server pass. |
| ScopeEvaluation.KeptRuleStep | DataversePolicyEnforcement.Core/Evaluation/PolicyScopeEvaluation.cs:112-114 | Filtering out Visible rules keeps a non-Visible rule at the head. |
| Evaluator.ServerRules | DataversePolicyEnforcement.Core/Evaluation/PolicyEvaluator.cs:42-49 | The server partition holds exactly the ServerOnly and Both rules, sorted by sequence, drawn from the fetched rules; rules with the same sequence number keep their fetched order. |
| Evaluator.ClientRules | DataversePolicyEnforcement.Core/Evaluation/PolicyEvaluator.cs:50-57 | The client partition holds exactly the FormOnly and Both rules, sorted by sequence, drawn from the fetched rules; rules with the same sequence number keep their fetched order. |
| Evaluator.ScopePartition | DataversePolicyEnforcement.Core/Evaluation/PolicyEvaluator.cs:42-57 | A null-scope rule is in neither partition, a Both rule is in both, and ServerOnly and FormOnly rules are in their own partition only. |
| Evaluator.PartitionsArePresorted | DataversePolicyEnforcement.Core/Evaluation/PolicyEvaluator.cs:48-56 | The pass's own sort leaves each partition as it is. |
| Evaluator.Evaluate | DataversePolicyEnforcement.Core/Evaluation/PolicyEvaluator.cs:28-40 | A null service or target gives the default decision without fetching; a failing rule query raises its exception (a null entity name raises ArgumentNullException); no fetched rules give the default decision. |
| Evaluator.UntargetedAttributeIsUnrestricted | DataversePolicyEnforcement.Core/Evaluation/PolicyEvaluator.cs:33-40 | An attribute that no active rule targets keeps the default decision. |
| Evaluator.PolicyEvaluator.New | DataversePolicyEnforcement.Core/Evaluation/PolicyEvaluator.cs:14-18 | A null collection raises ArgumentNullException("policyCollection"). |
| Evaluator.PolicyEvaluator.EvaluateAttribute | DataversePolicyEnforcement.Core/Evaluation/PolicyEvaluator.cs:20-77 | The decision and its two records are new objects, and their flags (or the exception) are what `Evaluate` specifies. |
| Evaluator.PolicyEvaluator.EvaluateFetched | DataversePolicyEnforcement.Core/Evaluation/PolicyEvaluator.cs:59-76 | Each pass is seeded with the new decision's default record and updates it in place; the decision keeps the same records. |
| Evaluator.ServerOnlyRulesLeaveClientDefault | DataversePolicyEnforcement.Core/Evaluation/PolicyEvaluator.cs:61-74 | With only ServerOnly rules, the client record stays at its default. |
| Evaluator.FormOnlyRulesLeaveServerDefault | DataversePolicyEnforcement.Core/Evaluation/PolicyEvaluator.cs:61-74 | With only FormOnly rules, the server record stays at its default and the decision is the client pass alone. |
| Evaluator.UnconditionalNotAllowedRuleBlocksBothScopes | DataversePolicyEnforcement.Core/Evaluation/PolicyEvaluator.cs:20-77 | One active, unconditional, Both-scoped NotAllowed rule with result true makes the attribute not allowed on both sides and changes nothing else. |
| Evaluator.OnlyRuleIsFetched | DataversePolicyEnforcement.Core/Data/PolicyCollection.cs:70-98 | The store's only active rule is fetched for its own entity and attribute. |
| Evaluator.BothScopedRuleInBothPasses | DataversePolicyEnforcement.Core/Evaluation/PolicyEvaluator.cs:42-57 | A Both rule alone is the whole of each partition. |
| Evaluator.UnconditionalRuleMatches | DataversePolicyEnforcement.Core/Comparison/Condition.cs:120-128 | A rule without stored conditions matches every record. |
| Evaluator.EmptyConditions | DataversePolicyEnforcement.Core/Data/PolicyCollection.cs:15-54 | An empty condition store gives every non-empty rule id no conditions. |
| ValueEquality.Unwrap | DataversePolicyEnforcement.Plugins/Helpers/ValueEquality.cs:15-19 | An AliasedValue is replaced by its value, once; anything else is kept. |
| ValueEquality.AreEqual | DataversePolicyEnforcement.Plugins/Helpers/ValueEquality.cs:8-40 | Two nulls are equal and exactly one null is not. Only an alias of null on the left, against a non-null value, raises (a NullReferenceException). |
| ValueEquality.AreEqualIsCanonicalEquality | DataversePolicyEnforcement.Plugins/Helpers/ValueEquality.cs:16-39 | On comparable values (not null, not an alias of null or of an alias), AreEqual raises nothing and is equality of the unwrapped values, with reference names compared ignoring case. |
| ValueEquality.AreEqualIsEquivalence | DataversePolicyEnforcement.Plugins/Helpers/ValueEquality.cs:8-40 | On comparable values AreEqual is reflexive, symmetric and transitive. |
| ValueEquality.AliasIsTransparent | DataversePolicyEnforcement.Plugins/Helpers/ValueEquality.cs:15-19 | Wrapping a plain value in an AliasedValue, on either side, changes nothing. |
| ValueEquality.AliasedNullIsAsymmetric | DataversePolicyEnforcement.Plugins/Helpers/ValueEquality.cs:15-19 | An alias of null raises on the left and is merely unequal on the right. |
| ValueEquality.StringsCompareExactly | DataversePolicyEnforcement.Plugins/Helpers/ValueEquality.cs:38-39 | Strings fall back to ordinal, case-sensitive equality: "test" is not "Test". |
| ValueEquality.ReferencesIgnoreNameCase | DataversePolicyEnforcement.Plugins/Helpers/ValueEquality.cs:24-30 | References are equal when their ids are equal and their names agree ignoring case, and unequal when their ids differ. |
| ValueEquality.DifferentTypesAreUnequal | DataversePolicyEnforcement.Plugins/Helpers/ValueEquality.cs:21-39 | Boxed values of different types are unequal even when they denote the same number. |
| PolicyEnforcement.Rethrown | DataversePolicyEnforcement.Plugins/PolicyEnforcementPlugin.cs:165-168 | The catch block rethrows an InvalidPluginExecutionException with the same message. |
| PolicyEnforcement.PreImageOf | DataversePolicyEnforcement.Plugins/PolicyEnforcementPlugin.cs:48-53 | Only Update reads a pre-image. |
| PolicyEnforcement.OldValue | DataversePolicyEnforcement.Plugins/PolicyEnforcementPlugin.cs:104-106 | An attribute absent from the pre-image has the old value null. |
| PolicyEnforcement.EnforceAttribute | DataversePolicyEnforcement.Plugins/PolicyEnforcementPlugin.cs:83-161 | One loop iteration raises exactly what the per-attribute check specifies. |
| PolicyEnforcement.ExecuteCdsPlugin | DataversePolicyEnforcement.Plugins/PolicyEnforcementPlugin.cs:18-169 | Anything other than Create or Update at stage 20 does nothing. A missing Target, or an Update without the PreImage entry, raises the plug-in's message. Otherwise the plug-in succeeds iff every governed attribute passes its check, and else raises one failing attribute's exception, rewrapped. |
| PolicyEnforcement.EnforceAll | DataversePolicyEnforcement.Plugins/PolicyEnforcementPlugin.cs:71-163 | The loop over the governed set succeeds iff every check passes (an empty set checks nothing); otherwise it raises a failing attribute's exception, rewrapped. |
| PolicyEnforcement.UpdateChecksOnlyAttributesInTarget | DataversePolicyEnforcement.Plugins/PolicyEnforcementPlugin.cs:86-89 | On Update, an attribute the target does not carry is not checked. |
| PolicyEnforcement.UpdateBlocksChangeOfNotAllowed | DataversePolicyEnforcement.Plugins/PolicyEnforcementPlugin.cs:100-124 | On Update, NotAllowed blocks iff the new value differs from the old one; an unchanged value goes on to the Required check. |
| PolicyEnforcement.UpdateNullOverAbsentIsNoChange | DataversePolicyEnforcement.Plugins/PolicyEnforcementPlugin.cs:103-108 | Setting to null an attribute absent from the pre-image is no change, so only Required can refuse it. |
| PolicyEnforcement.UpdateChecksNotAllowedFirst | DataversePolicyEnforcement.Plugins/PolicyEnforcementPlugin.cs:100-124 | A changed value that is also missing is reported as a blocked change, not as missing. |
| PolicyEnforcement.NullPreImageRaisesOnNotAllowed | DataversePolicyEnforcement.Plugins/PolicyEnforcementPlugin.cs:100-106 | A pre-image registered as null passes the gate, and then dereferencing it for a NotAllowed attribute raises a NullReferenceException. |
| PolicyEnforcement.CreateChecks | DataversePolicyEnforcement.Plugins/PolicyEnforcementPlugin.cs:130-160 | On Create, Required refuses an absent or null attribute and is checked first; NotAllowed refuses a present non-null one; nothing else is refused. |
| PolicyEnforcement.EvaluationFailureIsRaised | DataversePolicyEnforcement.Plugins/PolicyEnforcementPlugin.cs:92-98 | An exception inside the evaluation is what the attribute's check raises. |
| FormConfiguration.BlankIsTrimmedAway | DataversePolicyEnforcement.Client/src/Models/FormPolicyConfiguration.ts:89-98 | `!s.trim()` holds exactly when every character of s is JavaScript white space. |
| FormConfiguration.Get | DataversePolicyEnforcement.Client/src/Models/FormPolicyConfiguration.ts:87-89 | A property read gives the field, or undefined when there is none. |
| FormConfiguration.Has | DataversePolicyEnforcement.Client/src/Models/FormPolicyConfiguration.ts:61 | The `in` operator: true iff an object has the key, false on arrays, and a TypeError on a primitive. |
| FormConfiguration.ParseJson | DataversePolicyEnforcement.Client/src/Models/FormPolicyConfiguration.ts:41-80 | No input or null gives empty rules and groups. A boolean or number is a TypeError and unparsable text a SyntaxError. An accepted result is well shaped: rules is an array, and triggerGroups is an array if present. An object is taken as it is. |
| FormConfiguration.ShapeErrors | DataversePolicyEnforcement.Client/src/Models/FormPolicyConfiguration.ts:61-77 | Missing rules, rules that are not an array, and triggerGroups present but not an array each raise their own TypeError, in that order. |
| FormConfiguration.PrimitiveTextFailsAtInOperator | DataversePolicyEnforcement.Client/src/Models/FormPolicyConfiguration.ts:47-61 | JSON text that parses to a primitive fails at the `in` operator. |
| FormConfiguration.WellShapedObjectIsKept | DataversePolicyEnforcement.Client/src/Models/FormPolicyConfiguration.ts:55-79 | An object whose rules (and any triggerGroups) are arrays passes parseJson unchanged. |
| FormConfiguration.ParseRule | DataversePolicyEnforcement.Client/src/Models/FormPolicyConfiguration.ts:82-109 | A non-object is refused first, then a bad attribute name, then a bad trigger name. An accepted rule keeps both names exactly as written. |
| FormConfiguration.RuleNamesAreKeptAsWritten | DataversePolicyEnforcement.Client/src/Models/FormPolicyConfiguration.ts:105-108 | Two non-blank names make the rule with exactly those names. |
| FormConfiguration.PaddedRuleNameIsNotTrimmed | DataversePolicyEnforcement.Client/src/Models/FormPolicyConfiguration.ts:87-108 | " a " is accepted and kept with its padding. |
| FormConfiguration.BlankRuleNameIsRefused | DataversePolicyEnforcement.Client/src/Models/FormPolicyConfiguration.ts:87-94 | A blank attribute name is refused with the attribute-name message. |
| FormConfiguration.MapOrFail | DataversePolicyEnforcement.Client/src/Models/FormPolicyConfiguration.ts:17-23 | `map` with a throwing callback gives every result in order, or the first error. |
| FormConfiguration.MapOrFailAllOk | DataversePolicyEnforcement.Client/src/Models/FormPolicyConfiguration.ts:17 | When every item maps to its result, the map succeeds with exactly those results. |
| FormConfiguration.MapOrFailFirstError | DataversePolicyEnforcement.Client/src/Models/FormPolicyConfiguration.ts:17 | When item i fails and all earlier items succeed, the map fails with item i's error. |
| FormConfiguration.FirstRepeatIndex | DataversePolicyEnforcement.Client/src/Models/FormPolicyConfiguration.ts:141-149 | There is no repeat iff the keys are distinct; a reported index is the first key seen before, and every key before it is distinct. |
| FormConfiguration.FirstRepeatOfPrefix | DataversePolicyEnforcement.Client/src/Models/FormPolicyConfiguration.ts:141-149 | Extending the keys past a repeat does not move the first repeat. |
| FormConfiguration.FirstRepeat | DataversePolicyEnforcement.Client/src/Models/FormPolicyConfiguration.ts:141-149 | The loop over a `Set` of seen keys finds exactly the first repeat. |
| FormConfiguration.RuleKeys | DataversePolicyEnforcement.Client/src/Models/FormPolicyConfiguration.ts:160 | One key per rule, in order. |
| FormConfiguration.GroupTriggers | DataversePolicyEnforcement.Client/src/Models/FormPolicyConfiguration.ts:175 | One trigger per group, in order. |
| FormConfiguration.RulesDuplicate | DataversePolicyEnforcement.Client/src/Models/FormPolicyConfiguration.ts:157-168 | No error iff the rule keys are distinct; an error names the first rule whose key repeats. |
| FormConfiguration.GroupsDuplicate | DataversePolicyEnforcement.Client/src/Models/FormPolicyConfiguration.ts:170-183 | No error iff the group triggers are distinct; an error names the first repeated group. |
| FormConfiguration.EnsureDistinctRules | DataversePolicyEnforcement.Client/src/Models/FormPolicyConfiguration.ts:157-168 | The loop raises exactly the duplicate-rule error the specification function gives. |
| FormConfiguration.EnsureDistinctTriggerGroups | DataversePolicyEnforcement.Client/src/Models/FormPolicyConfiguration.ts:170-183 | The loop raises exactly the duplicate-group error the specification function gives. |
| FormConfiguration.JoinedKeysCollide | DataversePolicyEnforcement.Client/src/Models/FormPolicyConfiguration.ts:160 | Rules ("a::b", "c") and ("a", "b::c") are different but share a key, so they count as duplicates. |
| FormConfiguration.RuleKeyIsInjectiveWithoutColons | DataversePolicyEnforcement.Client/src/Models/FormPolicyConfiguration.ts:160 | Without ':' in the names, equal keys mean equal rules. |
| FormConfiguration.FirstBadName | DataversePolicyEnforcement.Client/src/Models/FormPolicyConfiguration.ts:131-138 | The first index whose item is not a non-blank string, or none when all are. |
| FormConfiguration.Names | DataversePolicyEnforcement.Client/src/Models/FormPolicyConfiguration.ts:131-138 | The names, in order, of a list of strings. |
| FormConfiguration.GroupShape | DataversePolicyEnforcement.Client/src/Models/FormPolicyConfiguration.ts:111-138 | A non-object, a bad trigger, a missing names array and the first bad name are refused in that order. The accepted trigger and names are those written. |
| FormConfiguration.TriggerGroupOf | DataversePolicyEnforcement.Client/src/Models/FormPolicyConfiguration.ts:111-155 | A well-shaped group is accepted iff its names are distinct; otherwise the error names the first repeated name. |
| FormConfiguration.ParseTriggerGroup | DataversePolicyEnforcement.Client/src/Models/FormPolicyConfiguration.ts:111-155 | The parse with its duplicate loop gives exactly the specified group or error. |
| FormConfiguration.GroupObjectShape | DataversePolicyEnforcement.Client/src/Models/FormPolicyConfiguration.ts:116-138 | A group object with a non-blank trigger and non-blank string names passes the shape checks with those names. |
| FormConfiguration.RepeatedNameInGroupIsRefused | DataversePolicyEnforcement.Client/src/Models/FormPolicyConfiguration.ts:140-147 | A name listed twice in a group is refused with the duplicate-name message. |
| FormConfiguration.DistinctNamesMakeAGroup | DataversePolicyEnforcement.Client/src/Models/FormPolicyConfiguration.ts:151-154 | Distinct non-blank names make the group with exactly those names. |
| FormConfiguration.Triggers | DataversePolicyEnforcement.Client/src/Models/FormPolicyConfiguration.ts:27-31 | The rules' triggers, one per rule, in order. |
| FormConfiguration.FirstAppearances | DataversePolicyEnforcement.Client/src/Models/FormPolicyConfiguration.ts:26-32 | The `Map`'s keys: each trigger once, and exactly the triggers that occur (their order is fixed by `TriggersStep`). |
| FormConfiguration.AttributesFor | DataversePolicyEnforcement.Client/src/Models/FormPolicyConfiguration.ts:28-30 | A trigger's list is no longer than the rules; `AttributesForMembership` and `AttributesForStep` state which names it holds and in what order. |
| FormConfiguration.DerivedGroups | DataversePolicyEnforcement.Client/src/Models/FormPolicyConfiguration.ts:24-35 | One group per distinct trigger, in first-appearance order, each listing its rules' attributes in rule order. |
| FormConfiguration.AttributesForMembership | DataversePolicyEnforcement.Client/src/Models/FormPolicyConfiguration.ts:28-30 | A name is in a trigger's list iff some rule pairs it with that trigger. |
| FormConfiguration.AttributesForAbsentTrigger | DataversePolicyEnforcement.Client/src/Models/FormPolicyConfiguration.ts:28 | A trigger that no rule uses has an empty list. |
| FormConfiguration.DerivedGroupsCoverRules | DataversePolicyEnforcement.Client/src/Models/FormPolicyConfiguration.ts:24-35 | Every rule appears in the derived group of its trigger, and every group entry comes from a rule. |
| FormConfiguration.DerivedGroupsAreDistinct | DataversePolicyEnforcement.Client/src/Models/FormPolicyConfiguration.ts:170-183 | Derived groups always pass the duplicate-group check. |
| FormConfiguration.AttributesForDistinct | DataversePolicyEnforcement.Client/src/Models/FormPolicyConfiguration.ts:18-30 | With distinct rule keys, no derived group repeats a name. |
| FormConfiguration.TriggersStep | DataversePolicyEnforcement.Client/src/Models/FormPolicyConfiguration.ts:27-31 | The triggers of one more rule are the earlier triggers plus its own. |
| FormConfiguration.AttributesForStep | DataversePolicyEnforcement.Client/src/Models/FormPolicyConfiguration.ts:28-30 | One more rule extends only its own trigger's list. |
| FormConfiguration.GroupByTrigger | DataversePolicyEnforcement.Client/src/Models/FormPolicyConfiguration.ts:26-31 | The `Map` loop ends with the keys in first-appearance order and each key's list in rule order. |
| FormConfiguration.DeriveTriggerGroups | DataversePolicyEnforcement.Client/src/Models/FormPolicyConfiguration.ts:24-35 | Building the groups from the `Map` gives exactly the derived groups. |
| FormConfiguration.GroupsOf | DataversePolicyEnforcement.Client/src/Models/FormPolicyConfiguration.ts:20-36 | Without triggerGroups the groups are derived. Accepted explicit groups each have distinct names. |
| FormConfiguration.Configure | DataversePolicyEnforcement.Client/src/Models/FormPolicyConfiguration.ts:15-39 | A parseJson error is the constructor's error. An accepted configuration has distinct rule keys and distinct group triggers. |
| FormConfiguration.NoInputIsEmpty | DataversePolicyEnforcement.Client/src/Models/FormPolicyConfiguration.ts:42-44 | Undefined or null input gives no rules and no trigger groups. |
| FormConfiguration.ConfigureAccepts | DataversePolicyEnforcement.Client/src/Models/FormPolicyConfiguration.ts:15-39 | A configuration is accepted iff it is well shaped, every rule parses, the rule keys are distinct, and the groups parse with distinct triggers. Every accepted group has distinct names. |
| FormConfiguration.ExplicitGroupsAreNotCrossChecked | DataversePolicyEnforcement.Client/src/Models/FormPolicyConfiguration.ts:20-23 | Valid explicit groups go with any valid rules unchanged, even groups no rule mentions. |
| FormConfiguration.ExampleRulesParse | DataversePolicyEnforcement.Client/tests/Models/FormPolicyConfiguration.test.ts:115-125 | The example's rule list parses to rule (a, t). |
| FormConfiguration.ExampleGroupsParse | DataversePolicyEnforcement.Client/tests/Models/FormPolicyConfiguration.test.ts:115-125 | The example's group list parses to group t listing x and y. |
| FormConfiguration.ExplicitGroupExample | DataversePolicyEnforcement.Client/tests/Models/FormPolicyConfiguration.test.ts:115-125 | Rule (a, t) with an explicit group t listing x and y keeps that group as given. |
| FormConfiguration.ParseTriggerGroups | DataversePolicyEnforcement.Client/src/Models/FormPolicyConfiguration.ts:21-23 | Parsing the explicit groups one by one gives exactly the map of the group parse. |
| FormConfiguration.BuildGroups | DataversePolicyEnforcement.Client/src/Models/FormPolicyConfiguration.ts:20-36 | The constructor's branch gives exactly the specified groups. |
| FormConfiguration.Validate | DataversePolicyEnforcement.Client/src/Models/FormPolicyConfiguration.ts:15-39 | The constructor's steps give exactly the specified configuration or first error. |
| FormConfiguration.FormPolicyConfiguration.Of | DataversePolicyEnforcement.Client/src/Models/FormPolicyConfiguration.ts:11-13 | The object holds the given rules and trigger groups. |
| FormConfiguration.FormPolicyConfiguration.New | DataversePolicyEnforcement.Client/src/Models/FormPolicyConfiguration.ts:15-39 | A new object holding the specified configuration, or the error the constructor throws. |
| InputParameters.StringsOf | DataversePolicyEnforcement.CustomApi/Models/AttributeDecisionInputParameters.cs:93-94 | `OfType<string>` keeps only string elements, each taken from the input. |
| InputParameters.StringsOfAppend | DataversePolicyEnforcement.CustomApi/Models/AttributeDecisionInputParameters.cs:93-94 | `OfType<string>` keeps order: it distributes over concatenation. |
| InputParameters.StringsOfStrings | DataversePolicyEnforcement.CustomApi/Models/AttributeDecisionInputParameters.cs:93-94 | An array of strings keeps all of them. |
| InputParameters.NoStrings | DataversePolicyEnforcement.CustomApi/Models/AttributeDecisionInputParameters.cs:93-94 | An array without strings keeps nothing. |
| InputParameters.NormalizeTargetAttributeLogicalNames | DataversePolicyEnforcement.CustomApi/Models/AttributeDecisionInputParameters.cs:82-106 | Null gives the empty list. The string collections are kept as they are, and an object array keeps only strings. A single string gives a one-element list. Any other type raises ArgumentException with its type name. |
| InputParameters.ObjectArrayKeepsOnlyStrings | DataversePolicyEnforcement.CustomApi/Models/AttributeDecisionInputParameters.cs:93-94 | An object array of strings followed by non-strings normalises to exactly the strings; one of only non-strings to the empty list. |
| InputParameters.ReadInputs | DataversePolicyEnforcement.CustomApi/Models/AttributeDecisionInputParameters.cs:19-80 | A null collection, a missing entity key and a bad entity name raise their exceptions, in that order. Accepted inputs have non-blank names stored untrimmed, the current value stored as given, and the target names normalised (empty when absent). With valid names and a current value, the input is accepted exactly when the target names normalise, and a normalisation error is the constructor's error. |
| InputParameters.TriggerChecksComeSecond | DataversePolicyEnforcement.CustomApi/Models/AttributeDecisionInputParameters.cs:43-65 | After a valid entity name, a missing trigger, a bad trigger and a missing current value raise their exceptions in that order. |
| InputParameters.FirstInvalidFieldDecides | DataversePolicyEnforcement.CustomApi/Models/AttributeDecisionInputParameters.cs:26-60 | Collections that agree on the names fail with the same exception when a name check fails, whatever else they hold. |
| InputParameters.NullCurrentValueIsKept | DataversePolicyEnforcement.CustomApi/Models/AttributeDecisionInputParameters.cs:62-72 | A null current value is accepted and stored as null, and no target key gives an empty list. |
| InputParameters.CurrentValueKeyIsExact | DataversePolicyEnforcement.CustomApi/Models/AttributeDecisionInputParameters.cs:62-65 | A current value supplied under "dpe_gad_currentvalue" is refused as missing. |
| InputParameters.AttributeDecisionInputParameters.Unset | DataversePolicyEnforcement.CustomApi/Models/AttributeDecisionInputParameters.cs:9-12 | Every property starts at its default. |
| InputParameters.AttributeDecisionInputParameters.New | DataversePolicyEnforcement.CustomApi/Models/AttributeDecisionInputParameters.cs:19-80 | The properties assigned between the guards are the specified inputs, or the first failing guard's exception is returned. |
| MetadataHelper.TryParseInt32 | DataversePolicyEnforcement.CustomApi/Helpers/MetadataHelper.cs:105-120 | `int.TryParse` succeeds exactly when `Int32.Parse` would, with the same number. |
| MetadataHelper.ParseLookupValue | DataversePolicyEnforcement.CustomApi/Helpers/MetadataHelper.cs:78-101 | The result is null or a reference. A blank lookup logical name or unparsable GUID text gives null: the format error is caught. Otherwise it is the reference to the parsed GUID under the given logical name. |
| MetadataHelper.UpperCaseLookupIsTheSameRow | DataversePolicyEnforcement.CustomApi/Helpers/MetadataHelper.cs:88-94 | A lookup value given as upper-case GUID text parses to the same row as its lower-case text. |
| MetadataHelper.ParseIntValue | DataversePolicyEnforcement.CustomApi/Helpers/MetadataHelper.cs:103-116 | The result is the integer `TryParse` yields iff it succeeds; otherwise a FormatException naming the text. |
| MetadataHelper.ParsedNumber | DataversePolicyEnforcement.CustomApi/Helpers/MetadataHelper.cs:103-131 | Text whose integer parse gives n yields n for both Integer and Picklist attributes. |
| MetadataHelper.PaddedNumberText | DataversePolicyEnforcement.CustomApi/Helpers/MetadataHelper.cs:103-116 | An integer's text with white space around it parses to that integer. |
| MetadataHelper.SignedNumberText | DataversePolicyEnforcement.CustomApi/Helpers/MetadataHelper.cs:103-116 | A non-negative integer's text with a leading `+` parses to that integer. |
| MetadataHelper.ParseOptionValue | DataversePolicyEnforcement.CustomApi/Helpers/MetadataHelper.cs:118-131 | The option code `TryParse` yields, as a plain integer, iff it succeeds; otherwise the option-set FormatException. |
| MetadataHelper.ZeroPaddedOptionText | DataversePolicyEnforcement.CustomApi/Helpers/MetadataHelper.cs:118-131 | An option code written with a leading zero parses to the same code. |
| MetadataHelper.ParseAttributeValue | DataversePolicyEnforcement.CustomApi/Helpers/MetadataHelper.cs:37-76 | A blank current value is null whatever the type. A non-null result fits the type. A FormatException comes only from Integer or Picklist. NotSupportedException is raised iff the type is not one of the four supported ones. |
| MetadataHelper.LookupDispatch | DataversePolicyEnforcement.CustomApi/Helpers/MetadataHelper.cs:54-56 | A Lookup attribute is parsed by the lookup parser. |
| MetadataHelper.NumberDispatch | DataversePolicyEnforcement.CustomApi/Helpers/MetadataHelper.cs:60-65 | Integer and Picklist attributes are parsed by their integer parsers. |
| MetadataHelper.BlankValueIsNull | DataversePolicyEnforcement.CustomApi/Helpers/MetadataHelper.cs:40-46 | A null or white-space current value is null for every attribute and type. |
| MetadataHelper.TextIsKeptAsSent | DataversePolicyEnforcement.CustomApi/Helpers/MetadataHelper.cs:57-59 | A String attribute takes the text as sent, padding included. |
| MetadataHelper.NumberRoundTrip | DataversePolicyEnforcement.CustomApi/Helpers/MetadataHelper.cs:103-131 | The text of every Int32 parses back to it for Integer and Picklist attributes. |
| MetadataHelper.NumberTextIsNotBlank | DataversePolicyEnforcement.CustomApi/Helpers/MetadataHelper.cs:40 | The text of a number is never blank. |
| MetadataHelper.OutOfRangeNumberIsAFormatError | DataversePolicyEnforcement.CustomApi/Helpers/MetadataHelper.cs:105-128 | A number just outside the Int32 range is a FormatException, since TryParse fails on overflow. |
| MetadataHelper.LookupRoundTrip | DataversePolicyEnforcement.CustomApi/Helpers/MetadataHelper.cs:88-94 | The text of any GUID parses back to a reference to it in the named table. |
| MetadataHelper.GuidTextIsNotBlank | DataversePolicyEnforcement.CustomApi/Helpers/MetadataHelper.cs:40 | The text of a GUID is never blank. |
| MetadataHelper.UnparsableLookupIsNull | DataversePolicyEnforcement.CustomApi/Helpers/MetadataHelper.cs:82-100 | Text that is not a GUID, or a missing table name, gives null rather than an error. |

## Left out

- Policy store I/O. `PolicyCollection`'s queries to the organisation service are an in-memory store in `PolicyData`. Its results are assumed to be the active rows, ordered by sequence as the queries ask. `MetadataValidator` is not part of this model.
- `MetadataHelper.GetAttributeMetadata` and the metadata service. The attribute type is a parameter of `ParseAttributeValue`. A failure of the metadata call is not modelled.
- `JSON.parse`. It is a parameter of the form configuration, which works on a parsed JSON value.
- JavaScript numbers. They are integers here, and only their type matters.
- The engine's wording of the TypeError raised by the `in` operator on a primitive. The model records the key only.
- The custom API plug-in `DPE_GetAttributeDecisions`, its JSON output and its result type. The form script and the Web API client (`OnLoad.ts`, `PolicyService.ts`) are also out, as user interface and transport.
- `ValidatePolicyRulePlugin`: its body is empty.
- Tracing, `Debug.WriteLine` and the plug-in host objects. The plug-in context is a value holding the message name, stage, target and pre-images.
- Floating point. Decimals and Money are exact integers, so the `double` cases of the value-equality tests are not modelled.
- DateTime: its text and culture-dependent parsing are modelled only through ticks.
- Culture-dependent number formats. Integer text is the invariant `[white][sign]digits[white]` form.
- GUID text formats other than "D" (8-4-4-4-12). Upper-case conversion covers ASCII letters only.
- Object identity in `AreEqual`. Its `ReferenceEquals` test can only succeed for two nulls, because the values compared are separate objects.
- The order of a `HashSet`. The governed attributes are a set; when several fail, the plug-in raises the exception of some failing attribute.
- The pass functions `ClientPass` and `ServerPass` have no counterpart of the `break` at the top of the scope loops (`PolicyScopeEvaluation.cs:41-42,103-104`). The methods `ClientRuleLoop` and `ServerRuleLoop` keep the branch; their loop invariant `!notAllowedSet` proves it never fires, because a NotAllowed rule that matches returns at once.
- ScopeEvaluation.StoredConditions: what the passes learn of each rule's conditions is given as a matcher that agrees with them, instead of re-running the fetch inside the pass specification.
- Condition.ConditionValueEquals: the Money case compares amounts. `Condition.cs:44` applies `==` to two `Money` objects, and the model assumes that the SDK's `Money` type defines `==` by its `Value`. Nothing in this repository shows that. Under reference equality a Money condition would never match a separately built value.
- Null value types and null entity names. `PolicyCondition.valueType` and `Entity.logicalName` are never null in the model. In the source, a null `dpe_ValueType` behaves differently by build. In debug builds the trace at `Condition.cs:16-18` reads `.Value` and throws InvalidOperationException. Otherwise the switch takes its default branch and the comparison is false. A null `LogicalName` gives the plug-in an empty set of governed attributes.
- Helpers that factor loops or branches out of one source method:
  - `MatchRule`, `ClientRuleLoop`, `ServerRuleLoop`, `ApplyClientRule` and `ApplyServerRule`;
  - `EvaluateFetched`, `EnforceAttribute` and `EnforceAll`;
  - `FirstRepeat`, which is shared by the three `Set` loops;
  - `GroupByTrigger`, `ParseTriggerGroups`, `BuildGroups` and `Validate`;
  - `ServerPart`, the server flags of a client record, which `ServerPassIsClientPassWithoutVisible` compares with.

  They have no counterpart of their own in the source.
