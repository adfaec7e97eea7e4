/** The input parameters of the attribute-decision custom API: the entity, the trigger
    attribute and its current value, and the list of target attributes, read from the
    request's parameter collection with the checks the constructor makes. */
module InputParameters {
  import opened Values

  /** A parameter value as the constructor tells it apart: a single object (null, a
      string or another runtime value), the collection types it converts, or an object
      of some other type, known by its full type name. */
  datatype Param =
    | Scalar(value: Value)
    | StringList(strings: seq<Option<string>>)
    | StringArray(strings: seq<Option<string>>)
    | ObjectArray(objects: seq<Value>)
    | StringSequence(strings: seq<Option<string>>)
    | Other(typeName: string)

  type ParameterCollection = map<string, Param>

  const EntityLogicalNameKey := "dpe_gad_entitylogicalname"
  const TriggerAttributeLogicalNameKey := "dpe_gad_triggerattributelogicalname"
  const CurrentValueKey := "dpe_gad_triggercurrentvalue"
  const TargetAttributeLogicalNamesKey := "dpe_gad_targetattributelogicalnames"

  const CollectionRequiredName := "Collection is required and cannot be null"
  const EntityNameInvalidMessage := "Entity logical name cannot be null or empty."
  const TriggerNameInvalidMessage := "Trigger attribute logical name cannot be null or empty."

  function MissingParameter(key: string): Exception {
    Exception(ArgumentException, "Missing required parameter: " + key)
  }

  /** ArgumentException(message, paramName) as .NET Framework words it. */
  function ArgumentWithName(message: string, paramName: string): Exception {
    Exception(ArgumentException, message + "\r\nParameter name: " + paramName)
  }

  /** Type.FullName of a non-null parameter value. */
  function TypeName(p: Param): string
    requires p != Scalar(Null)
  {
    match p
    case Scalar(v) =>
      (match v
       case Str(_) => "System.String"
       case Int(_) => "System.Int32"
       case Dec(_) => "System.Decimal"
       case Bool(_) => "System.Boolean"
       case DateTime(_) => "System.DateTime"
       case GuidValue(_) => "System.Guid"
       case Money(_) => "Microsoft.Xrm.Sdk.Money"
       case OptionSet(_) => "Microsoft.Xrm.Sdk.OptionSetValue"
       case Reference(_) => "Microsoft.Xrm.Sdk.EntityReference"
       case Aliased(_) => "Microsoft.Xrm.Sdk.AliasedValue"
       case Null => "")
    case StringList(_) => "System.Collections.Generic.List`1[[System.String]]"
    case StringArray(_) => "System.String[]"
    case ObjectArray(_) => "System.Object[]"
    case StringSequence(_) => "System.Collections.Generic.IEnumerable`1[[System.String]]"
    case Other(name) => name
  }

  // ---------------------------------------------------------------------------
  // Target-name normalisation

  /** Enumerable.OfType<string>: the string elements, in order; nulls are dropped. */
  function StringsOf(objects: seq<Value>): (r: seq<Option<string>>)
    ensures |r| <= |objects|
    ensures forall x :: x in r ==> x.Some? && Str(x.value) in objects
  {
    if objects == [] then []
    else
      var rest := StringsOf(objects[1..]);
      assert forall x :: x in rest ==> Str(x.value) in objects by {
        assert forall v :: v in objects[1..] ==> v in objects;
      }
      (if objects[0].Str? then [Some(objects[0].s)] else []) + rest
  }

  /** OfType keeps the order: the strings of a concatenation are the concatenation of
      the strings of its parts. */
  lemma {:induction false} StringsOfAppend(a: seq<Value>, b: seq<Value>)
    ensures StringsOf(a + b) == StringsOf(a) + StringsOf(b)
  {
    if a == [] {
      assert a + b == b;
    } else {
      assert (a + b)[0] == a[0];
      assert (a + b)[1..] == a[1..] + b;
      StringsOfAppend(a[1..], b);
    }
  }

  /** Strings boxed as objects, and the same strings as non-null list entries. */
  function Boxed(names: seq<string>): (r: seq<Value>)
    ensures |r| == |names|
  {
    if names == [] then [] else [Str(names[0])] + Boxed(names[1..])
  }

  function NonNull(names: seq<string>): (r: seq<Option<string>>)
    ensures |r| == |names|
  {
    if names == [] then [] else [Some(names[0])] + NonNull(names[1..])
  }

  /** An array holding only strings keeps every one of them. */
  lemma {:induction false} StringsOfStrings(names: seq<string>)
    ensures StringsOf(Boxed(names)) == NonNull(names)
  {
    if names != [] {
      assert Boxed(names)[1..] == Boxed(names[1..]);
      StringsOfStrings(names[1..]);
    }
  }

  /** NormalizeTargetAttributeLogicalNames: null is the empty list, the string
      collections are copied as they are, an object array keeps its strings, a single
      string is a one-element list, and any other type is refused. */
  function NormalizeTargetAttributeLogicalNames(input: Param): (r: Result<seq<Option<string>>, Exception>)
    ensures input == Scalar(Null) ==> r == Ok([])
    ensures input.StringList? || input.StringArray? || input.StringSequence? ==> r == Ok(input.strings)
    ensures input.ObjectArray? ==> r.Ok? && |r.value| <= |input.objects|
                                   && forall x :: x in r.value ==> x.Some? && Str(x.value) in input.objects
    ensures input.Scalar? && input.value.Str? ==> r == Ok([Some(input.value.s)])
    ensures r.Err? <==> input.Other? || (input.Scalar? && !input.value.Null? && !input.value.Str?)
    ensures r.Err? ==> r.error == ArgumentWithName("Unexpected type for targetAttributeLogicalNames: " + TypeName(input), "input")
  {
    match input
    case Scalar(Null) => Ok([])
    case StringList(list) => Ok(list)
    case StringArray(items) => Ok(items)
    case ObjectArray(objects) => Ok(StringsOf(objects))
    case StringSequence(strings) => Ok(strings)
    case Scalar(Str(s)) => Ok([Some(s)])
    case _ => Err(ArgumentWithName("Unexpected type for targetAttributeLogicalNames: " + TypeName(input), "input"))
  }

  /** An object array of non-strings normalises to nothing; one of strings to all of them. */
  lemma ObjectArrayKeepsOnlyStrings(names: seq<string>, others: seq<Value>)
    requires forall v :: v in others ==> !v.Str?
    ensures NormalizeTargetAttributeLogicalNames(ObjectArray(others)) == Ok([])
    ensures NormalizeTargetAttributeLogicalNames(ObjectArray(Boxed(names) + others)) == Ok(NonNull(names))
  {
    NoStrings(others);
    StringsOfStrings(names);
    StringsOfAppend(Boxed(names), others);
    assert NonNull(names) + [] == NonNull(names);
  }

  lemma {:induction false} NoStrings(others: seq<Value>)
    requires forall v :: v in others ==> !v.Str?
    ensures StringsOf(others) == []
  {
    if others != [] {
      assert others[0] in others;
      assert forall v :: v in others[1..] ==> v in others;
      NoStrings(others[1..]);
    }
  }

  // ---------------------------------------------------------------------------
  // The constructor's checks

  /** `collection[key] is string s` and `s.Trim()` is not empty. */
  predicate IsName(p: Param) {
    p.Scalar? && p.value.Str? && !IsNullOrWhiteSpace(Some(p.value.s))
  }

  /** The entity and trigger names are valid and a current value is given. */
  predicate RequiredInputsPresent(c: ParameterCollection) {
    && EntityLogicalNameKey in c && IsName(c[EntityLogicalNameKey])
    && TriggerAttributeLogicalNameKey in c && IsName(c[TriggerAttributeLogicalNameKey])
    && CurrentValueKey in c
  }

  datatype Inputs = Inputs(
    entityLogicalName: string,
    triggerAttributeLogicalName: string,
    currentValue: Param,
    targetAttributeLogicalNames: seq<Option<string>>)

  /** What the constructor stores, or the first exception it throws: the collection,
      then the entity name, the trigger name, the current value and the target names,
      in that order. */
  function ReadInputs(collection: Option<ParameterCollection>): (r: Result<Inputs, Exception>)
    ensures collection.None? ==> r == Err(ArgumentNull(CollectionRequiredName))
    ensures collection.Some? && EntityLogicalNameKey !in collection.value ==>
              r == Err(MissingParameter(EntityLogicalNameKey))
    ensures collection.Some? && EntityLogicalNameKey in collection.value
            && !IsName(collection.value[EntityLogicalNameKey]) ==>
              r == Err(Exception(ArgumentException, EntityNameInvalidMessage))
    ensures r.Ok? ==> collection.Some? && var c := collection.value;
              && EntityLogicalNameKey in c && IsName(c[EntityLogicalNameKey])
              && TriggerAttributeLogicalNameKey in c && IsName(c[TriggerAttributeLogicalNameKey])
              && CurrentValueKey in c
              && r.value.entityLogicalName == c[EntityLogicalNameKey].value.s
              && r.value.triggerAttributeLogicalName == c[TriggerAttributeLogicalNameKey].value.s
              && r.value.currentValue == c[CurrentValueKey]
              && (TargetAttributeLogicalNamesKey !in c ==> r.value.targetAttributeLogicalNames == [])
              && (TargetAttributeLogicalNamesKey in c ==>
                    NormalizeTargetAttributeLogicalNames(c[TargetAttributeLogicalNamesKey]) == Ok(r.value.targetAttributeLogicalNames))
    ensures collection.Some? && RequiredInputsPresent(collection.value)
            && TargetAttributeLogicalNamesKey !in collection.value
            ==> r.Ok?
    ensures collection.Some? && RequiredInputsPresent(collection.value)
            && TargetAttributeLogicalNamesKey in collection.value
            ==> var normalized := NormalizeTargetAttributeLogicalNames(collection.value[TargetAttributeLogicalNamesKey]);
                (r.Ok? <==> normalized.Ok?) && (normalized.Err? ==> r == Err(normalized.error))
  {
    if collection.None? then Err(ArgumentNull(CollectionRequiredName))
    else
      var c := collection.value;
      if EntityLogicalNameKey !in c then Err(MissingParameter(EntityLogicalNameKey))
      else if !IsName(c[EntityLogicalNameKey]) then Err(Exception(ArgumentException, EntityNameInvalidMessage))
      else if TriggerAttributeLogicalNameKey !in c then Err(MissingParameter(TriggerAttributeLogicalNameKey))
      else if !IsName(c[TriggerAttributeLogicalNameKey]) then Err(Exception(ArgumentException, TriggerNameInvalidMessage))
      else if CurrentValueKey !in c then Err(MissingParameter(CurrentValueKey))
      else
        var targets :- if TargetAttributeLogicalNamesKey in c
                       then NormalizeTargetAttributeLogicalNames(c[TargetAttributeLogicalNamesKey])
                       else Ok([]);
        Ok(Inputs(c[EntityLogicalNameKey].value.s, c[TriggerAttributeLogicalNameKey].value.s,
                  c[CurrentValueKey], targets))
  }

  /** The trigger checks come after the entity checks and before the current value:
      with a valid entity name, a missing or invalid trigger name decides the error. */
  lemma TriggerChecksComeSecond(c: ParameterCollection)
    requires EntityLogicalNameKey in c && IsName(c[EntityLogicalNameKey])
    ensures TriggerAttributeLogicalNameKey !in c ==>
              ReadInputs(Some(c)) == Err(MissingParameter(TriggerAttributeLogicalNameKey))
    ensures TriggerAttributeLogicalNameKey in c && !IsName(c[TriggerAttributeLogicalNameKey]) ==>
              ReadInputs(Some(c)) == Err(Exception(ArgumentException, TriggerNameInvalidMessage))
    ensures TriggerAttributeLogicalNameKey in c && IsName(c[TriggerAttributeLogicalNameKey]) && CurrentValueKey !in c ==>
              ReadInputs(Some(c)) == Err(MissingParameter(CurrentValueKey))
  {
  }

  /** Only the first invalid field matters: collections that agree on the fields up to
      and including an invalid one fail with the same exception, whatever follows. */
  lemma FirstInvalidFieldDecides(c: ParameterCollection, d: ParameterCollection)
    requires forall k :: k in {EntityLogicalNameKey, TriggerAttributeLogicalNameKey} ==>
               (k in c <==> k in d) && (k in c ==> c[k] == d[k])
    requires ReadInputs(Some(c)).Err?
    requires !(TriggerAttributeLogicalNameKey in c && IsName(c[TriggerAttributeLogicalNameKey]))
    ensures ReadInputs(Some(d)) == ReadInputs(Some(c))
  {
    assert EntityLogicalNameKey in {EntityLogicalNameKey, TriggerAttributeLogicalNameKey};
    assert TriggerAttributeLogicalNameKey in {EntityLogicalNameKey, TriggerAttributeLogicalNameKey};
  }

  /** A null current value is accepted and stored as null. */
  lemma NullCurrentValueIsKept(entity: string, trigger: string)
    requires !IsNullOrWhiteSpace(Some(entity)) && !IsNullOrWhiteSpace(Some(trigger))
    ensures ReadInputs(Some(map[EntityLogicalNameKey := Scalar(Str(entity)),
                                TriggerAttributeLogicalNameKey := Scalar(Str(trigger)),
                                CurrentValueKey := Scalar(Null)]))
            == Ok(Inputs(entity, trigger, Scalar(Null), []))
  {
    var c := map[EntityLogicalNameKey := Scalar(Str(entity)),
                 TriggerAttributeLogicalNameKey := Scalar(Str(trigger)),
                 CurrentValueKey := Scalar(Null)];
    assert EntityLogicalNameKey[8] != TriggerAttributeLogicalNameKey[8];
    assert EntityLogicalNameKey[8] != CurrentValueKey[8];
    assert TriggerAttributeLogicalNameKey[15] != CurrentValueKey[15];
    assert TargetAttributeLogicalNamesKey !in c by {
      assert TargetAttributeLogicalNamesKey[8] != EntityLogicalNameKey[8];
      assert TargetAttributeLogicalNamesKey[9] != TriggerAttributeLogicalNameKey[9];
      assert TargetAttributeLogicalNamesKey[9] != CurrentValueKey[9];
    }
  }

  /** The current value is read from "dpe_gad_triggercurrentvalue" only: a collection
      that supplies it as "dpe_gad_currentvalue" is refused as missing it. */
  lemma CurrentValueKeyIsExact(entity: string, trigger: string, value: Param)
    requires !IsNullOrWhiteSpace(Some(entity)) && !IsNullOrWhiteSpace(Some(trigger))
    ensures ReadInputs(Some(map[EntityLogicalNameKey := Scalar(Str(entity)),
                                TriggerAttributeLogicalNameKey := Scalar(Str(trigger)),
                                "dpe_gad_currentvalue" := value]))
            == Err(MissingParameter(CurrentValueKey))
  {
    assert EntityLogicalNameKey[8] != TriggerAttributeLogicalNameKey[8];
    assert CurrentValueKey[8] != EntityLogicalNameKey[8];
    assert CurrentValueKey[15] != TriggerAttributeLogicalNameKey[15];
    assert |CurrentValueKey| != |"dpe_gad_currentvalue"|;
  }

  // ---------------------------------------------------------------------------
  // The class

  /** AttributeDecisionInputParameters: the four properties the constructor sets. */
  class AttributeDecisionInputParameters {
    var entityLogicalName: string
    var triggerAttributeLogicalName: string
    var currentValue: Param
    var targetAttributeLogicalNames: seq<Option<string>>

    /** The object before its constructor body runs: every property at its default. */
    constructor Unset()
      ensures entityLogicalName == "" && triggerAttributeLogicalName == ""
      ensures currentValue == Scalar(Null) && targetAttributeLogicalNames == []
    {
      entityLogicalName := "";
      triggerAttributeLogicalName := "";
      currentValue := Scalar(Null);
      targetAttributeLogicalNames := [];
    }

    function Contents(): Inputs
      reads this
    {
      Inputs(entityLogicalName, triggerAttributeLogicalName, currentValue, targetAttributeLogicalNames)
    }

    /** The constructor: each property is assigned as soon as its check passes, and the
        first failing check is the exception thrown. */
    static method New(collection: Option<ParameterCollection>)
      returns (r: Result<AttributeDecisionInputParameters, Exception>)
      ensures r.Ok? ==> fresh(r.value) && ReadInputs(collection) == Ok(r.value.Contents())
      ensures r.Err? ==> ReadInputs(collection) == Err(r.error)
    {
      var p := new AttributeDecisionInputParameters.Unset();
      if collection.None? {
        return Err(ArgumentNull(CollectionRequiredName));
      }
      var c := collection.value;
      if EntityLogicalNameKey !in c {
        return Err(MissingParameter(EntityLogicalNameKey));
      }
      if !IsName(c[EntityLogicalNameKey]) {
        return Err(Exception(ArgumentException, EntityNameInvalidMessage));
      }
      p.entityLogicalName := c[EntityLogicalNameKey].value.s;
      if TriggerAttributeLogicalNameKey !in c {
        return Err(MissingParameter(TriggerAttributeLogicalNameKey));
      }
      if !IsName(c[TriggerAttributeLogicalNameKey]) {
        return Err(Exception(ArgumentException, TriggerNameInvalidMessage));
      }
      p.triggerAttributeLogicalName := c[TriggerAttributeLogicalNameKey].value.s;
      if CurrentValueKey !in c {
        return Err(MissingParameter(CurrentValueKey));
      }
      p.currentValue := c[CurrentValueKey];
      if TargetAttributeLogicalNamesKey !in c {
        p.targetAttributeLogicalNames := [];
      } else {
        var names := NormalizeTargetAttributeLogicalNames(c[TargetAttributeLogicalNamesKey]);
        if names.Err? {
          return Err(names.error);
        }
        p.targetAttributeLogicalNames := names.value;
      }
      return Ok(p);
    }
  }
}
