/** The client-side form configuration: a list of (attribute, trigger) rules and the
    trigger groups that say which attributes to re-evaluate when a trigger changes.
    The configuration arrives as a JSON string or as an already-built object; both are
    modelled as a JavaScript value tree, and JSON.parse is a parameter. */
module FormConfiguration {
  import opened Values

  /** A JavaScript value as the validator sees it.  Numbers are kept as integers: only
      their truthiness and their type matter here. */
  datatype Js =
    | JsUndefined
    | JsNull
    | JsBool(b: bool)
    | JsNumber(n: int)
    | JsString(s: string)
    | JsArray(items: seq<Js>)
    | JsObject(fields: map<string, Js>)

  datatype Rule = Rule(attributeLogicalName: string, triggerAttributeLogicalName: string)

  datatype TriggerGroup = TriggerGroup(triggerAttributeLogicalName: string, attributeLogicalNames: seq<string>)

  datatype Configuration = Configuration(rules: seq<Rule>, triggerGroups: seq<TriggerGroup>)

  /** What the constructor throws.  InOperatorError is the TypeError the engine itself
      raises when the `in` operator is applied to a primitive (a JSON text such as "5"
      parses to one); its wording belongs to the engine and is not modelled. */
  datatype ConfigError =
    | SyntaxError(message: string)
    | TypeError(message: string)
    | InOperatorError(key: string)

  // ---------------------------------------------------------------------------
  // JavaScript primitives

  /** The characters String.prototype.trim removes: white space and line terminators. */
  predicate JsWhiteSpace(c: char) {
    ('\t' <= c <= '\r') || c == ' ' || c == '\U{A0}' || c == '\U{1680}'
    || ('\U{2000}' <= c <= '\U{200A}') || c == '\U{2028}' || c == '\U{2029}' || c == '\U{202F}'
    || c == '\U{205F}' || c == '\U{3000}' || c == '\U{FEFF}'
  }

  /** All characters are ones trim removes. */
  predicate Blank(s: string) {
    forall i :: 0 <= i < |s| ==> JsWhiteSpace(s[i])
  }

  /** `typeof v === "string" && v.trim()` is truthy (see BlankIsTrimmedAway). */
  predicate IsNonBlankString(v: Js) {
    v.JsString? && !Blank(v.s)
  }

  /** A string trims to the empty, falsy string exactly when it is blank. */
  lemma BlankIsTrimmedAway(s: string)
    ensures Trim(s, JsWhiteSpace) == [] <==> Blank(s)
  {
    TrimEmptyIffAllWhite(s, JsWhiteSpace);
  }

  /** `!v || typeof v !== "object"` fails: v is an array or an object. */
  predicate IsObject(v: Js) {
    v.JsArray? || v.JsObject?
  }

  /** Property access `v.key` for a non-index key: arrays have no such property. */
  function Get(v: Js, key: string): (r: Js)
    ensures v.JsObject? && key in v.fields ==> r == v.fields[key]
    ensures !(v.JsObject? && key in v.fields) ==> r == JsUndefined
  {
    if v.JsObject? && key in v.fields then v.fields[key] else JsUndefined
  }

  /** `key in v`: true for an object's own property, false on an array, and a TypeError
      raised by the engine on a primitive. */
  function Has(v: Js, key: string): (r: Result<bool, ConfigError>)
    ensures r.Err? <==> !IsObject(v)
    ensures r.Err? ==> r.error == InOperatorError(key)
    ensures r.Ok? ==> (r.value <==> v.JsObject? && key in v.fields)
  {
    if v.JsObject? then Ok(key in v.fields)
    else if v.JsArray? then Ok(false)
    else Err(InOperatorError(key))
  }

  // ---------------------------------------------------------------------------
  // Messages

  const InvalidJsonMessage := "Invalid JSON string provided to FormPolicyConfiguration constructor"
  const ExpectsStringOrObjectMessage := "Constructor expects a JSON string or an object"
  const MissingRulesMessage := "Missing required property \"rules\" in FormPolicyConfiguration JSON"
  const RulesNotArrayMessage := "\"rules\" must be an array in FormPolicyConfiguration JSON"
  const TriggerGroupsNotArrayMessage := "\"triggerGroups\" must be an array in FormPolicyConfiguration JSON when present"
  const RuleNotObjectMessage := "Each rule must be an object"
  const RuleAttributeMessage := "Each rule must have a non-empty string \"attributeLogicalName\""
  const RuleTriggerMessage := "Each rule must have a non-empty string \"triggerAttributeLogicalName\""
  const GroupNotObjectMessage := "Each trigger group must be an object"
  const GroupTriggerMessage := "Each trigger group must have a non-empty string \"triggerAttributeLogicalName\""
  const GroupNamesNotArrayMessage := "Each trigger group must have an array \"attributeLogicalNames\""

  function GroupNameMessage(i: nat, trigger: string): string {
    "attributeLogicalNames[" + IntText(i) + "] in trigger group \"" + trigger + "\" must be a non-empty string"
  }

  function DuplicateNameMessage(name: string, trigger: string): string {
    "Duplicate attributeLogicalName \"" + name + "\" in trigger group \"" + trigger + "\""
  }

  function DuplicateRuleMessage(r: Rule): string {
    "Duplicate rule for attributeLogicalName=\"" + r.attributeLogicalName
    + "\" and triggerAttributeLogicalName=\"" + r.triggerAttributeLogicalName + "\""
  }

  function DuplicateGroupMessage(g: TriggerGroup): string {
    "Duplicate trigger group for triggerAttributeLogicalName=\"" + g.triggerAttributeLogicalName + "\""
  }

  // ---------------------------------------------------------------------------
  // Input shape (parseJson, after JSON.parse)

  /** The shape parseJson guarantees of the object it returns. */
  predicate WellShaped(data: Js) {
    data.JsObject? && "rules" in data.fields && data.fields["rules"].JsArray?
    && ("triggerGroups" in data.fields ==> data.fields["triggerGroups"].JsArray?)
  }

  /** parseJson: no input stands for an empty configuration, a string is parsed, an
      object or array is taken as it is, and the result must hold an array of rules and
      at most an array of trigger groups. */
  function ParseJson(json: Js, parse: string -> Option<Js>): (r: Result<Js, ConfigError>)
    ensures json.JsUndefined? || json.JsNull? ==>
              r == Ok(JsObject(map["rules" := JsArray([]), "triggerGroups" := JsArray([])]))
    ensures json.JsBool? || json.JsNumber? ==> r == Err(TypeError(ExpectsStringOrObjectMessage))
    ensures json.JsString? && parse(json.s).None? ==> r == Err(SyntaxError(InvalidJsonMessage))
    ensures r.Ok? ==> WellShaped(r.value)
    ensures r.Ok? && (json.JsArray? || json.JsObject?) ==> r.value == json
    ensures r.Ok? && json.JsString? ==> parse(json.s) == Some(r.value)
  {
    if json.JsUndefined? || json.JsNull? then
      Ok(JsObject(map["rules" := JsArray([]), "triggerGroups" := JsArray([])]))
    else
      var obj :- match json
        case JsString(s) => if parse(s).Some? then Ok(parse(s).value) else Err(SyntaxError(InvalidJsonMessage))
        case JsArray(_) => Ok(json)
        case JsObject(_) => Ok(json)
        case _ => Err(TypeError(ExpectsStringOrObjectMessage));
      var hasRules :- Has(obj, "rules");
      if !hasRules then Err(TypeError(MissingRulesMessage))
      else if !Get(obj, "rules").JsArray? then Err(TypeError(RulesNotArrayMessage))
      else if "triggerGroups" in obj.fields && !Get(obj, "triggerGroups").JsArray? then
        Err(TypeError(TriggerGroupsNotArrayMessage))
      else Ok(obj)
  }

  /** The shape errors, stated from the object parseJson works on. */
  lemma ShapeErrors(obj: Js)
    requires IsObject(obj)
    ensures !(obj.JsObject? && "rules" in obj.fields) ==> ParseJson(obj, _ => None) == Err(TypeError(MissingRulesMessage))
    ensures obj.JsObject? && "rules" in obj.fields && !obj.fields["rules"].JsArray? ==>
              ParseJson(obj, _ => None) == Err(TypeError(RulesNotArrayMessage))
    ensures obj.JsObject? && "rules" in obj.fields && obj.fields["rules"].JsArray?
            && "triggerGroups" in obj.fields && !obj.fields["triggerGroups"].JsArray? ==>
              ParseJson(obj, _ => None) == Err(TypeError(TriggerGroupsNotArrayMessage))
    ensures ParseJson(obj, _ => None).Ok? <==> WellShaped(obj)
  {
  }

  /** A JSON text that parses to a primitive fails at the `in` operator. */
  lemma PrimitiveTextFailsAtInOperator(text: string, parse: string -> Option<Js>)
    requires parse(text).Some? && !IsObject(parse(text).value)
    ensures ParseJson(JsString(text), parse) == Err(InOperatorError("rules"))
  {
  }

  // ---------------------------------------------------------------------------
  // Rules (parseRule)

  /** parseRule: an object whose two names are strings that are not blank after trim;
      the names are kept as given, untrimmed. */
  function ParseRule(v: Js): (r: Result<Rule, ConfigError>)
    ensures !IsObject(v) ==> r == Err(TypeError(RuleNotObjectMessage))
    ensures IsObject(v) && !IsNonBlankString(Get(v, "attributeLogicalName")) ==>
              r == Err(TypeError(RuleAttributeMessage))
    ensures r.Ok? <==> IsObject(v) && IsNonBlankString(Get(v, "attributeLogicalName"))
                       && IsNonBlankString(Get(v, "triggerAttributeLogicalName"))
    ensures r.Err? ==> r.error in {TypeError(RuleNotObjectMessage), TypeError(RuleAttributeMessage), TypeError(RuleTriggerMessage)}
    ensures r.Ok? ==> r.value.attributeLogicalName == Get(v, "attributeLogicalName").s
                      && r.value.triggerAttributeLogicalName == Get(v, "triggerAttributeLogicalName").s
  {
    if !IsObject(v) then Err(TypeError(RuleNotObjectMessage))
    else if !IsNonBlankString(Get(v, "attributeLogicalName")) then Err(TypeError(RuleAttributeMessage))
    else if !IsNonBlankString(Get(v, "triggerAttributeLogicalName")) then Err(TypeError(RuleTriggerMessage))
    else Ok(Rule(Get(v, "attributeLogicalName").s, Get(v, "triggerAttributeLogicalName").s))
  }

  /** Names with surrounding blanks are accepted and stored as written. */
  function RuleObject(attribute: Js, trigger: Js): Js {
    JsObject(map["attributeLogicalName" := attribute, "triggerAttributeLogicalName" := trigger])
  }

  /** Any two non-blank names are accepted and stored as written. */
  lemma RuleNamesAreKeptAsWritten(a: string, t: string)
    requires IsNonBlankString(JsString(a)) && IsNonBlankString(JsString(t))
    ensures ParseRule(RuleObject(JsString(a), JsString(t))) == Ok(Rule(a, t))
  {
    var v := RuleObject(JsString(a), JsString(t));
    assert Get(v, "attributeLogicalName") == JsString(a);
    assert Get(v, "triggerAttributeLogicalName") == JsString(t);
  }

  /** Surrounding blanks are not trimmed away: " a " is stored as " a ". */
  lemma PaddedRuleNameIsNotTrimmed(t: string)
    requires IsNonBlankString(JsString(t))
    ensures ParseRule(RuleObject(JsString(" a "), JsString(t))) == Ok(Rule(" a ", t))
  {
    assert !JsWhiteSpace(" a "[1]);
    RuleNamesAreKeptAsWritten(" a ", t);
  }

  /** A name made of blanks only is refused. */
  lemma BlankRuleNameIsRefused(t: Js)
    ensures ParseRule(RuleObject(JsString(" "), t)) == Err(TypeError(RuleAttributeMessage))
  {
    assert Get(RuleObject(JsString(" "), t), "attributeLogicalName") == JsString(" ");
    assert Blank(" ");
  }

  /** Array.prototype.map with a callback that throws: the first failure, in order. */
  function MapOrFail<A, B>(items: seq<A>, f: A -> Result<B, ConfigError>): (r: Result<seq<B>, ConfigError>)
    ensures r.Ok? ==> |r.value| == |items| && forall i :: 0 <= i < |items| ==> f(items[i]) == Ok(r.value[i])
    ensures r.Err? ==> exists i :: 0 <= i < |items| && f(items[i]) == Err(r.error)
                                   && forall k :: 0 <= k < i ==> f(items[k]).Ok?
  {
    if items == [] then Ok([])
    else
      match f(items[0])
      case Err(e) => Err(e)
      case Ok(b) =>
        var rest := MapOrFail(items[1..], f);
        if rest.Err? then
          var i :| 0 <= i < |items[1..]| && f(items[1..][i]) == Err(rest.error)
                   && forall k :: 0 <= k < i ==> f(items[1..][k]).Ok?;
          assert f(items[i + 1]) == Err(rest.error);
          assert forall k :: 0 <= k < i + 1 ==> f(items[k]).Ok? by {
            forall k | 0 <= k < i + 1 ensures f(items[k]).Ok? {
              if k > 0 { assert items[k] == items[1..][k - 1]; }
            }
          }
          Err(rest.error)
        else
          assert forall i :: 1 <= i < |items| ==> items[i] == items[1..][i - 1];
          Ok([b] + rest.value)
  }

  /** When every item succeeds, the map succeeds with the items' results. */
  lemma MapOrFailAllOk<A, B>(items: seq<A>, f: A -> Result<B, ConfigError>, results: seq<B>)
    requires |results| == |items| && forall i :: 0 <= i < |items| ==> f(items[i]) == Ok(results[i])
    ensures MapOrFail(items, f) == Ok(results)
  {
    var r := MapOrFail(items, f);
    assert r.Ok?;
    assert forall i :: 0 <= i < |items| ==> r.value[i] == results[i] by {
      forall i | 0 <= i < |items| ensures r.value[i] == results[i] {
        assert f(items[i]) == Ok(r.value[i]) == Ok(results[i]);
      }
    }
    assert r.value == results;
  }

  /** The first failing item decides the error. */
  lemma MapOrFailFirstError<A, B>(items: seq<A>, f: A -> Result<B, ConfigError>, i: nat)
    requires i < |items| && f(items[i]).Err? && forall k :: 0 <= k < i ==> f(items[k]).Ok?
    ensures MapOrFail(items, f) == Err(f(items[i]).error)
  {
    var r := MapOrFail(items, f);
    assert r.Err?;
    var j :| 0 <= j < |items| && f(items[j]) == Err(r.error) && forall k :: 0 <= k < j ==> f(items[k]).Ok?;
    assert j == i;
  }

  // ---------------------------------------------------------------------------
  // Duplicate detection (the Set loops)

  predicate Distinct(s: seq<string>) {
    forall i, j :: 0 <= i < j < |s| ==> s[i] != s[j]
  }

  /** The position of the first element that repeats an earlier one. */
  function FirstRepeatIndex(s: seq<string>): (r: Option<nat>)
    ensures r.None? <==> Distinct(s)
    ensures r.Some? ==> r.value < |s| && s[r.value] in s[..r.value] && Distinct(s[..r.value])
  {
    if s == [] then None
    else
      var init := s[..|s| - 1];
      var last := s[|s| - 1];
      assert s[..|s| - 1] == init;
      match FirstRepeatIndex(init)
      case Some(j) =>
        assert s[..j] == init[..j];
        Some(j)
      case None =>
        if last in init then
          assert !Distinct(s) by {
            var i :| 0 <= i < |init| && init[i] == last;
            assert s[i] == s[|s| - 1];
          }
          Some(|s| - 1)
        else
          assert Distinct(s) by {
            forall i, j | 0 <= i < j < |s| ensures s[i] != s[j] {
              if j < |s| - 1 { assert s[i] == init[i] && s[j] == init[j]; }
              else { assert s[i] == init[i]; }
            }
          }
          None
  }

  /** A repeat found in a prefix is the first repeat of the whole sequence. */
  lemma {:induction false} FirstRepeatOfPrefix(s: seq<string>, k: nat)
    requires k <= |s| && FirstRepeatIndex(s[..k]).Some?
    ensures FirstRepeatIndex(s) == FirstRepeatIndex(s[..k])
    decreases |s| - k
  {
    if k < |s| {
      var init := s[..|s| - 1];
      assert init[..k] == s[..k];
      FirstRepeatOfPrefix(init, k);
    } else {
      assert s[..k] == s;
    }
  }

  /** The `seen` set loop: walks the keys, remembering those seen, and stops at the first
      key seen before. */
  method FirstRepeat(keys: seq<string>) returns (r: Option<nat>)
    ensures r == FirstRepeatIndex(keys)
  {
    var seen: set<string> := {};
    for i := 0 to |keys|
      invariant forall x :: x in seen <==> x in keys[..i]
      invariant FirstRepeatIndex(keys[..i]).None?
    {
      assert keys[..i + 1][..i] == keys[..i];
      if keys[i] in seen {
        assert FirstRepeatIndex(keys[..i + 1]) == Some(i);
        FirstRepeatOfPrefix(keys, i + 1);
        return Some(i);
      }
      seen := seen + {keys[i]};
      assert keys[..i + 1] == keys[..i] + [keys[i]];
    }
    assert keys[..|keys|] == keys;
    return None;
  }

  /** The key ensureDistinctRules compares: the two names joined with "::". */
  function RuleKey(r: Rule): string {
    r.attributeLogicalName + "::" + r.triggerAttributeLogicalName
  }

  function RuleKeys(rules: seq<Rule>): (keys: seq<string>)
    ensures |keys| == |rules| && forall i :: 0 <= i < |rules| ==> keys[i] == RuleKey(rules[i])
  {
    seq(|rules|, i requires 0 <= i < |rules| => RuleKey(rules[i]))
  }

  function GroupTriggers(groups: seq<TriggerGroup>): (ts: seq<string>)
    ensures |ts| == |groups| && forall i :: 0 <= i < |groups| ==> ts[i] == groups[i].triggerAttributeLogicalName
  {
    seq(|groups|, i requires 0 <= i < |groups| => groups[i].triggerAttributeLogicalName)
  }

  /** ensureDistinctRules as a value: the first rule whose key was seen before is reported. */
  function RulesDuplicate(rules: seq<Rule>): (e: Option<ConfigError>)
    ensures e.None? <==> Distinct(RuleKeys(rules))
    ensures e.Some? ==> exists j :: 0 <= j < |rules| && RuleKey(rules[j]) in RuleKeys(rules[..j])
                                    && e.value == TypeError(DuplicateRuleMessage(rules[j]))
  {
    match FirstRepeatIndex(RuleKeys(rules))
    case None => None
    case Some(j) =>
      assert RuleKeys(rules)[..j] == RuleKeys(rules[..j]);
      Some(TypeError(DuplicateRuleMessage(rules[j])))
  }

  /** ensureDistinctTriggerGroups as a value. */
  function GroupsDuplicate(groups: seq<TriggerGroup>): (e: Option<ConfigError>)
    ensures e.None? <==> Distinct(GroupTriggers(groups))
    ensures e.Some? ==> exists j :: 0 <= j < |groups|
                                    && groups[j].triggerAttributeLogicalName in GroupTriggers(groups[..j])
                                    && e.value == TypeError(DuplicateGroupMessage(groups[j]))
  {
    match FirstRepeatIndex(GroupTriggers(groups))
    case None => None
    case Some(j) =>
      assert GroupTriggers(groups)[..j] == GroupTriggers(groups[..j]);
      Some(TypeError(DuplicateGroupMessage(groups[j])))
  }

  method EnsureDistinctRules(rules: seq<Rule>) returns (error: Option<ConfigError>)
    ensures error == RulesDuplicate(rules)
  {
    var j := FirstRepeat(RuleKeys(rules));
    if j.Some? {
      return Some(TypeError(DuplicateRuleMessage(rules[j.value])));
    }
    return None;
  }

  method EnsureDistinctTriggerGroups(groups: seq<TriggerGroup>) returns (error: Option<ConfigError>)
    ensures error == GroupsDuplicate(groups)
  {
    var j := FirstRepeat(GroupTriggers(groups));
    if j.Some? {
      return Some(TypeError(DuplicateGroupMessage(groups[j.value])));
    }
    return None;
  }

  /** Rules are compared by their joined key, not as pairs: two different rules whose
      names contain "::" can collide and be reported as duplicates. */
  lemma JoinedKeysCollide()
    ensures Rule("a::b", "c") != Rule("a", "b::c")
    ensures RuleKey(Rule("a::b", "c")) == RuleKey(Rule("a", "b::c"))
    ensures RulesDuplicate([Rule("a::b", "c"), Rule("a", "b::c")]) == Some(TypeError(DuplicateRuleMessage(Rule("a", "b::c"))))
  {
    assert RuleKey(Rule("a::b", "c")) == "a::b::c" == RuleKey(Rule("a", "b::c"));
    var keys := RuleKeys([Rule("a::b", "c"), Rule("a", "b::c")]);
    assert keys == ["a::b::c", "a::b::c"];
    assert keys[..1] == ["a::b::c"];
    assert FirstRepeatIndex(keys[..1]) == None;
    assert keys[..|keys| - 1] == keys[..1];
  }

  /** Rules with the same names are always duplicates; rules whose names hold no ':' are
      duplicates only when both names agree. */
  lemma RuleKeyIsInjectiveWithoutColons(p: Rule, q: Rule)
    requires ':' !in p.attributeLogicalName && ':' !in q.attributeLogicalName
    ensures RuleKey(p) == RuleKey(q) <==> p == q
  {
    if RuleKey(p) == RuleKey(q) {
      var a, b := p.attributeLogicalName, q.attributeLogicalName;
      assert RuleKey(p)[|a|] == ':' && RuleKey(q)[|b|] == ':';
      assert forall i :: 0 <= i < |a| ==> RuleKey(p)[i] == a[i];
      assert forall i :: 0 <= i < |b| ==> RuleKey(q)[i] == b[i];
      assert |a| == |b|;
      assert a == RuleKey(p)[..|a|] == RuleKey(q)[..|a|] == b;
      assert p.triggerAttributeLogicalName == RuleKey(p)[|a| + 2..] == RuleKey(q)[|a| + 2..] == q.triggerAttributeLogicalName;
    }
  }

  // ---------------------------------------------------------------------------
  // Explicit trigger groups (parseTriggerGroup)

  /** The first element of a trigger group's name array that is not a non-blank string. */
  function FirstBadName(items: seq<Js>): (r: Option<nat>)
    ensures r.None? <==> forall i :: 0 <= i < |items| ==> IsNonBlankString(items[i])
    ensures r.Some? ==> r.value < |items| && !IsNonBlankString(items[r.value])
                        && forall k :: 0 <= k < r.value ==> IsNonBlankString(items[k])
  {
    if items == [] then None
    else if !IsNonBlankString(items[0]) then Some(0)
    else match FirstBadName(items[1..])
      case None =>
        assert forall i :: 1 <= i < |items| ==> items[i] == items[1..][i - 1];
        None
      case Some(j) =>
        assert forall k :: 1 <= k <= j + 1 ==> items[k] == items[1..][k - 1];
        Some(j + 1)
  }

  function Names(items: seq<Js>): (names: seq<string>)
    requires forall i :: 0 <= i < |items| ==> items[i].JsString?
    ensures |names| == |items| && forall i :: 0 <= i < |items| ==> names[i] == items[i].s
  {
    seq(|items|, i requires 0 <= i < |items| => items[i].s)
  }

  /** The shape checks of parseTriggerGroup, in order: an object, a non-blank trigger
      string, an array of names, each a non-blank string (the first bad one is named). */
  function GroupShape(g: Js): (r: Result<(string, seq<string>), ConfigError>)
    ensures !IsObject(g) ==> r == Err(TypeError(GroupNotObjectMessage))
    ensures (IsObject(g) && !IsNonBlankString(Get(g, "triggerAttributeLogicalName"))) ==>
              r == Err(TypeError(GroupTriggerMessage))
    ensures (IsObject(g) && IsNonBlankString(Get(g, "triggerAttributeLogicalName"))
             && !Get(g, "attributeLogicalNames").JsArray?) ==> r == Err(TypeError(GroupNamesNotArrayMessage))
    ensures r.Ok? <==> IsObject(g) && IsNonBlankString(Get(g, "triggerAttributeLogicalName"))
                       && Get(g, "attributeLogicalNames").JsArray?
                       && forall i :: 0 <= i < |Get(g, "attributeLogicalNames").items| ==>
                            IsNonBlankString(Get(g, "attributeLogicalNames").items[i])
    ensures r.Ok? ==> r.value.0 == Get(g, "triggerAttributeLogicalName").s
                      && r.value.1 == Names(Get(g, "attributeLogicalNames").items)
  {
    if !IsObject(g) then Err(TypeError(GroupNotObjectMessage))
    else
      var trigger := Get(g, "triggerAttributeLogicalName");
      var items := Get(g, "attributeLogicalNames");
      if !IsNonBlankString(trigger) then Err(TypeError(GroupTriggerMessage))
      else if !items.JsArray? then Err(TypeError(GroupNamesNotArrayMessage))
      else match FirstBadName(items.items)
        case Some(i) => Err(TypeError(GroupNameMessage(i, trigger.s)))
        case None => Ok((trigger.s, Names(items.items)))
  }

  /** parseTriggerGroup as a value: the shape checks, then the first name that repeats
      an earlier one in the group. */
  function TriggerGroupOf(g: Js): (r: Result<TriggerGroup, ConfigError>)
    ensures GroupShape(g).Err? ==> r == Err(GroupShape(g).error)
    ensures r.Ok? <==> GroupShape(g).Ok? && Distinct(GroupShape(g).value.1)
    ensures r.Ok? ==> r.value == TriggerGroup(GroupShape(g).value.0, GroupShape(g).value.1)
    ensures GroupShape(g).Ok? && r.Err? ==>
              var (trigger, names) := GroupShape(g).value;
              exists j :: 0 <= j < |names| && names[j] in names[..j]
                          && r.error == TypeError(DuplicateNameMessage(names[j], trigger))
  {
    match GroupShape(g)
    case Err(e) => Err(e)
    case Ok((trigger, names)) =>
      match FirstRepeatIndex(names)
      case Some(j) => Err(TypeError(DuplicateNameMessage(names[j], trigger)))
      case None => Ok(TriggerGroup(trigger, names))
  }

  /** parseTriggerGroup: the shape checks, then the `seen` loop over the names. */
  method ParseTriggerGroup(g: Js) returns (r: Result<TriggerGroup, ConfigError>)
    ensures r == TriggerGroupOf(g)
  {
    var shape := GroupShape(g);
    if shape.Err? {
      return Err(shape.error);
    }
    var (trigger, names) := shape.value;
    var j := FirstRepeat(names);
    if j.Some? {
      return Err(TypeError(DuplicateNameMessage(names[j.value], trigger)));
    }
    return Ok(TriggerGroup(trigger, names));
  }

  function GroupObject(trigger: Js, names: Js): Js {
    JsObject(map["triggerAttributeLogicalName" := trigger, "attributeLogicalNames" := names])
  }

  /** A group object with a non-blank trigger and non-blank string names passes the
      shape checks. */
  lemma GroupObjectShape(t: string, items: seq<Js>)
    requires IsNonBlankString(JsString(t))
    requires forall i :: 0 <= i < |items| ==> items[i].JsString? && !Blank(items[i].s)
    ensures GroupShape(GroupObject(JsString(t), JsArray(items))) == Ok((t, Names(items)))
  {
    var g := GroupObject(JsString(t), JsArray(items));
    assert Get(g, "triggerAttributeLogicalName") == JsString(t);
    assert Get(g, "attributeLogicalNames") == JsArray(items);
  }

  /** A name given twice inside one group is refused, naming the repeat and the group. */
  lemma RepeatedNameInGroupIsRefused(t: string, n: string)
    requires IsNonBlankString(JsString(t)) && IsNonBlankString(JsString(n))
    ensures TriggerGroupOf(GroupObject(JsString(t), JsArray([JsString(n), JsString(n)])))
            == Err(TypeError(DuplicateNameMessage(n, t)))
  {
    GroupObjectShape(t, [JsString(n), JsString(n)]);
    var names := Names([JsString(n), JsString(n)]);
    assert names == [n, n];
    assert !Distinct(names) by { assert names[0] == names[1]; }
    assert FirstRepeatIndex(names) == Some(1) by {
      assert names[..0] == [];
    }
  }

  /** Distinct non-blank names make a group, kept in the order given. */
  lemma DistinctNamesMakeAGroup(t: string, names: seq<string>)
    requires IsNonBlankString(JsString(t)) && Distinct(names)
    requires forall i :: 0 <= i < |names| ==> IsNonBlankString(JsString(names[i]))
    ensures TriggerGroupOf(GroupObject(JsString(t), JsArray(seq(|names|, i requires 0 <= i < |names| => JsString(names[i])))))
            == Ok(TriggerGroup(t, names))
  {
    var items := seq(|names|, i requires 0 <= i < |names| => JsString(names[i]));
    GroupObjectShape(t, items);
    assert Names(items) == names;
  }

  // ---------------------------------------------------------------------------
  // Trigger groups derived from the rules

  /** The triggers the grouping loop visits, one rule after another. */
  function Triggers(rules: seq<Rule>): (ts: seq<string>)
    ensures |ts| == |rules| && forall i :: 0 <= i < |rules| ==> ts[i] == rules[i].triggerAttributeLogicalName
  {
    if rules == [] then []
    else
      var init := rules[..|rules| - 1];
      assert forall i :: 0 <= i < |init| ==> init[i] == rules[i];
      Triggers(init) + [rules[|rules| - 1].triggerAttributeLogicalName]
  }

  /** The distinct elements of a sequence, each where it first appears. */
  function FirstAppearances(xs: seq<string>): (d: seq<string>)
    ensures Distinct(d)
    ensures forall x :: x in d <==> x in xs
  {
    if xs == [] then []
    else
      var d := FirstAppearances(xs[..|xs| - 1]);
      assert forall x :: x in xs <==> x in xs[..|xs| - 1] || x == xs[|xs| - 1] by {
        assert xs == xs[..|xs| - 1] + [xs[|xs| - 1]];
      }
      if xs[|xs| - 1] in d then d
      else
        assert Distinct(d + [xs[|xs| - 1]]) by {
          var e := d + [xs[|xs| - 1]];
          forall i, j | 0 <= i < j < |e| ensures e[i] != e[j] {
            if j < |d| { assert e[i] == d[i] && e[j] == d[j]; }
            else { assert e[i] == d[i] && e[i] in d; }
          }
        }
        d + [xs[|xs| - 1]]
  }

  /** The attribute names of the rules with the given trigger, in rule order. */
  function AttributesFor(rules: seq<Rule>, trigger: string): (names: seq<string>)
    ensures |names| <= |rules|
  {
    if rules == [] then []
    else
      var r := rules[|rules| - 1];
      AttributesFor(rules[..|rules| - 1], trigger)
      + (if r.triggerAttributeLogicalName == trigger then [r.attributeLogicalName] else [])
  }

  /** The groups the constructor derives when no triggerGroups are given: one per
      distinct trigger, in the order the triggers first appear, each listing its rules'
      attributes in rule order. */
  function DerivedGroups(rules: seq<Rule>): (gs: seq<TriggerGroup>)
    ensures GroupTriggers(gs) == FirstAppearances(Triggers(rules))
    ensures forall k :: 0 <= k < |gs| ==>
              gs[k].attributeLogicalNames == AttributesFor(rules, gs[k].triggerAttributeLogicalName)
  {
    var ts := FirstAppearances(Triggers(rules));
    var gs := seq(|ts|, k requires 0 <= k < |ts| => TriggerGroup(ts[k], AttributesFor(rules, ts[k])));
    assert GroupTriggers(gs) == ts;
    gs
  }

  /** A rule has a non-empty group exactly when its trigger is one of the groups'. */
  lemma {:induction false} AttributesForMembership(rules: seq<Rule>, trigger: string, a: string)
    ensures a in AttributesFor(rules, trigger) <==> Rule(a, trigger) in rules
  {
    if rules != [] {
      var init := rules[..|rules| - 1];
      AttributesForMembership(init, trigger, a);
      assert rules == init + [rules[|rules| - 1]];
    }
  }

  /** A trigger no rule has collects no attributes. */
  lemma {:induction false} AttributesForAbsentTrigger(rules: seq<Rule>, trigger: string)
    requires trigger !in Triggers(rules)
    ensures AttributesFor(rules, trigger) == []
  {
    if rules != [] {
      var init := rules[..|rules| - 1];
      assert Triggers(init) == Triggers(rules)[..|rules| - 1];
      assert Triggers(rules)[|rules| - 1] == rules[|rules| - 1].triggerAttributeLogicalName;
      AttributesForAbsentTrigger(init, trigger);
    }
  }

  /** Every rule is listed under its own trigger, and each derived group lists only
      attributes of rules with that trigger. */
  lemma DerivedGroupsCoverRules(rules: seq<Rule>)
    ensures forall r :: r in rules ==> exists k :: (0 <= k < |DerivedGroups(rules)|
              && DerivedGroups(rules)[k].triggerAttributeLogicalName == r.triggerAttributeLogicalName
              && r.attributeLogicalName in DerivedGroups(rules)[k].attributeLogicalNames)
    ensures forall k, a :: 0 <= k < |DerivedGroups(rules)| && a in DerivedGroups(rules)[k].attributeLogicalNames ==>
              Rule(a, DerivedGroups(rules)[k].triggerAttributeLogicalName) in rules
  {
    var gs := DerivedGroups(rules);
    var ts := GroupTriggers(gs);
    forall r | r in rules
      ensures exists k :: 0 <= k < |gs| && gs[k].triggerAttributeLogicalName == r.triggerAttributeLogicalName
                          && r.attributeLogicalName in gs[k].attributeLogicalNames
    {
      var i :| 0 <= i < |rules| && rules[i] == r;
      assert r.triggerAttributeLogicalName in Triggers(rules);
      assert r.triggerAttributeLogicalName in ts;
      var k :| 0 <= k < |ts| && ts[k] == r.triggerAttributeLogicalName;
      AttributesForMembership(rules, r.triggerAttributeLogicalName, r.attributeLogicalName);
    }
    forall k, a | 0 <= k < |gs| && a in gs[k].attributeLogicalNames
      ensures Rule(a, gs[k].triggerAttributeLogicalName) in rules
    {
      AttributesForMembership(rules, gs[k].triggerAttributeLogicalName, a);
    }
  }

  /** Derived groups never fail the distinct-trigger check. */
  lemma DerivedGroupsAreDistinct(rules: seq<Rule>)
    ensures GroupsDuplicate(DerivedGroups(rules)).None?
  {
  }

  /** One step of the grouping loop: a rule's trigger is appended to the trigger list,
      and a trigger not seen before opens a new group at the end. */
  lemma TriggersStep(rules: seq<Rule>, i: nat)
    requires i < |rules|
    ensures Triggers(rules[..i + 1]) == Triggers(rules[..i]) + [rules[i].triggerAttributeLogicalName]
    ensures FirstAppearances(Triggers(rules[..i + 1])) ==
              if rules[i].triggerAttributeLogicalName in Triggers(rules[..i]) then FirstAppearances(Triggers(rules[..i]))
              else FirstAppearances(Triggers(rules[..i])) + [rules[i].triggerAttributeLogicalName]
  {
    var xs := Triggers(rules[..i + 1]);
    assert xs[..|xs| - 1] == Triggers(rules[..i]);
  }

  /** One step of the grouping loop: the rule's attribute is appended to its trigger's
      list and to no other. */
  lemma AttributesForStep(rules: seq<Rule>, i: nat, t: string)
    requires i < |rules|
    ensures AttributesFor(rules[..i + 1], t) ==
              AttributesFor(rules[..i], t) + (if rules[i].triggerAttributeLogicalName == t then [rules[i].attributeLogicalName] else [])
  {
    assert rules[..i + 1][..i] == rules[..i];
  }

  /** The grouping loop of the constructor, filling an insertion-ordered map from
      trigger to attribute list (a JavaScript Map keeps its keys in insertion order):
      `order` is the map's key order and `lists` its contents. */
  method GroupByTrigger(rules: seq<Rule>) returns (order: seq<string>, lists: map<string, seq<string>>)
    ensures order == FirstAppearances(Triggers(rules))
    ensures forall t :: t in lists <==> t in order
    ensures forall t :: t in lists ==> lists[t] == AttributesFor(rules, t)
  {
    order, lists := [], map[];
    for i := 0 to |rules|
      invariant order == FirstAppearances(Triggers(rules[..i]))
      invariant forall t :: t in lists <==> t in order
      invariant forall t :: t in lists ==> lists[t] == AttributesFor(rules[..i], t)
    {
      var r := rules[i];
      var t := r.triggerAttributeLogicalName;
      TriggersStep(rules, i);
      var list := if t in lists then lists[t] else [];
      if t !in lists {
        order := order + [t];
        AttributesForAbsentTrigger(rules[..i], t);
      }
      lists := lists[t := list + [r.attributeLogicalName]];
      forall u | u in lists
        ensures lists[u] == AttributesFor(rules[..i + 1], u)
      {
        AttributesForStep(rules, i, u);
      }
    }
    assert rules[..|rules|] == rules;
  }

  /** The groups built from the map's entries, in key order. */
  method DeriveTriggerGroups(rules: seq<Rule>) returns (groups: seq<TriggerGroup>)
    ensures groups == DerivedGroups(rules)
  {
    var order, lists := GroupByTrigger(rules);
    groups := seq(|order|, k requires 0 <= k < |order| => TriggerGroup(order[k], lists[order[k]]));
    assert GroupTriggers(groups) == order;
  }

  // ---------------------------------------------------------------------------
  // The constructor

  /** The trigger groups: the explicit ones when the input has them, parsed in order,
      otherwise the groups derived from the rules. */
  function GroupsOf(data: Js, rules: seq<Rule>): (r: Result<seq<TriggerGroup>, ConfigError>)
    requires WellShaped(data)
    ensures "triggerGroups" !in data.fields ==> r == Ok(DerivedGroups(rules))
    ensures r.Ok? ==> forall g :: g in r.value ==> Distinct(g.attributeLogicalNames) || "triggerGroups" !in data.fields
  {
    if "triggerGroups" in data.fields then
      var r := MapOrFail(data.fields["triggerGroups"].items, TriggerGroupOf);
      assert r.Ok? ==> forall g :: g in r.value ==> Distinct(g.attributeLogicalNames) by {
        if r.Ok? {
          forall g | g in r.value ensures Distinct(g.attributeLogicalNames) {
            var k :| 0 <= k < |r.value| && r.value[k] == g;
            assert TriggerGroupOf(data.fields["triggerGroups"].items[k]) == Ok(g);
          }
        }
      }
      r
    else Ok(DerivedGroups(rules))
  }

  /** What the constructor builds, or the first error it throws: the input shape, every
      rule, distinct rule keys, the explicit groups (or the derived ones), and distinct
      group triggers, in that order. */
  function Configure(json: Js, parse: string -> Option<Js>): (r: Result<Configuration, ConfigError>)
    ensures ParseJson(json, parse).Err? ==> r == Err(ParseJson(json, parse).error)
    ensures r.Ok? ==> Distinct(RuleKeys(r.value.rules)) && Distinct(GroupTriggers(r.value.triggerGroups))
  {
    var data :- ParseJson(json, parse);
    var rules :- MapOrFail(data.fields["rules"].items, ParseRule);
    if RulesDuplicate(rules).Some? then Err(RulesDuplicate(rules).value)
    else
      var groups :- GroupsOf(data, rules);
      if GroupsDuplicate(groups).Some? then Err(GroupsDuplicate(groups).value)
      else Ok(Configuration(rules, groups))
  }

  /** No input, or null, gives no rules and no trigger groups. */
  lemma NoInputIsEmpty(parse: string -> Option<Js>)
    ensures Configure(JsUndefined, parse) == Ok(Configuration([], []))
    ensures Configure(JsNull, parse) == Ok(Configuration([], []))
  {
    assert MapOrFail([], ParseRule) == Ok([]);
    assert MapOrFail([], TriggerGroupOf) == Ok([]);
    assert RulesDuplicate([]).None?;
    assert GroupsDuplicate([]).None?;
  }

  /** A configuration is accepted exactly when it is well shaped, every rule parses, the
      rule keys are distinct, and the groups (explicit ones parsed) have distinct triggers;
      every group then has distinct names. */
  lemma ConfigureAccepts(json: Js, parse: string -> Option<Js>)
    ensures Configure(json, parse).Ok? <==>
              ParseJson(json, parse).Ok?
              && var data := ParseJson(json, parse).value;
                 var rules := MapOrFail(data.fields["rules"].items, ParseRule);
                 rules.Ok? && Distinct(RuleKeys(rules.value))
                 && var groups := GroupsOf(data, rules.value);
                    groups.Ok? && Distinct(GroupTriggers(groups.value))
    ensures Configure(json, parse).Ok? ==>
              forall g :: g in Configure(json, parse).value.triggerGroups ==> Distinct(g.attributeLogicalNames)
  {
    var r := Configure(json, parse);
    if r.Ok? {
      var data := ParseJson(json, parse).value;
      var rules := MapOrFail(data.fields["rules"].items, ParseRule).value;
      forall g | g in r.value.triggerGroups ensures Distinct(g.attributeLogicalNames) {
        if "triggerGroups" !in data.fields {
          assert g.attributeLogicalNames == AttributesFor(rules, g.triggerAttributeLogicalName);
          AttributesForDistinct(rules, g.triggerAttributeLogicalName);
        }
      }
    }
  }

  /** A trigger's derived attribute list repeats no name, because rule keys are distinct. */
  lemma {:induction false} AttributesForDistinct(rules: seq<Rule>, trigger: string)
    requires Distinct(RuleKeys(rules))
    ensures Distinct(AttributesFor(rules, trigger))
  {
    if rules != [] {
      var init := rules[..|rules| - 1];
      var r := rules[|rules| - 1];
      assert Distinct(RuleKeys(init)) by {
        forall i, j | 0 <= i < j < |init| ensures RuleKeys(init)[i] != RuleKeys(init)[j] {
          assert RuleKeys(rules)[i] != RuleKeys(rules)[j];
        }
      }
      AttributesForDistinct(init, trigger);
      if r.triggerAttributeLogicalName == trigger {
        var prev := AttributesFor(init, trigger);
        AttributesForMembership(init, trigger, r.attributeLogicalName);
        assert Rule(r.attributeLogicalName, trigger) !in init by {
          assert forall i :: 0 <= i < |init| ==> RuleKeys(rules)[i] != RuleKeys(rules)[|rules| - 1];
          assert r == Rule(r.attributeLogicalName, trigger);
        }
        var e := prev + [r.attributeLogicalName];
        assert Distinct(e) by {
          forall i, j | 0 <= i < j < |e| ensures e[i] != e[j] {
            if j < |prev| { assert e[i] == prev[i] && e[j] == prev[j]; }
            else { assert e[i] == prev[i] && e[i] in prev; }
          }
        }
      }
    }
  }

  /** Explicit groups are taken as they are: any valid groups go with any valid rules,
      even groups whose triggers and attributes no rule mentions. */
  lemma ExplicitGroupsAreNotCrossChecked(ruleItems: seq<Js>, groupItems: seq<Js>, parse: string -> Option<Js>)
    requires MapOrFail(ruleItems, ParseRule).Ok? && RulesDuplicate(MapOrFail(ruleItems, ParseRule).value).None?
    requires MapOrFail(groupItems, TriggerGroupOf).Ok?
             && GroupsDuplicate(MapOrFail(groupItems, TriggerGroupOf).value).None?
    ensures Configure(JsObject(map["rules" := JsArray(ruleItems), "triggerGroups" := JsArray(groupItems)]), parse)
            == Ok(Configuration(MapOrFail(ruleItems, ParseRule).value, MapOrFail(groupItems, TriggerGroupOf).value))
  {
    var fields := map["rules" := JsArray(ruleItems), "triggerGroups" := JsArray(groupItems)];
    assert "rules"[0] != "triggerGroups"[0];
    assert fields["rules"] == JsArray(ruleItems);
    WellShapedObjectIsKept(fields, parse);
  }

  /** An object whose rules, and trigger groups if present, are arrays passes parseJson
      unchanged. */
  lemma WellShapedObjectIsKept(fields: map<string, Js>, parse: string -> Option<Js>)
    requires "rules" in fields && fields["rules"].JsArray?
    requires "triggerGroups" in fields ==> fields["triggerGroups"].JsArray?
    ensures ParseJson(JsObject(fields), parse) == Ok(JsObject(fields))
  {
    assert Has(JsObject(fields), "rules") == Ok(true);
  }

  function ExampleRuleItems(): seq<Js> {
    [RuleObject(JsString("a"), JsString("t"))]
  }

  function ExampleGroupItems(): seq<Js> {
    [GroupObject(JsString("t"), JsArray([JsString("x"), JsString("y")]))]
  }

  lemma ExampleRulesParse()
    ensures MapOrFail(ExampleRuleItems(), ParseRule) == Ok([Rule("a", "t")])
  {
    assert !JsWhiteSpace("a"[0]) && !JsWhiteSpace("t"[0]);
    RuleNamesAreKeptAsWritten("a", "t");
    MapOrFailAllOk(ExampleRuleItems(), ParseRule, [Rule("a", "t")]);
  }

  lemma ExampleGroupsParse()
    ensures MapOrFail(ExampleGroupItems(), TriggerGroupOf) == Ok([TriggerGroup("t", ["x", "y"])])
  {
    assert !JsWhiteSpace("t"[0]) && !JsWhiteSpace("x"[0]) && !JsWhiteSpace("y"[0]);
    assert Distinct(["x", "y"]);
    DistinctNamesMakeAGroup("t", ["x", "y"]);
    assert seq(2, i requires 0 <= i < 2 => JsString(["x", "y"][i])) == [JsString("x"), JsString("y")];
    MapOrFailAllOk(ExampleGroupItems(), TriggerGroupOf, [TriggerGroup("t", ["x", "y"])]);
  }

  /** The configuration of rule (a, t) with an explicit group for t listing x and y keeps
      that group as given. */
  lemma ExplicitGroupExample(parse: string -> Option<Js>)
    ensures Configure(JsObject(map["rules" := JsArray(ExampleRuleItems()), "triggerGroups" := JsArray(ExampleGroupItems())]),
                      parse)
            == Ok(Configuration([Rule("a", "t")], [TriggerGroup("t", ["x", "y"])]))
  {
    ExampleRulesParse();
    ExampleGroupsParse();
    ExplicitGroupsAreNotCrossChecked(ExampleRuleItems(), ExampleGroupItems(), parse);
  }

  // ---------------------------------------------------------------------------
  // The class

  /** `triggerGroups.map(parseTriggerGroup)`: the groups in order, or the first error. */
  method ParseTriggerGroups(items: seq<Js>) returns (r: Result<seq<TriggerGroup>, ConfigError>)
    ensures r == MapOrFail(items, TriggerGroupOf)
  {
    var groups := [];
    for i := 0 to |items|
      invariant |groups| == i && forall k :: 0 <= k < i ==> TriggerGroupOf(items[k]) == Ok(groups[k])
    {
      var g := ParseTriggerGroup(items[i]);
      if g.Err? {
        MapOrFailFirstError(items, TriggerGroupOf, i);
        return Err(g.error);
      }
      groups := groups + [g.value];
    }
    MapOrFailAllOk(items, TriggerGroupOf, groups);
    return Ok(groups);
  }

  /** The constructor's choice between the explicit groups and the derived ones. */
  method BuildGroups(data: Js, rules: seq<Rule>) returns (r: Result<seq<TriggerGroup>, ConfigError>)
    requires WellShaped(data)
    ensures r == GroupsOf(data, rules)
  {
    if "triggerGroups" in data.fields {
      r := ParseTriggerGroups(data.fields["triggerGroups"].items);
    } else {
      var groups := DeriveTriggerGroups(rules);
      r := Ok(groups);
    }
  }

  /** The constructor's steps in order: parse the input, parse and check the rules, take
      the explicit groups or derive them, and check the groups; the first failure is the
      error the constructor throws. */
  method Validate(json: Js, parse: string -> Option<Js>) returns (r: Result<Configuration, ConfigError>)
    ensures r == Configure(json, parse)
  {
    var data := ParseJson(json, parse);
    if data.Err? {
      return Err(data.error);
    }
    var rules := MapOrFail(data.value.fields["rules"].items, ParseRule);
    if rules.Err? {
      return Err(rules.error);
    }
    var duplicate := EnsureDistinctRules(rules.value);
    if duplicate.Some? {
      return Err(duplicate.value);
    }
    var groups := BuildGroups(data.value, rules.value);
    if groups.Err? {
      return Err(groups.error);
    }
    duplicate := EnsureDistinctTriggerGroups(groups.value);
    if duplicate.Some? {
      return Err(duplicate.value);
    }
    return Ok(Configuration(rules.value, groups.value));
  }

  /** FormPolicyConfiguration: the validated rules and trigger groups. */
  class FormPolicyConfiguration {
    var rules: seq<Rule>
    var triggerGroups: seq<TriggerGroup>

    constructor Of(rules: seq<Rule>, triggerGroups: seq<TriggerGroup>)
      ensures this.rules == rules && this.triggerGroups == triggerGroups
    {
      this.rules := rules;
      this.triggerGroups := triggerGroups;
    }

    /** The constructor: the object holds the validated configuration, or the error of
        the first failing step is what the constructor throws. */
    static method New(json: Js, parse: string -> Option<Js>) returns (r: Result<FormPolicyConfiguration, ConfigError>)
      ensures r.Ok? ==> fresh(r.value)
      ensures r.Ok? ==> Configure(json, parse) == Ok(Configuration(r.value.rules, r.value.triggerGroups))
      ensures r.Err? ==> Configure(json, parse) == Err(r.error)
    {
      var c := Validate(json, parse);
      if c.Err? {
        return Err(c.error);
      }
      var configuration := new FormPolicyConfiguration.Of(c.value.rules, c.value.triggerGroups);
      return Ok(configuration);
    }
  }
}
