/** One scope pass: the rules of a scope, visited in ascending sequence, decide the
    details record of that scope.  Visible and Required are decided by the first
    matching rule of their type; a NotAllowed rule whose effect is true ends the pass,
    one whose effect is false only clears the flag. */
module ScopeEvaluation {
  import opened Values
  import opened Policy
  import opened PolicyModel
  import opened PolicyData
  import Condition
  import Sequences

  /** What a pass leaves: the flags, and the exception it raised, if any. */
  datatype Outcome<F> = Outcome(flags: F, error: Option<Exception>)

  /** Do all of the rule's stored conditions hold of the record? */
  function RuleMatches(pc: PolicyCollection, rule: PolicyRule, target: Entity, preImage: Option<Entity>)
    : Result<bool, Exception>
  {
    var conditions :- GetConditions(pc, rule.id);
    Condition.AllConditionsMatch(Some(rule), Some(conditions), Some(target), preImage)
  }

  /** What a rule matcher tells the pass about one rule. */
  type Matcher = PolicyRule -> Result<bool, Exception>

  /** A client pass in progress: the flags and the locks on Visible and Required. */
  datatype ClientState = ClientState(flags: ClientFlags, visibleSet: bool, requiredSet: bool)

  /** A server pass in progress: the flags and the lock on Required. */
  datatype ServerState = ServerState(flags: ServerFlags, requiredSet: bool)

  /** The effect of one matching rule on a client pass: the next state, and whether
      the pass ends here. */
  function ClientApply(rule: PolicyRule, s: ClientState): (ClientState, bool) {
    var f := s.flags;
    match rule.policyType
    case Some(Visible) =>
      if s.visibleSet then (s, false)
      else (ClientState(f.(visible := rule.result.GetOr(f.visible)), true, s.requiredSet), false)
    case Some(Required) =>
      if s.requiredSet then (s, false)
      else (ClientState(f.(required := rule.result.GetOr(f.required)), s.visibleSet, true), false)
    case Some(NotAllowed) =>
      if rule.result.GetOr(f.notAllowed) then (s.(flags := f.(notAllowed := true)), true)
      else (s.(flags := f.(notAllowed := false)), false)
    case None => (s, false)
  }

  /** The effect of one matching rule on a server pass; Visible rules have none. */
  function ServerApply(rule: PolicyRule, s: ServerState): (ServerState, bool) {
    var f := s.flags;
    match rule.policyType
    case Some(Required) =>
      if s.requiredSet then (s, false)
      else (ServerState(f.(required := rule.result.GetOr(f.required)), true), false)
    case Some(NotAllowed) =>
      if rule.result.GetOr(f.notAllowed) then (s.(flags := f.(notAllowed := true)), true)
      else (s.(flags := f.(notAllowed := false)), false)
    case _ => (s, false)
  }

  /** The client pass over rules already in visiting order. */
  function ClientPass(rules: seq<PolicyRule>, matches: Matcher, s: ClientState): Outcome<ClientFlags>
    decreases |rules|
  {
    if rules == [] then Outcome(s.flags, None)
    else match matches(rules[0])
      case Err(e) => Outcome(s.flags, Some(e))
      case Ok(false) => ClientPass(rules[1..], matches, s)
      case Ok(true) =>
        var next := ClientApply(rules[0], s);
        if next.1 then Outcome(next.0.flags, None) else ClientPass(rules[1..], matches, next.0)
  }

  /** The server pass over rules already in visiting order. */
  function ServerPass(rules: seq<PolicyRule>, matches: Matcher, s: ServerState): Outcome<ServerFlags>
    decreases |rules|
  {
    if rules == [] then Outcome(s.flags, None)
    else match matches(rules[0])
      case Err(e) => Outcome(s.flags, Some(e))
      case Ok(false) => ServerPass(rules[1..], matches, s)
      case Ok(true) =>
        var next := ServerApply(rules[0], s);
        if next.1 then Outcome(next.0.flags, None) else ServerPass(rules[1..], matches, next.0)
  }


  /** matches tells the pass, for every rule, what the rule's stored conditions say. */
  ghost predicate Agrees(matches: Matcher, pc: PolicyCollection, target: Entity, preImage: Option<Entity>) {
    forall q {:trigger RuleMatches(pc, q, target, preImage)} :: matches(q) == RuleMatches(pc, q, target, preImage)
  }

  /** The matcher the passes use: for every rule, what the rule's stored conditions say
      of the record. */
  ghost function StoredConditions(pc: PolicyCollection, target: Entity, preImage: Option<Entity>): (m: Matcher)
    ensures Agrees(m, pc, target, preImage)
  {
    var stored := (q: PolicyRule) => RuleMatches(pc, q, target, preImage);
    assert Agrees(stored, pc, target, preImage);
    var m :| Agrees(m, pc, target, preImage);
    m
  }

  /** The inputs with which a pass returns its starting record untouched. */
  predicate Skipped(service: Option<OrganizationService>, rules: Option<seq<PolicyRule>>, target: Option<Entity>) {
    service.None? || rules.None? || |rules.value| == 0 || target.None?
  }

  ghost function EvaluateClient(pc: PolicyCollection, service: Option<OrganizationService>, rules: Option<seq<PolicyRule>>,
                          target: Option<Entity>, preImage: Option<Entity>, start: ClientFlags): (o: Outcome<ClientFlags>)
    ensures Skipped(service, rules, target) ==> o == Outcome(start, None)
  {
    if Skipped(service, rules, target) then Outcome(start, None)
    else ClientPass(Sequences.SortByKey(rules.value, RuleSequence), StoredConditions(pc, target.value, preImage),
                    ClientState(start, false, false))
  }

  ghost function EvaluateServer(pc: PolicyCollection, service: Option<OrganizationService>, rules: Option<seq<PolicyRule>>,
                          target: Option<Entity>, preImage: Option<Entity>, start: ServerFlags): (o: Outcome<ServerFlags>)
    ensures Skipped(service, rules, target) ==> o == Outcome(start, None)
  {
    if Skipped(service, rules, target) then Outcome(start, None)
    else ServerPass(Sequences.SortByKey(rules.value, RuleSequence), StoredConditions(pc, target.value, preImage),
                    ServerState(start, false))
  }

  class PolicyScopeEvaluation {
    const policyCollection: PolicyCollection

    constructor (policyCollection: PolicyCollection)
      ensures this.policyCollection == policyCollection
    {
      this.policyCollection := policyCollection;
    }

    /** The checked construction: a null collection is refused. */
    static method New(policyCollection: Option<PolicyCollection>) returns (r: Result<PolicyScopeEvaluation, Exception>)
      ensures policyCollection.None? ==> r == Err(ArgumentNull("policyCollection"))
      ensures policyCollection.Some? ==> r.Ok? && fresh(r.value) && r.value.policyCollection == policyCollection.value
    {
      if policyCollection.None? {
        return Err(ArgumentNull("policyCollection"));
      }
      var evaluation := new PolicyScopeEvaluation(policyCollection.value);
      return Ok(evaluation);
    }

    /** Fetches the rule's conditions and checks them against the record. */
    method MatchRule(rule: PolicyRule, target: Entity, preImage: Option<Entity>, ghost matches: Matcher)
      returns (matched: Result<bool, Exception>)
      requires Agrees(matches, policyCollection, target, preImage)
      ensures matched == matches(rule)
    {
      var conditions := GetConditions(policyCollection, rule.id);
      if conditions.Err? {
        matched := Err(conditions.error);
      } else {
        matched := Condition.AllConditionsMatch(Some(rule), Some(conditions.value), Some(target), preImage);
      }
      assert matched == RuleMatches(policyCollection, rule, target, preImage);
    }

    /** The switch on a matching rule's type in the client pass: updates details and
        the locks; stop says that the pass ends here. */
    static method ApplyClientRule(details: ClientPolicyDetails, rule: PolicyRule, visibleSet: bool, requiredSet: bool)
      returns (visibleLocked: bool, requiredLocked: bool, stop: bool)
      modifies details
      ensures ClientApply(rule, ClientState(old(details.Flags()), visibleSet, requiredSet))
              == (ClientState(details.Flags(), visibleLocked, requiredLocked), stop)
    {
      visibleLocked, requiredLocked, stop := visibleSet, requiredSet, false;
      match rule.policyType {
        case Some(Visible) =>
          if !visibleSet {
            details.visible := rule.result.GetOr(details.visible);
            visibleLocked := true;
          }
        case Some(Required) =>
          if !requiredSet {
            details.required := rule.result.GetOr(details.required);
            requiredLocked := true;
          }
        case Some(NotAllowed) =>
          var notAllowedResult := rule.result.GetOr(details.notAllowed);
          if notAllowedResult {
            details.notAllowed := true;
            stop := true;
          } else {
            details.notAllowed := false;
          }
        case None =>
      }
    }

    /** The switch on a matching rule's type in the server pass; Visible is passed over. */
    static method ApplyServerRule(details: ServerPolicyDetails, rule: PolicyRule, requiredSet: bool)
      returns (requiredLocked: bool, stop: bool)
      modifies details
      ensures ServerApply(rule, ServerState(old(details.Flags()), requiredSet))
              == (ServerState(details.Flags(), requiredLocked), stop)
    {
      requiredLocked, stop := requiredSet, false;
      match rule.policyType {
        case Some(Visible) =>
        case Some(Required) =>
          if !requiredSet {
            details.required := rule.result.GetOr(details.required);
            requiredLocked := true;
          }
        case Some(NotAllowed) =>
          var notAllowedResult := rule.result.GetOr(details.notAllowed);
          if notAllowedResult {
            details.notAllowed := true;
            stop := true;
          } else {
            details.notAllowed := false;
          }
        case None =>
      }
    }

    /** Updates initial (or a new default record when it is null) in place and returns
        it; error is the exception the call raises, if any, and details is then what the
        record has become. */
    method EvaluateClientScope(service: Option<OrganizationService>, rules: Option<seq<PolicyRule>>,
                               target: Option<Entity>, preImage: Option<Entity>, initial: ClientPolicyDetails?)
      returns (details: ClientPolicyDetails, error: Option<Exception>)
      modifies initial
      ensures initial != null ==> details == initial
      ensures initial == null ==> fresh(details)
      ensures var start := if initial != null then old(initial.Flags()) else DefaultClient;
              Outcome(details.Flags(), error) == EvaluateClient(policyCollection, service, rules, target, preImage, start)
    {
      if initial == null {
        details := new ClientPolicyDetails();
      } else {
        details := initial;
      }
      error := None;
      if Skipped(service, rules, target) {
        return;
      }
      var sorted := Sequences.SortByKey(rules.value, RuleSequence);
      ghost var matches := StoredConditions(policyCollection, target.value, preImage);
      error := ClientRuleLoop(details, sorted, target.value, preImage, matches);
    }

    /** The loop of EvaluateClientScope over the sorted rules. */
    method ClientRuleLoop(details: ClientPolicyDetails, sorted: seq<PolicyRule>, target: Entity,
                          preImage: Option<Entity>, ghost matches: Matcher)
      returns (error: Option<Exception>)
      requires Agrees(matches, policyCollection, target, preImage)
      modifies details
      ensures Outcome(details.Flags(), error) == ClientPass(sorted, matches, ClientState(old(details.Flags()), false, false))
    {
      error := None;
      ghost var goal := ClientPass(sorted, matches, ClientState(details.Flags(), false, false));
      var visibleSet, requiredSet, notAllowedSet := false, false, false;
      var i := 0;
      while i < |sorted|
        invariant 0 <= i <= |sorted|
        invariant !notAllowedSet && error.None?
        invariant ClientPass(sorted[i..], matches, ClientState(details.Flags(), visibleSet, requiredSet)) == goal
      {
        if visibleSet && requiredSet && notAllowedSet {
          break;
        }
        var rule := sorted[i];
        assert sorted[i..][0] == rule && sorted[i..][1..] == sorted[i + 1..];
        var matched := MatchRule(rule, target, preImage, matches);
        if matched.Err? {
          error := Some(matched.error);
          return;
        }
        if !matched.value {
          i := i + 1;
          continue;
        }
        var stop;
        visibleSet, requiredSet, stop := ApplyClientRule(details, rule, visibleSet, requiredSet);
        if stop {
          notAllowedSet := true;
          return;
        }
        i := i + 1;
      }
    }

    /** The server counterpart of EvaluateClientScope. */
    method EvaluateServerScope(service: Option<OrganizationService>, rules: Option<seq<PolicyRule>>,
                               target: Option<Entity>, preImage: Option<Entity>, initial: ServerPolicyDetails?)
      returns (details: ServerPolicyDetails, error: Option<Exception>)
      modifies initial
      ensures initial != null ==> details == initial
      ensures initial == null ==> fresh(details)
      ensures var start := if initial != null then old(initial.Flags()) else DefaultServer;
              Outcome(details.Flags(), error) == EvaluateServer(policyCollection, service, rules, target, preImage, start)
    {
      if initial == null {
        details := new ServerPolicyDetails();
      } else {
        details := initial;
      }
      error := None;
      if Skipped(service, rules, target) {
        return;
      }
      var sorted := Sequences.SortByKey(rules.value, RuleSequence);
      ghost var matches := StoredConditions(policyCollection, target.value, preImage);
      error := ServerRuleLoop(details, sorted, target.value, preImage, matches);
    }

    /** The loop of EvaluateServerScope over the sorted rules. */
    method ServerRuleLoop(details: ServerPolicyDetails, sorted: seq<PolicyRule>, target: Entity,
                          preImage: Option<Entity>, ghost matches: Matcher)
      returns (error: Option<Exception>)
      requires Agrees(matches, policyCollection, target, preImage)
      modifies details
      ensures Outcome(details.Flags(), error) == ServerPass(sorted, matches, ServerState(old(details.Flags()), false))
    {
      error := None;
      ghost var goal := ServerPass(sorted, matches, ServerState(details.Flags(), false));
      var requiredSet, notAllowedSet := false, false;
      var i := 0;
      while i < |sorted|
        invariant 0 <= i <= |sorted|
        invariant !notAllowedSet && error.None?
        invariant ServerPass(sorted[i..], matches, ServerState(details.Flags(), requiredSet)) == goal
      {
        if requiredSet && notAllowedSet {
          break;
        }
        var rule := sorted[i];
        assert sorted[i..][0] == rule && sorted[i..][1..] == sorted[i + 1..];
        var matched := MatchRule(rule, target, preImage, matches);
        if matched.Err? {
          error := Some(matched.error);
          return;
        }
        if !matched.value {
          i := i + 1;
          continue;
        }
        var stop;
        requiredSet, stop := ApplyServerRule(details, rule, requiredSet);
        if stop {
          notAllowedSet := true;
          return;
        }
        i := i + 1;
      }
    }
  }

  // ---------------------------------------------------------------------------
  // Properties of the passes, for any matcher

  /** The two flags the first matching rule of their type decides. */
  datatype Decided = VisibleFlag | RequiredFlag

  function Field(f: ClientFlags, d: Decided): bool {
    match d
    case VisibleFlag => f.visible
    case RequiredFlag => f.required
  }

  function TypeOf(d: Decided): PolicyType {
    match d
    case VisibleFlag => Visible
    case RequiredFlag => Required
  }

  predicate Locked(d: Decided, s: ClientState) {
    match d
    case VisibleFlag => s.visibleSet
    case RequiredFlag => s.requiredSet
  }

  /** A rule of d's type whose conditions all hold. */
  predicate Fires(matches: Matcher, q: PolicyRule, d: Decided) {
    matches(q) == Ok(true) && q.policyType == Some(TypeOf(d))
  }

  /** A matching NotAllowed rule whose stored result is true. */
  predicate Blocks(matches: Matcher, q: PolicyRule) {
    matches(q) == Ok(true) && q.policyType == Some(NotAllowed) && q.result == Some(true)
  }

  /** A rule the pass gets past from an allowed state: it raises nothing and does not block. */
  predicate Continues(matches: Matcher, q: PolicyRule) {
    matches(q).Ok? && !Blocks(matches, q)
  }

  /** What one matching rule does to a client pass. */
  lemma ClientApplyFacts(rule: PolicyRule, s: ClientState, d: Decided)
    ensures var next := ClientApply(rule, s);
            && (next.1 <==> rule.policyType == Some(NotAllowed) && rule.result.GetOr(s.flags.notAllowed))
            && next.0.flags.notAllowed
               == (if rule.policyType == Some(NotAllowed) then rule.result.GetOr(s.flags.notAllowed)
                   else s.flags.notAllowed)
            && (Locked(d, s) || rule.policyType != Some(TypeOf(d)) ==>
                  Locked(d, next.0) == Locked(d, s) && Field(next.0.flags, d) == Field(s.flags, d))
            && (!Locked(d, s) && rule.policyType == Some(TypeOf(d)) ==>
                  Locked(d, next.0) && Field(next.0.flags, d) == rule.result.GetOr(Field(s.flags, d)))
  {
  }

  /** A rule whose conditions do not all hold changes nothing. */
  lemma NonMatchingRuleChangesNothing(rule: PolicyRule, rest: seq<PolicyRule>, matches: Matcher, s: ClientState)
    requires matches(rule) == Ok(false)
    ensures ClientPass([rule] + rest, matches, s) == ClientPass(rest, matches, s)
  {
    assert ([rule] + rest)[1..] == rest;
  }

  /** A NotAllowed rule whose effect (its result, or the current flag when the result is
      null) is true ends the pass: nothing after it is looked at. */
  lemma BlockingRuleEndsPass(rule: PolicyRule, after: seq<PolicyRule>, matches: Matcher, s: ClientState)
    requires matches(rule) == Ok(true) && rule.policyType == Some(NotAllowed)
    requires rule.result.GetOr(s.flags.notAllowed)
    ensures ClientPass([rule] + after, matches, s) == Outcome(s.flags.(notAllowed := true), None)
  {
  }

  /** Once decided, Visible or Required keeps its value to the end of the pass. */
  lemma {:induction false} LockedFieldKept(rules: seq<PolicyRule>, matches: Matcher, s: ClientState, d: Decided)
    requires Locked(d, s)
    ensures Field(ClientPass(rules, matches, s).flags, d) == Field(s.flags, d)
    decreases |rules|
  {
    if rules != [] && matches(rules[0]) != Ok(true) {
      if matches(rules[0]).Ok? {
        LockedFieldKept(rules[1..], matches, s, d);
      }
    } else if rules != [] {
      var next := ClientApply(rules[0], s);
      ClientApplyFacts(rules[0], s, d);
      assert Locked(d, next.0) && Field(next.0.flags, d) == Field(s.flags, d);
      if !next.1 {
        LockedFieldKept(rules[1..], matches, next.0, d);
      }
    }
  }

  /** A flag that no rule of its type fires for keeps its starting value. */
  lemma {:induction false} UnfiredFieldKept(rules: seq<PolicyRule>, matches: Matcher, s: ClientState, d: Decided)
    requires forall q :: q in rules ==> !Fires(matches, q, d)
    ensures Field(ClientPass(rules, matches, s).flags, d) == Field(s.flags, d)
    decreases |rules|
  {
    if rules != [] {
      assert rules[0] in rules;
      assert forall q :: q in rules[1..] ==> q in rules;
      if matches(rules[0]) == Ok(false) {
        UnfiredFieldKept(rules[1..], matches, s, d);
      } else if matches(rules[0]) == Ok(true) {
        var next := ClientApply(rules[0], s);
        ClientApplyFacts(rules[0], s, d);
        assert Field(next.0.flags, d) == Field(s.flags, d);
        if !next.1 {
          UnfiredFieldKept(rules[1..], matches, next.0, d);
        }
      }
    }
  }

  /** Visible and Required are decided by the first rule of their type that fires: its
      result, or the current value when that result is null; later rules of the type do
      not change it.  Earlier rules must let the pass through. */
  lemma {:induction false} FirstFiringRuleDecides(before: seq<PolicyRule>, rule: PolicyRule, after: seq<PolicyRule>,
                                                  matches: Matcher, s: ClientState, d: Decided)
    requires !Locked(d, s) && !s.flags.notAllowed
    requires forall q :: q in before ==> Continues(matches, q) && !Fires(matches, q, d)
    requires Fires(matches, rule, d)
    ensures Field(ClientPass(before + [rule] + after, matches, s).flags, d) == rule.result.GetOr(Field(s.flags, d))
    decreases |before|
  {
    var rules := before + [rule] + after;
    if before == [] {
      assert rules[0] == rule && rules[1..] == after;
      var next := ClientApply(rule, s);
      ClientApplyFacts(rule, s, d);
      assert !next.1 && Locked(d, next.0) && Field(next.0.flags, d) == rule.result.GetOr(Field(s.flags, d));
      LockedFieldKept(after, matches, next.0, d);
    } else {
      var q := before[0];
      var rest := before[1..];
      assert q in before;
      assert forall x :: x in rest ==> x in before;
      assert rules[0] == q && rules[1..] == rest + [rule] + after;
      if matches(q) == Ok(false) {
        FirstFiringRuleDecides(rest, rule, after, matches, s, d);
      } else {
        assert Continues(matches, q) && !Fires(matches, q, d);
        assert matches(q).value;
        assert matches(q) == Ok(true);
        var next := ClientApply(q, s);
        ClientApplyFacts(q, s, d);
        assert !next.1 && !Locked(d, next.0) && !next.0.flags.notAllowed;
        assert Field(next.0.flags, d) == Field(s.flags, d);
        FirstFiringRuleDecides(rest, rule, after, matches, next.0, d);
      }
    }
  }

  /** From an allowed start and without exceptions, the pass ends not allowed exactly
      when some matching NotAllowed rule has the result true; an earlier false result
      does not lock the flag. */
  lemma {:induction false} NotAllowedIffSomeRuleBlocks(rules: seq<PolicyRule>, matches: Matcher, s: ClientState)
    requires !s.flags.notAllowed
    requires forall q :: q in rules ==> matches(q).Ok?
    ensures ClientPass(rules, matches, s).error.None?
    ensures ClientPass(rules, matches, s).flags.notAllowed <==> exists q :: q in rules && Blocks(matches, q)
    decreases |rules|
  {
    if rules != [] {
      var rule := rules[0];
      var rest := rules[1..];
      assert rule in rules;
      assert forall q :: q in rules <==> q == rule || q in rest;
      if matches(rule) == Ok(false) {
        NotAllowedIffSomeRuleBlocks(rest, matches, s);
      } else {
        var next := ClientApply(rule, s);
        ClientApplyFacts(rule, s, VisibleFlag);
        if next.1 {
          assert matches(rule).Ok? && matches(rule).value;
          assert rule.policyType == Some(NotAllowed) && rule.result == Some(true);
          assert Blocks(matches, rule);
        } else {
          assert !next.0.flags.notAllowed;
          NotAllowedIffSomeRuleBlocks(rest, matches, next.0);
        }
      }
    }
  }

  function ServerView(s: ClientState): ServerState {
    ServerState(ServerPart(s.flags), s.requiredSet)
  }

  /** The server pass is the client pass with the visibility flag dropped. */
  lemma {:induction false} ServerPassIsClientPassWithoutVisible(rules: seq<PolicyRule>, matches: Matcher, s: ClientState)
    ensures var c := ClientPass(rules, matches, s);
            ServerPass(rules, matches, ServerView(s)) == Outcome(ServerPart(c.flags), c.error)
    decreases |rules|
  {
    if rules != [] && matches(rules[0]).Ok? {
      if matches(rules[0]) == Ok(false) {
        ServerPassIsClientPassWithoutVisible(rules[1..], matches, s);
      } else {
        var next := ClientApply(rules[0], s);
        var serverNext := ServerApply(rules[0], ServerView(s));
        assert serverNext == (ServerView(next.0), next.1);
        if !next.1 {
          ServerPassIsClientPassWithoutVisible(rules[1..], matches, next.0);
        }
      }
    }
  }

  predicate NotVisibleRule(q: PolicyRule) { q.policyType != Some(Visible) }

  /** When the Visible rules raise nothing, removing them does not change the server
      pass. */
  lemma {:induction false} ServerIgnoresVisibleRules(rules: seq<PolicyRule>, matches: Matcher, s: ServerState)
    requires forall q :: q in rules && !NotVisibleRule(q) ==> matches(q).Ok?
    ensures ServerPass(rules, matches, s) == ServerPass(Sequences.Filter(rules, NotVisibleRule), matches, s)
    decreases |rules|
  {
    if rules != [] {
      var rule := rules[0];
      var rest := rules[1..];
      assert rule in rules;
      forall q | q in rest && !NotVisibleRule(q) ensures matches(q).Ok? {
        assert q in rules;
      }
      var filteredRest := Sequences.Filter(rest, NotVisibleRule);
      if NotVisibleRule(rule) {
        KeptRuleStep(rule, rest, matches, s);
        if matches(rule) == Ok(true) && !ServerApply(rule, s).1 {
          ServerIgnoresVisibleRules(rest, matches, ServerApply(rule, s).0);
        } else if matches(rule) == Ok(false) {
          ServerIgnoresVisibleRules(rest, matches, s);
        }
      } else {
        assert Sequences.Filter(rules, NotVisibleRule) == filteredRest;
        assert matches(rule).Ok? && ServerApply(rule, s) == (s, false);
        ServerIgnoresVisibleRules(rest, matches, s);
      }
    }
  }

  lemma KeptRuleStep(rule: PolicyRule, rest: seq<PolicyRule>, matches: Matcher, s: ServerState)
    requires NotVisibleRule(rule)
    ensures var filtered := Sequences.Filter([rule] + rest, NotVisibleRule);
            var filteredRest := Sequences.Filter(rest, NotVisibleRule);
            ServerPass(filtered, matches, s)
            == match matches(rule)
               case Err(e) => Outcome(s.flags, Some(e))
               case Ok(false) => ServerPass(filteredRest, matches, s)
               case Ok(true) =>
                 var next := ServerApply(rule, s);
                 if next.1 then Outcome(next.0.flags, None) else ServerPass(filteredRest, matches, next.0)
  {
    var filtered := Sequences.Filter([rule] + rest, NotVisibleRule);
    assert ([rule] + rest)[1..] == rest;
    assert filtered[0] == rule && filtered[1..] == Sequences.Filter(rest, NotVisibleRule);
  }
}
