/**
 * What a decision of the policy evaluator (evaluator.go, structural.go) means, condition by
 * condition: which rules an action meets, which of them decides, and what a scope permits.
 */
module PolicyConditions {
  import opened Base
  import opened PolicyEvaluator

  // ---------------------------------------------------------------- scopes

  /** What a scope that begins with this verb does not permit. */
  predicate Exceeds(verb: string, action: string) {
    || (verb == "read" && action != "read")
    || (verb == "write" && action != "read" && action != "write" && action != "create")
  }

  /** `scope` is `verb`, a colon, and anything. */
  predicate VerbScope(scope: string, verb: string) {
    verb != "" && ':' !in verb && |verb| < |scope| && scope[..|verb|] == verb && scope[|verb|] == ':'
  }

  predicate KeywordScope(scope: string) { scope != "" && (':' !in scope || scope[0] == ':') }

  lemma {:induction false} ScopeVerbFrom(scope: string, i: nat)
    requires i <= |scope| && ':' !in scope[..i]
    ensures match ScopeVerb(scope, i)
            case Some(verb) => VerbScope(scope, verb)
            case None => scope == "" || KeywordScope(scope)
    decreases |scope| - i
  {
    if i < |scope| && scope[i] != ':' {
      assert scope[..i + 1] == scope[..i] + [scope[i]];
      ScopeVerbFrom(scope, i + 1);
    } else if i == |scope| {
      assert scope[..i] == scope;
    }
  }

  lemma VerbIsUnique(scope: string, v: string, w: string)
    requires VerbScope(scope, v) && VerbScope(scope, w)
    ensures v == w
  {
  }

  /** The scope an action is held to: its own, or else its agent's. */
  function HeldTo(ac: Context): string { if ac.scope != "" then ac.scope else ac.agentScope }

  /** An action under a verb scope drifts exactly when the verb, in lower case, does not permit its type. */
  lemma VerbScopeDecides(env: Env, ac: Context, verb: string, offCategory: bool)
    requires VerbScope(HeldTo(ac), verb)
    ensures DetectScopeDrift(env, ac, offCategory) <==> Exceeds(env.lower(verb), env.lower(ac.actionType))
  {
    var scope := HeldTo(ac);
    ScopeVerbFrom(scope, 0);
    assert scope[|verb|] in scope;
    if ScopeVerb(scope, 0).Some? { VerbIsUnique(scope, verb, ScopeVerb(scope, 0).value); }
  }

  /** Under any other scope it drifts as the tool's category says, and under none never. */
  lemma OtherScopes(env: Env, ac: Context, offCategory: bool)
    ensures KeywordScope(HeldTo(ac)) ==> (DetectScopeDrift(env, ac, offCategory) <==> offCategory)
    ensures HeldTo(ac) == "" ==> !DetectScopeDrift(env, ac, offCategory)
  {
    var scope := HeldTo(ac);
    ScopeVerbFrom(scope, 0);
    if ScopeVerb(scope, 0).Some? { assert scope[|ScopeVerb(scope, 0).value|] in scope; }
  }

  ghost predicate Drifts(env: Env, ac: Context, offCategory: bool) {
    || (exists verb :: VerbScope(HeldTo(ac), verb) && Exceeds(env.lower(verb), env.lower(ac.actionType)))
    || (KeywordScope(HeldTo(ac)) && offCategory)
  }

  lemma DriftIff(env: Env, ac: Context, offCategory: bool)
    ensures DetectScopeDrift(env, ac, offCategory) <==> Drifts(env, ac, offCategory)
  {
    var scope := HeldTo(ac);
    ScopeVerbFrom(scope, 0);
    OtherScopes(env, ac, offCategory);
    if ScopeVerb(scope, 0).Some? { VerbScopeDecides(env, ac, ScopeVerb(scope, 0).value, offCategory); }
    if verb :| VerbScope(scope, verb) && Exceeds(env.lower(verb), env.lower(ac.actionType)) {
      VerbScopeDecides(env, ac, verb, offCategory);
    }
  }

  // ---------------------------------------------------------------- conditions

  datatype Condition =
    | OfOrganisation | OfWorkspace | AgentName | ToolName | ToolServer | ActionType | Environment | RecordCount
    | Scope | Semantic

  /** An empty list asks for nothing; any other must hold the value, up to case. */
  predicate Listed(env: Env, value: string, list: seq<string>) {
    list == [] || exists i | 0 <= i < |list| :: env.lower(list[i]) == env.lower(value)
  }

  /** The action meets this condition of the rule; one that is not set is met. */
  ghost predicate Meets(env: Env, ac: Context, c: Candidate, which: Condition) {
    var k := c.rule.conditions;
    match which
    case OfOrganisation => c.rule.orgId == "" || c.rule.orgId == ac.orgId
    case OfWorkspace => c.rule.workspaceId == "" || c.rule.workspaceId == ac.workspaceId
    case AgentName => k.agentNamePattern == "" || env.glob(k.agentNamePattern, ac.agentName)
    case ToolName => Listed(env, ac.toolName, k.toolNames)
    case ToolServer => Listed(env, ac.toolServerId, k.toolServerIds)
    case ActionType => Listed(env, ac.actionType, k.actionTypes)
    case Environment => Listed(env, ac.environment, k.environments)
    case RecordCount => k.recordCountGt.Some? ==> ac.recordCount > k.recordCountGt.value
    case Scope => k.scopeDrift ==> Drifts(env, ac, c.offCategory)
    case Semantic => k.semanticRule == ""  // no semantic rule is ever found to match
  }

  ghost predicate MeetsAll(env: Env, ac: Context, c: Candidate) { forall which :: Meets(env, ac, c, which) }

  lemma MatchesIff(env: Env, ac: Context, c: Candidate)
    ensures Matches(env, ac, c) <==> MeetsAll(env, ac, c)
  {
    DriftIff(env, ac, c.offCategory);
    if MeetsAll(env, ac, c) {
      assert Meets(env, ac, c, OfOrganisation) && Meets(env, ac, c, OfWorkspace) && Meets(env, ac, c, AgentName);
      assert Meets(env, ac, c, ToolName) && Meets(env, ac, c, ToolServer) && Meets(env, ac, c, ActionType);
      assert Meets(env, ac, c, Environment) && Meets(env, ac, c, RecordCount) && Meets(env, ac, c, Scope);
      assert Meets(env, ac, c, Semantic);
    }
  }

  /** A global rule outranks every workspace rule; among equals the lower number does. */
  predicate Outranks(a: Rule, b: Rule) {
    || (a.workspaceId == "" && b.workspaceId != "")
    || ((a.workspaceId == "") == (b.workspaceId == "") && a.priority < b.priority)
  }

  /** A rule the action meets and that none it meets outranks. */
  ghost predicate Decides(env: Env, ac: Context, rules: seq<Candidate>, c: Candidate) {
    && c in rules && MeetsAll(env, ac, c)
    && forall o | o in rules && MeetsAll(env, ac, o) :: !Outranks(o.rule, c.rule)
  }

  /**
   * The possible decisions, whatever order the sort leaves: the action, name and priority of a rule
   * the action meets in all its conditions and that no other such rule outranks, or the default
   * exactly when it meets none.
   */
  lemma DecisionIff(env: Env, ac: Context, rules: seq<Candidate>, default: string, d: Decision)
    ensures Possible(env, ac, rules, default, d) <==>
            || (d == Decision(default, None, None) && forall c | c in rules :: !MeetsAll(env, ac, c))
            || exists c :: Decides(env, ac, rules, c)
                 && d == Decision(c.rule.action, Some((c.rule.id, c.rule.name)), Some(c.rule.priority))
  {
    PossibleIffAllowed(env, ac, rules, default, d);
    forall c ensures Matches(env, ac, c) <==> MeetsAll(env, ac, c) { MatchesIff(env, ac, c); }
    forall c ensures Best(env, ac, rules, c) <==> Decides(env, ac, rules, c) {
    }
  }

  /** For each condition alone: deleting every rule that fails it leaves the possible decisions unchanged. */
  lemma UnmetNeverMatters(env: Env, ac: Context, rules: seq<Candidate>, which: Condition, p: Candidate -> bool,
                          default: string, d: Decision)
    requires forall c :: p(c) <==> Meets(env, ac, c, which)
    ensures Possible(env, ac, rules, default, d) <==> Possible(env, ac, Keep(rules, p), default, d)
  {
    forall x | Matches(env, ac, x) ensures x in rules <==> x in Keep(rules, p) {
      MatchesIff(env, ac, x);
      KeepElements(rules, p, x);
    }
    SameMatchesSameDecisions(env, ac, rules, Keep(rules, p), default, d);
  }

  /**
   * A rule the action meets is never passed over: whatever is decided comes from a rule that it
   * does not outrank, and not from the default.
   */
  lemma MetIsNotPassedOver(env: Env, ac: Context, rules: seq<Candidate>, c: Candidate, default: string, d: Decision)
    requires c in rules && MeetsAll(env, ac, c) && Possible(env, ac, rules, default, d)
    ensures d.policy.Some?
    ensures exists o :: o in rules && !Outranks(c.rule, o.rule) && d.action == o.rule.action
              && d.policy == Some((o.rule.id, o.rule.name)) && d.priority == Some(o.rule.priority)
  {
    DecisionIff(env, ac, rules, default, d);
  }

  /** A global rule without conditions decides, or one of no higher number does. */
  lemma CatchAllDecides(env: Env, ac: Context, rules: seq<Candidate>, c: Candidate, default: string, d: Decision)
    requires c in rules && c.rule.workspaceId == "" && c.rule.orgId == ac.orgId && c.rule.conditions == ANY
    requires Possible(env, ac, rules, default, d)
    ensures d.priority.Some? && d.priority.value <= c.rule.priority
    ensures exists o :: o in rules && o.rule.workspaceId == "" && d.policy == Some((o.rule.id, o.rule.name))
  {
    MetIsNotPassedOver(env, ac, rules, c, default, d);
  }
}
