/**
 * The policy evaluator (evaluator.go, structural.go): rules sorted by (global first, priority) with
 * an unstable sort, then the first match. The glob matcher and case folding are parameters. The
 * tool category behind a keyword scope is looked up in an unordered map each time, so its answer
 * comes with each rule examined; every result holds for every answer, possible or not.
 */
module PolicyEvaluator {
  import opened Base
  import ScopeDrift

  datatype Conditions = Conditions(
    agentNamePattern: string, toolNames: seq<string>, toolServerIds: seq<string>, actionTypes: seq<string>,
    environments: seq<string>, recordCountGt: Option<int>, scopeDrift: bool, semanticRule: string)

  datatype Rule = Rule(id: string, orgId: string, workspaceId: string, name: string, priority: int,
                       conditions: Conditions, action: string)

  datatype Context = Context(
    orgId: string, workspaceId: string, agentName: string, scope: string, agentScope: string,
    toolName: string, toolServerId: string, actionType: string, environment: string, recordCount: int)

  datatype Env = Env(glob: (string, string) -> bool, lower: string -> string)

  /** A rule together with what the category heuristic answers when that rule is examined. */
  datatype Candidate = Candidate(rule: Rule, offCategory: bool)

  datatype Decision = Decision(action: string, policy: Option<(string, string)>, priority: Option<int>)

  // ---------------------------------------------------------------- matching

  predicate InSlice(env: Env, s: string, slice: seq<string>) {
    exists i | 0 <= i < |slice| :: env.lower(slice[i]) == env.lower(s)
  }

  method StringInSlice(env: Env, s: string, slice: seq<string>) returns (found: bool)
    ensures found == InSlice(env, s, slice)
  {
    var wanted := env.lower(s);
    for i := 0 to |slice|
      invariant forall j | 0 <= j < i :: env.lower(slice[j]) != wanted
    {
      if env.lower(slice[i]) == wanted {
        return true;
      }
    }
    return false;
  }

  /** The part of a scope before its first colon, if that is not at the very start. */
  function ScopeVerb(scope: string, i: nat): Option<string>
    requires i <= |scope|
    decreases |scope| - i
  {
    if i == |scope| then None
    else if scope[i] == ':' then (if i > 0 then Some(scope[..i]) else None)
    else ScopeVerb(scope, i + 1)
  }

  predicate VerbScopeDrift(env: Env, verb: string, actionType: string) {
    var action := env.lower(actionType);
    if verb == "read" then action != "read"
    else if verb == "write" then action != "read" && action != "write" && action != "create"
    else false
  }

  function ScopeOf(ac: Context): string { if ac.scope == "" then ac.agentScope else ac.scope }

  /** A verb scope decides alone; only a keyword scope asks the category heuristic. */
  predicate DetectScopeDrift(env: Env, ac: Context, offCategory: bool) {
    var scope := ScopeOf(ac);
    if scope == "" then false
    else if ScopeVerb(scope, 0).Some? then VerbScopeDrift(env, env.lower(ScopeVerb(scope, 0).value), ac.actionType)
    else offCategory
  }

  /** `matchesRule` and the semantic stub, which never matches. */
  predicate Matches(env: Env, ac: Context, c: Candidate) {
    var k := c.rule.conditions;
    && InScope(ac, c.rule)
    && (k.agentNamePattern == "" || env.glob(k.agentNamePattern, ac.agentName))
    && (k.toolNames == [] || InSlice(env, ac.toolName, k.toolNames))
    && (k.toolServerIds == [] || InSlice(env, ac.toolServerId, k.toolServerIds))
    && (k.actionTypes == [] || InSlice(env, ac.actionType, k.actionTypes))
    && (k.environments == [] || InSlice(env, ac.environment, k.environments))
    && (k.recordCountGt == None || ac.recordCount > k.recordCountGt.value)
    && (!k.scopeDrift || DetectScopeDrift(env, ac, c.offCategory))
    && k.semanticRule == ""
  }

  /** Of this organisation, and global or of this very workspace. */
  predicate InScope(ac: Context, r: Rule) {
    (r.orgId == "" || r.orgId == ac.orgId) && (r.workspaceId == "" || r.workspaceId == ac.workspaceId)
  }

  // ---------------------------------------------------------------- order

  predicate Global(c: Candidate) { c.rule.workspaceId == "" }

  /** `a` must be examined before `b`. */
  predicate Before(a: Candidate, b: Candidate) {
    if Global(a) != Global(b) then Global(a) else a.rule.priority < b.rule.priority
  }

  predicate Ordered(s: seq<Candidate>) { forall i, j | 0 <= i < j < |s| :: !Before(s[j], s[i]) }

  /** What `sort.Slice` promises: some ordered permutation. */
  predicate Sorts(s: seq<Candidate>, rules: seq<Candidate>) { Ordered(s) && multiset(s) == multiset(rules) }

  /** Put `c` in front of everything that need not come before it. */
  function Insert(c: Candidate, s: seq<Candidate>): seq<Candidate>
    decreases |s|
  {
    if s == [] || !Before(s[0], c) then [c] + s else [s[0]] + Insert(c, s[1..])
  }

  /** `NewEvaluator`, with one of the tie-breaks its sort may choose. */
  method NewEvaluator(rules: seq<Candidate>) returns (sorted: seq<Candidate>)
    ensures Sorts(sorted, rules)
  {
    sorted := [];
    for i := 0 to |rules|
      invariant Sorts(sorted, rules[..i])
    {
      InsertSorts(rules[i], sorted);
      assert rules[..i + 1] == rules[..i] + [rules[i]];
      sorted := Insert(rules[i], sorted);
    }
    assert rules[..|rules|] == rules;
  }

  function Decide(c: Candidate): Decision {
    Decision(c.rule.action, Some((c.rule.id, c.rule.name)), Some(c.rule.priority))
  }

  function Default(action: string): Decision { Decision(action, None, None) }

  /** `Evaluate` on any order the sort may have left. */
  method Evaluate(env: Env, ac: Context, sorted: seq<Candidate>, default: string, ghost rules: seq<Candidate>)
    returns (d: Decision)
    requires Sorts(sorted, rules)
    ensures d == FirstMatch(env, ac, sorted, default)
    ensures Allowed(env, ac, rules, default, d)
  {
    FirstMatchIsBest(env, ac, sorted, rules, default);
    for i := 0 to |sorted|
      invariant FirstMatch(env, ac, sorted[i..], default) == FirstMatch(env, ac, sorted, default)
    {
      if !Matches(env, ac, sorted[i]) {
        assert sorted[i..][1..] == sorted[i + 1..];
        continue;
      }
      return Decide(sorted[i]);
    }
    return Default(default);
  }

  function FirstMatch(env: Env, ac: Context, s: seq<Candidate>, default: string): Decision
    decreases |s|
  {
    if s == [] then Default(default)
    else if Matches(env, ac, s[0]) then Decide(s[0])
    else FirstMatch(env, ac, s[1..], default)
  }

  // ---------------------------------------------------------------- the set-level specification

  /** A matching rule that no matching rule must precede. */
  ghost predicate Best(env: Env, ac: Context, rules: seq<Candidate>, c: Candidate) {
    c in rules && Matches(env, ac, c) && forall o | o in rules && Matches(env, ac, o) :: !Before(o, c)
  }

  predicate NoneMatches(env: Env, ac: Context, rules: seq<Candidate>) { forall c | c in rules :: !Matches(env, ac, c) }

  /** The decisions the specification allows; it speaks of the rules as a collection without order. */
  ghost predicate Allowed(env: Env, ac: Context, rules: seq<Candidate>, default: string, d: Decision) {
    (NoneMatches(env, ac, rules) && d == Default(default)) || exists c :: Best(env, ac, rules, c) && d == Decide(c)
  }

  /** The decisions some run of the sort can lead to. */
  ghost predicate Possible(env: Env, ac: Context, rules: seq<Candidate>, default: string, d: Decision) {
    exists s :: Sorts(s, rules) && d == FirstMatch(env, ac, s, default)
  }

  // ---------------------------------------------------------------- proofs

  lemma {:induction false} InsertMultiset(c: Candidate, s: seq<Candidate>)
    ensures multiset(Insert(c, s)) == multiset(s) + multiset{c}
    decreases |s|
  {
    if s != [] && Before(s[0], c) {
      InsertMultiset(c, s[1..]);
      assert s == [s[0]] + s[1..];
    }
  }

  /** Anything in the result is `c` or was there. */
  lemma InsertElements(c: Candidate, s: seq<Candidate>, x: Candidate)
    ensures x in Insert(c, s) ==> x == c || x in s
  {
    InsertMultiset(c, s);
    if x in Insert(c, s) { assert x in multiset(Insert(c, s)); }
  }

  lemma {:induction false} InsertOrdered(c: Candidate, s: seq<Candidate>)
    requires Ordered(s)
    ensures Ordered(Insert(c, s))
    decreases |s|
  {
    if s == [] {
    } else {
      if !Before(s[0], c) {
        forall x | x in s ensures !Before(x, c) { if x != s[0] { assert x in s[1..]; } }
      } else {
        InsertOrdered(c, s[1..]);
        forall x | x in Insert(c, s[1..]) ensures !Before(x, s[0]) { InsertElements(c, s[1..], x); }
      }
    }
  }

  lemma InsertSorts(c: Candidate, s: seq<Candidate>)
    requires Ordered(s)
    ensures Ordered(Insert(c, s)) && multiset(Insert(c, s)) == multiset(s) + multiset{c}
  {
    InsertOrdered(c, s);
    InsertMultiset(c, s);
  }

  lemma SameElements(s: seq<Candidate>, t: seq<Candidate>, x: Candidate)
    requires multiset(s) == multiset(t)
    ensures x in s <==> x in t
  {
    assert x in s <==> x in multiset(s);
    assert x in t <==> x in multiset(t);
  }

  /** The first match of an ordered list is one of its best matches. */
  lemma {:induction false} FirstMatchOfOrdered(env: Env, ac: Context, s: seq<Candidate>, default: string)
    requires Ordered(s)
    ensures Allowed(env, ac, s, default, FirstMatch(env, ac, s, default))
    decreases |s|
  {
    if s != [] {
      if Matches(env, ac, s[0]) {
        assert Best(env, ac, s, s[0]);
      } else {
        FirstMatchOfOrdered(env, ac, s[1..], default);
        BestOfTail(env, ac, s, default, FirstMatch(env, ac, s[1..], default));
      }
    }
  }

  lemma BestOfTail(env: Env, ac: Context, s: seq<Candidate>, default: string, d: Decision)
    requires s != [] && !Matches(env, ac, s[0]) && Allowed(env, ac, s[1..], default, d)
    ensures Allowed(env, ac, s, default, d)
  {
    assert forall x | x in s && x != s[0] :: x in s[1..];
    if !NoneMatches(env, ac, s[1..]) {
      var c :| Best(env, ac, s[1..], c) && d == Decide(c);
      assert Best(env, ac, s, c);
    }
  }

  /** The specification depends only on which rules match. */
  lemma SameMatches(env: Env, ac: Context, s: seq<Candidate>, t: seq<Candidate>, default: string, d: Decision)
    requires Allowed(env, ac, s, default, d)
    requires forall x | Matches(env, ac, x) :: x in s <==> x in t
    ensures Allowed(env, ac, t, default, d)
  {
    if !NoneMatches(env, ac, s) {
      var c :| Best(env, ac, s, c) && d == Decide(c);
      assert Best(env, ac, t, c);
    }
  }

  /** Every order the sort may leave gives a decision the specification allows. */
  lemma FirstMatchIsBest(env: Env, ac: Context, s: seq<Candidate>, rules: seq<Candidate>, default: string)
    requires Sorts(s, rules)
    ensures Allowed(env, ac, rules, default, FirstMatch(env, ac, s, default))
  {
    FirstMatchOfOrdered(env, ac, s, default);
    forall x ensures x in s <==> x in rules { SameElements(s, rules, x); }
    SameMatches(env, ac, s, rules, default, FirstMatch(env, ac, s, default));
  }

  function Sort(rules: seq<Candidate>): seq<Candidate>
    decreases |rules|
  {
    if rules == [] then [] else Insert(rules[0], Sort(rules[1..]))
  }

  lemma {:induction false} SortSorts(rules: seq<Candidate>)
    ensures Sorts(Sort(rules), rules)
    decreases |rules|
  {
    if rules != [] {
      SortSorts(rules[1..]);
      InsertSorts(rules[0], Sort(rules[1..]));
      assert rules == [rules[0]] + rules[1..];
    }
  }

  /** Inserted in front of its equals, a best match is the first match. */
  lemma {:induction false} InsertedIsFirst(env: Env, ac: Context, c: Candidate, s: seq<Candidate>, default: string)
    requires Matches(env, ac, c) && forall x | x in s && Matches(env, ac, x) :: !Before(x, c)
    ensures FirstMatch(env, ac, Insert(c, s), default) == Decide(c)
    decreases |s|
  {
    if s != [] && Before(s[0], c) {
      assert forall x | x in s[1..] :: x in s;
      InsertedIsFirst(env, ac, c, s[1..], default);
      assert Insert(c, s)[1..] == Insert(c, s[1..]);
    }
  }

  /** A tie-break that makes best match `c` the decision. */
  lemma TieBreak(env: Env, ac: Context, rules: seq<Candidate>, c: Candidate, default: string)
    returns (s: seq<Candidate>)
    requires Best(env, ac, rules, c)
    ensures Sorts(s, rules) && FirstMatch(env, ac, s, default) == Decide(c)
  {
    var k :| 0 <= k < |rules| && rules[k] == c;
    var rest := rules[..k] + rules[k + 1..];
    assert rules == rules[..k] + [c] + rules[k + 1..];
    assert multiset(rules) == multiset(rest) + multiset{c};
    SortSorts(rest);
    InsertSorts(c, Sort(rest));
    forall x | x in Sort(rest) ensures x in rules {
      SameElements(Sort(rest), rest, x);
    }
    InsertedIsFirst(env, ac, c, Sort(rest), default);
    s := Insert(c, Sort(rest));
  }

  /**
   * For every input order and tie-break the decision is a best match, or the default exactly when
   * nothing matches; and every best match is the decision under some tie-break.
   */
  lemma PossibleIffAllowed(env: Env, ac: Context, rules: seq<Candidate>, default: string, d: Decision)
    ensures Possible(env, ac, rules, default, d) <==> Allowed(env, ac, rules, default, d)
  {
    if Possible(env, ac, rules, default, d) {
      var s :| Sorts(s, rules) && d == FirstMatch(env, ac, s, default);
      FirstMatchIsBest(env, ac, s, rules, default);
    }
    if Allowed(env, ac, rules, default, d) {
      if NoneMatches(env, ac, rules) {
        SortSorts(rules);
        FirstMatchIsBest(env, ac, Sort(rules), rules, default);
      } else {
        var c :| Best(env, ac, rules, c) && d == Decide(c);
        var s := TieBreak(env, ac, rules, c, default);
      }
    }
  }

  /** Two rule lists with the same matching rules decide alike. */
  lemma SameMatchesSameDecisions(env: Env, ac: Context, s: seq<Candidate>, t: seq<Candidate>, default: string,
                                 d: Decision)
    requires forall x | Matches(env, ac, x) :: x in s <==> x in t
    ensures Possible(env, ac, s, default, d) <==> Possible(env, ac, t, default, d)
  {
    PossibleIffAllowed(env, ac, s, default, d);
    PossibleIffAllowed(env, ac, t, default, d);
    if Allowed(env, ac, s, default, d) { SameMatches(env, ac, s, t, default, d); }
    if Allowed(env, ac, t, default, d) { SameMatches(env, ac, t, s, default, d); }
  }

  function Keep(rules: seq<Candidate>, p: Candidate -> bool): seq<Candidate>
    decreases |rules|
  {
    if rules == [] then [] else (if p(rules[0]) then [rules[0]] else []) + Keep(rules[1..], p)
  }

  lemma {:induction false} KeepElements(rules: seq<Candidate>, p: Candidate -> bool, x: Candidate)
    ensures x in Keep(rules, p) <==> x in rules && p(x)
    decreases |rules|
  {
    if rules != [] {
      KeepElements(rules[1..], p, x);
      assert x in rules <==> x == rules[0] || x in rules[1..];
    }
  }

  /** Rules of other organisations or workspaces never affect the possible decisions. */
  lemma OthersNeverMatter(env: Env, ac: Context, rules: seq<Candidate>, default: string, d: Decision)
    ensures Possible(env, ac, rules, default, d) <==>
            Possible(env, ac, Keep(rules, (c: Candidate) => InScope(ac, c.rule)), default, d)
  {
    var p := (c: Candidate) => InScope(ac, c.rule);
    forall x | Matches(env, ac, x) ensures x in rules <==> x in Keep(rules, p) { KeepElements(rules, p, x); }
    SameMatchesSameDecisions(env, ac, rules, Keep(rules, p), default, d);
  }

  /** When a global rule matches, deleting every workspace rule leaves the possible decisions unchanged. */
  lemma OrgFloorDecides(env: Env, ac: Context, rules: seq<Candidate>, g: Candidate, default: string, d: Decision)
    requires g in rules && Global(g) && Matches(env, ac, g)
    ensures Possible(env, ac, rules, default, d) <==> Possible(env, ac, Keep(rules, Global), default, d)
  {
    var floor := Keep(rules, Global);
    forall x ensures x in floor <==> x in rules && Global(x) { KeepElements(rules, Global, x); }
    PossibleIffAllowed(env, ac, rules, default, d);
    PossibleIffAllowed(env, ac, floor, default, d);
    forall c ensures Best(env, ac, rules, c) <==> Best(env, ac, floor, c) { BestIsGlobal(env, ac, rules, floor, g, c); }
  }

  lemma BestIsGlobal(env: Env, ac: Context, rules: seq<Candidate>, floor: seq<Candidate>, g: Candidate, c: Candidate)
    requires g in rules && Global(g) && Matches(env, ac, g)
    requires forall x :: x in floor <==> x in rules && Global(x)
    ensures Best(env, ac, rules, c) <==> Best(env, ac, floor, c)
  {
    if Best(env, ac, rules, c) { assert !Before(g, c); }
  }

  // ---------------------------------------------------------------- the same action, twice

  /** The category answer that comes with `c` is one `toolCategory` can give for this action. */
  ghost predicate Answerable(env: Env, ac: Context, c: Candidate) {
    ScopeDrift.MayDrift(env.lower(ac.toolName), env.lower(ScopeOf(ac)), c.offCategory)
  }

  /** Whether a rule matches an action is settled unless it asks for drift and both answers are possible. */
  lemma MatchIsSettled(env: Env, ac: Context, r: Rule, x: bool, y: bool)
    requires Answerable(env, ac, Candidate(r, x)) && Answerable(env, ac, Candidate(r, y))
    requires !r.conditions.scopeDrift || ScopeVerb(ScopeOf(ac), 0).Some?
             || ScopeDrift.Settled(env.lower(ac.toolName), env.lower(ScopeOf(ac)))
    ensures Matches(env, ac, Candidate(r, x)) <==> Matches(env, ac, Candidate(r, y))
  {
  }

  const ANY := Conditions("", [], [], [], [], None, false, "")

  /** A rule on drift alone, and a file assistant that calls a tool naming both a file and a code tool. */
  const DRIFT_RULE := Rule("r", "", "", "drift", 1, ANY.(scopeDrift := true), "deny")

  function BothAction(): Context {
    Context("o", "", "a", ScopeDrift.FILE_SCOPE, "", ScopeDrift.BOTH_TOOL, "", "read", "", 0)
  }

  lemma {:induction false} NoVerb(scope: string, i: nat)
    requires i <= |scope| && ':' !in scope
    ensures ScopeVerb(scope, i) == None
    decreases |scope| - i
  {
    if i < |scope| { NoVerb(scope, i + 1); }
  }

  lemma KeywordScope()
    ensures ScopeDrift.FILE_SCOPE != "" && ScopeVerb(ScopeDrift.FILE_SCOPE, 0) == None
  {
    NoVerb(ScopeDrift.FILE_SCOPE, 0);
    assert |ScopeDrift.FILE_SCOPE| == 14;
  }

  /** The same action both matches that rule and does not, from one evaluation to the next. */
  lemma SameActionBothWays(env: Env)
    requires env.lower(ScopeDrift.FILE_SCOPE) == ScopeDrift.FILE_SCOPE
             && env.lower(ScopeDrift.BOTH_TOOL) == ScopeDrift.BOTH_TOOL
    ensures var ac, yes, no := BothAction(), Candidate(DRIFT_RULE, true), Candidate(DRIFT_RULE, false);
            && Answerable(env, ac, yes) && Matches(env, ac, yes)
            && Answerable(env, ac, no) && !Matches(env, ac, no)
  {
    ScopeDrift.SameToolBothAnswers();
    KeywordScope();
  }
}
