/**
 * The category heuristic behind keyword scopes (structural.go). `toolCategory` ranges over an
 * unordered map, so its answer is a relation: any category some iteration order reaches first.
 * Strings are already lower-cased here.
 */
module ScopeDrift {
  import opened Base

  datatype Category = File | Code | Web | Email | Calendar | Database | Slack | Github

  const ALL: seq<Category> := [File, Code, Web, Email, Calendar, Database, Slack, Github]

  function Keyword(c: Category): string {
    match c
    case File => "file"
    case Code => "code"
    case Web => "web"
    case Email => "email"
    case Calendar => "calendar"
    case Database => "database"
    case Slack => "slack"
    case Github => "github"
  }

  function Tools(c: Category): seq<string> {
    match c
    case File => ["read_file", "write_file", "delete_file", "list_files", "create_file"]
    case Code => ["run_code", "execute_code", "bash", "shell", "python", "javascript"]
    case Web => ["fetch_url", "browse", "search_web", "http_get", "http_post"]
    case Email => ["send_email", "read_email", "draft_email", "reply_email"]
    case Calendar => ["create_event", "delete_event", "list_events", "update_event"]
    case Database => ["query_db", "insert_db", "delete_records", "update_records", "sql"]
    case Slack => ["send_message", "read_channel", "create_channel"]
    case Github => ["create_pr", "merge_pr", "push_commit", "create_issue"]
  }

  predicate Occurs(s: string, t: string, i: nat) { i + |t| <= |s| && s[i..i + |t|] == t }

  /** strings.Contains. */
  predicate Has(s: string, t: string) { exists i: nat | i <= |s| :: Occurs(s, t, i) }

  /** The tool name holds one of the category's tools, or starts with its keyword. */
  predicate Uses(tool: string, c: Category) { exists j | 0 <= j < |Tools(c)| :: Has(tool, Tools(c)[j]) }

  predicate Starts(tool: string, c: Category) { Keyword(c) <= tool }

  // ---------------------------------------------------------------- toolCategory

  /** An order in which the map may be ranged over. */
  predicate IsOrder(o: seq<Category>) { |o| == |ALL| && forall c :: c in o }

  method UsesTool(tool: string, c: Category) returns (r: bool)
    ensures r == Uses(tool, c)
  {
    for j := 0 to |Tools(c)|
      invariant forall i | 0 <= i < j :: !Has(tool, Tools(c)[i])
    {
      if Has(tool, Tools(c)[j]) {
        return true;
      }
    }
    return false;
  }

  method FirstUsing(tool: string, order: seq<Category>) returns (r: Option<Category>)
    ensures r == FirstOf(order, Using(tool))
  {
    for i := 0 to |order|
      invariant FirstOf(order, Using(tool)) == FirstOf(order[i..], Using(tool))
    {
      var uses := UsesTool(tool, order[i]);
      if uses {
        return Some(order[i]);
      }
      assert order[i..][1..] == order[i + 1..];
    }
    return None;
  }

  method FirstStarting(tool: string, order: seq<Category>) returns (r: Option<Category>)
    ensures r == FirstOf(order, Starting(tool))
  {
    for i := 0 to |order|
      invariant FirstOf(order, Starting(tool)) == FirstOf(order[i..], Starting(tool))
    {
      if Starts(tool, order[i]) {
        return Some(order[i]);
      }
      assert order[i..][1..] == order[i + 1..];
    }
    return None;
  }

  /** `toolCategory`, with the orders its two loops happen to take. */
  method ToolCategory(tool: string, first: seq<Category>, second: seq<Category>) returns (r: Option<Category>)
    requires IsOrder(first) && IsOrder(second)
    ensures r == Reached(Using(tool), Starting(tool), first, second)
    ensures MayBe(tool, r)
  {
    ReachedMayBe(Using(tool), Starting(tool), first, second);
    r := FirstUsing(tool, first);
    if r == None {
      r := FirstStarting(tool, second);
    }
  }

  type Test = Category -> bool

  function Using(tool: string): Test { (c: Category) => Uses(tool, c) }

  function Starting(tool: string): Test { (c: Category) => Starts(tool, c) }

  function FirstOf(o: seq<Category>, p: Test): Option<Category>
    decreases |o|
  {
    if o == [] then None else if p(o[0]) then Some(o[0]) else FirstOf(o[1..], p)
  }

  function Reached(p: Test, q: Test, first: seq<Category>, second: seq<Category>): Option<Category> {
    var r := FirstOf(first, p);
    if r.Some? then r else FirstOf(second, q)
  }

  /** What two loops, each in some order, can find: something the first test holds of, or else the second. */
  predicate Findable(p: Test, q: Test, r: Option<Category>) {
    if exists c :: p(c) then r.Some? && p(r.value)
    else if exists c :: q(c) then r.Some? && q(r.value)
    else r.None?
  }

  /** The answers `toolCategory` can give, without speaking of orders. */
  predicate MayBe(tool: string, r: Option<Category>) { Findable(Using(tool), Starting(tool), r) }

  lemma {:induction false} FirstOfIs(o: seq<Category>, p: Test)
    ensures match FirstOf(o, p)
            case Some(c) => c in o && p(c)
            case None => forall c | c in o :: !p(c)
    decreases |o|
  {
    if o != [] && !p(o[0]) {
      FirstOfIs(o[1..], p);
      assert forall c | c in o && c != o[0] :: c in o[1..];
    }
  }

  lemma ReachedMayBe(p: Test, q: Test, first: seq<Category>, second: seq<Category>)
    requires IsOrder(first) && IsOrder(second)
    ensures Findable(p, q, Reached(p, q, first, second))
  {
    FirstOfIs(first, p);
    FirstOfIs(second, q);
  }

  /** An order that meets `c` first. */
  function Leading(c: Category): seq<Category> {
    match c
    case File => [File, Code, Web, Email, Calendar, Database, Slack, Github]
    case Code => [Code, File, Web, Email, Calendar, Database, Slack, Github]
    case Web => [Web, Code, File, Email, Calendar, Database, Slack, Github]
    case Email => [Email, Code, Web, File, Calendar, Database, Slack, Github]
    case Calendar => [Calendar, Code, Web, Email, File, Database, Slack, Github]
    case Database => [Database, Code, Web, Email, Calendar, File, Slack, Github]
    case Slack => [Slack, Code, Web, Email, Calendar, Database, File, Github]
    case Github => [Github, Code, Web, Email, Calendar, Database, Slack, File]
  }

  lemma LeadingIsOrder(c: Category)
    ensures IsOrder(Leading(c)) && Leading(c)[0] == c
  {
    var o := Leading(c);
    forall d ensures d in o {
      assert d == o[0] || d == o[1] || d == o[2] || d == o[3] || d == o[4] || d == o[5] || d == o[6] || d == o[7];
    }
  }

  lemma LeadingReaches(p: Test, q: Test, r: Option<Category>) returns (o: seq<Category>)
    requires Findable(p, q, r)
    ensures IsOrder(o) && Reached(p, q, o, o) == r
  {
    var c := if r.Some? then r.value else File;
    o := Leading(c);
    LeadingIsOrder(c);
    FirstOfIs(o, p);
    FirstOfIs(o, q);
  }

  /** Some pair of iteration orders makes `toolCategory` answer `r`. */
  ghost predicate CanAnswer(tool: string, r: Option<Category>) {
    exists first, second :: IsOrder(first) && IsOrder(second)
      && Reached(Using(tool), Starting(tool), first, second) == r
  }

  /** It can answer `r` exactly when the relation says so. */
  lemma MayBeIffReached(tool: string, r: Option<Category>)
    ensures MayBe(tool, r) <==> CanAnswer(tool, r)
  {
    var p, q := Using(tool), Starting(tool);
    if CanAnswer(tool, r) {
      var first, second :| IsOrder(first) && IsOrder(second) && Reached(p, q, first, second) == r;
      ReachedMayBe(p, q, first, second);
    }
    if MayBe(tool, r) { var o := LeadingReaches(p, q, r); }
  }

  // ---------------------------------------------------------------- drift

  /** `scopeImpliesCategories`: a keyword of the category in the scope, or one of a few aliases. */
  predicate Implies(scope: string, c: Category) {
    || Has(scope, Keyword(c))
    || ((c == Code || c == Github) && (Has(scope, "coding") || Has(scope, "developer")))
    || ((c == Email || c == Slack) && (Has(scope, "communication") || Has(scope, "messaging")))
    || (c == Database && (Has(scope, "data") || Has(scope, "analyst")))
  }

  predicate TooVague(scope: string) { forall c :: !Implies(scope, c) }

  /** The keyword-scope half of `detectScopeDrift`, for the category it was given. */
  predicate OffCategory(scope: string, cat: Option<Category>) {
    cat.Some? && !TooVague(scope) && !Implies(scope, cat.value)
  }

  /** The drift answers possible for a tool under a scope. */
  ghost predicate MayDrift(tool: string, scope: string, drift: bool) {
    exists cat :: MayBe(tool, cat) && OffCategory(scope, cat) == drift
  }

  /** Only one answer is possible. */
  ghost predicate Settled(tool: string, scope: string) {
    !(MayDrift(tool, scope, true) && MayDrift(tool, scope, false))
  }

  /**
   * The answer is the same on every evaluation exactly when the scope implies no category, or all
   * the categories the tool may be taken for, or none of them.
   */
  lemma SettledIff(tool: string, scope: string)
    ensures Settled(tool, scope) <==>
            || TooVague(scope)
            || (forall c | MayBe(tool, Some(c)) :: Implies(scope, c))
            || (forall c | MayBe(tool, Some(c)) :: !Implies(scope, c))
  {
    if !TooVague(scope) {
      if c, d :| MayBe(tool, Some(c)) && !Implies(scope, c) && MayBe(tool, Some(d)) && Implies(scope, d) {
        assert OffCategory(scope, Some(c)) && !OffCategory(scope, Some(d));
      }
    }
  }

  /** The words that make a scope imply a category. */
  function Words(c: Category): seq<string> {
    match c
    case File => ["file"]
    case Code => ["code", "coding", "developer"]
    case Web => ["web"]
    case Email => ["email", "communication", "messaging"]
    case Calendar => ["calendar"]
    case Database => ["database", "data", "analyst"]
    case Slack => ["slack", "communication", "messaging"]
    case Github => ["github", "coding", "developer"]
  }

  /** One of those words stands in the scope. */
  predicate Named(scope: string, c: Category) { exists i | 0 <= i < |Words(c)| :: Has(scope, Words(c)[i]) }

  /** The categories whose own keyword stands in the scope. */
  method KeywordCategories(scope: string, order: seq<Category>) returns (implied: set<Category>)
    requires IsOrder(order)
    ensures forall c :: c in implied <==> Has(scope, Keyword(c))
  {
    implied := {};
    for i := 0 to |order|
      invariant forall c :: c in implied <==> c in order[..i] && Has(scope, Keyword(c))
    {
      assert order[..i + 1] == order[..i] + [order[i]];
      if Has(scope, Keyword(order[i])) {
        implied := implied + {order[i]};
      }
    }
    assert order[..|order|] == order;
  }

  /** The aliases: what a scope about coding, talking or data implies besides. */
  method AddAliases(keywords: set<Category>, coding: bool, talking: bool, data: bool) returns (implied: set<Category>)
    ensures forall c :: c in implied <==>
            || c in keywords || (coding && (c == Code || c == Github)) || (talking && (c == Email || c == Slack))
            || (data && c == Database)
  {
    implied := keywords;
    if coding {
      implied := implied + {Code, Github};
    }
    if talking {
      implied := implied + {Email, Slack};
    }
    if data {
      implied := implied + {Database};
    }
  }

  /** `scopeImpliesCategories`, with the order its loop happens to take. */
  method ScopeImpliesCategories(scope: string, order: seq<Category>) returns (implied: set<Category>)
    requires IsOrder(order)
    ensures forall c :: c in implied <==> Named(scope, c)
  {
    var keywords := KeywordCategories(scope, order);
    implied := AddAliases(keywords, Has(scope, "coding") || Has(scope, "developer"),
                          Has(scope, "communication") || Has(scope, "messaging"),
                          Has(scope, "data") || Has(scope, "analyst"));
    forall c ensures Implies(scope, c) <==> Named(scope, c) { NamedIff(scope, c); }
  }

  lemma NamedIff(scope: string, c: Category)
    ensures Implies(scope, c) <==> Named(scope, c)
  {
    var words := Words(c);
    assert words[0] == Keyword(c);
    if |words| > 1 { assert Named(scope, c) <==> Has(scope, words[0]) || Has(scope, words[1]) || Has(scope, words[2]); }
  }

  /**
   * A tool of a known category is off a keyword scope exactly when the scope names some category
   * and not the tool's; an unknown tool, or a scope that names none, is never off.
   */
  lemma OffCategoryIff(scope: string, cat: Option<Category>)
    ensures OffCategory(scope, cat) <==>
            cat.Some? && !Named(scope, cat.value) && exists c :: Named(scope, c)
  {
    forall c ensures Implies(scope, c) <==> Named(scope, c) { NamedIff(scope, c); }
  }

  lemma StartsIff(tool: string, c: Category)
    ensures Starts(tool, c) <==> exists rest :: tool == Keyword(c) + rest
  {
    if Starts(tool, c) { assert tool == Keyword(c) + tool[|Keyword(c)|..]; }
  }

  const BOTH_TOOL := "python_read_file"
  const FILE_SCOPE := "file assistant"

  lemma NoSuchStart(s: string, t: string)
    requires t != "" && t[0] !in s
    ensures !Has(s, t)
  {
    forall i: nat | i <= |s| ensures !Occurs(s, t, i) {
      if i + |t| <= |s| { assert s[i..i + |t|][0] == s[i] && s[i] in s; }
    }
  }

  lemma NamesTool(tool: string, c: Category, j: nat, i: nat)
    requires j < |Tools(c)| && i <= |tool| && Occurs(tool, Tools(c)[j], i)
    ensures MayBe(tool, Some(c))
  {
    assert Uses(tool, c);
    assert Using(tool)(c);
  }

  lemma MayBeFile()
    ensures MayBe(BOTH_TOOL, Some(File))
  {
    assert BOTH_TOOL[7..7 + 9] == "read_file" == Tools(File)[0];
    NamesTool(BOTH_TOOL, File, 0, 7);
  }

  lemma MayBeCode()
    ensures MayBe(BOTH_TOOL, Some(Code))
  {
    assert BOTH_TOOL[0..0 + 6] == "python" == Tools(Code)[4];
    NamesTool(BOTH_TOOL, Code, 4, 0);
  }

  lemma FileScope()
    ensures Implies(FILE_SCOPE, File) && !Implies(FILE_SCOPE, Code)
  {
    assert FILE_SCOPE[0..0 + 4] == "file" == Keyword(File);
    assert Occurs(FILE_SCOPE, Keyword(File), 0);
    NoSuchStart(FILE_SCOPE, "code");
    NoSuchStart(FILE_SCOPE, "coding");
    NoSuchStart(FILE_SCOPE, "developer");
  }

  /** A tool that both drifts and does not: it names a file tool and a code tool. */
  lemma SameToolBothAnswers()
    ensures MayDrift(BOTH_TOOL, FILE_SCOPE, true) && MayDrift(BOTH_TOOL, FILE_SCOPE, false)
  {
    MayBeFile();
    MayBeCode();
    FileScope();
    assert OffCategory(FILE_SCOPE, Some(Code)) && !OffCategory(FILE_SCOPE, Some(File));
  }
}
