/**
 * First-run setup (bootstrap.go) as interleaved database transactions. Locks are held to commit or
 * rollback, each statement reads committed state, and a transaction's writes show when it commits.
 */
module Bootstrap {
  import opened Base

  /** A setup_tokens row; `usedBy` stands for consumed_at, naming the transaction that set it. */
  datatype Token = Token(hash: string, expires: int, usedBy: Option<nat>, present: bool)

  datatype Request = Request(tokenHash: string, orgName: string, adminEmail: string, passwordHash: string)

  /** Rows of orgs and users, with the transaction that inserted them. */
  datatype Org = Org(tx: nat, name: string)
  datatype User = User(tx: nat, email: string, passwordHash: string)

  datatype Db = Db(tokens: seq<Token>, orgs: seq<Org>, users: seq<User>)

  /** How far a transaction has come; `token` is the row it locked. */
  datatype Stage =
    | Begun
    | HasLock
    | Selected(token: nat)
    | Unexpired(token: nat)
    | Counted(token: nat)
    | OrgInserted(token: nat)
    | UserInserted(token: nat)
    | TokenUsed(token: nat)
    | Committed(token: nat)
    | Aborted

  /** Uncommitted writes. */
  datatype Writes = Writes(orgs: seq<Org>, users: seq<User>, used: seq<nat>)

  /** `checkedAt` is when its token was found unexpired. */
  datatype Tx = Tx(req: Request, stage: Stage, writes: Writes, checkedAt: int)

  /** `advisory` and `rows` name the transaction holding the setup lock and each token's row lock. */
  datatype State = State(db: Db, txs: seq<Tx>, advisory: Option<nat>, rows: seq<Option<nat>>, now: int)

  /** Statements of transaction `i`, and what the rest of the world may do. */
  datatype Action =
    | Begin(req: Request)
    | Lock(i: nat)
    | SelectToken(i: nat, token: nat)
    | CheckExpiry(i: nat)
    | CountOrgs(i: nat)
    | InsertOrg(i: nat)
    | InsertUser(i: nat)
    | UseToken(i: nat)
    | Commit(i: nat)
    | Abort(i: nat)
    | Mint(hash: string, expires: int)
    | Delete(token: nat)
    | Tick(now: int)

  const NO_WRITES := Writes([], [], [])

  function Initial(now: int): State { State(Db([], [], []), [], None, [], now) }

  predicate Holding(g: Stage) { !g.Begun? && !g.Committed? && !g.Aborted? }

  predicate HasRow(g: Stage) { Holding(g) && !g.HasLock? }

  function At(s: State, i: nat): Stage { if i < |s.txs| then s.txs[i].stage else Aborted }

  function Moved(s: State, i: nat, g: Stage): State
    requires i < |s.txs|
  {
    s.(txs := s.txs[i := s.txs[i].(stage := g)])
  }

  /** Everything transaction `i` holds is let go. */
  function Released(s: State, i: nat): State
    requires i < |s.txs|
  {
    var g := s.txs[i].stage;
    s.(advisory := if Holding(g) then None else s.advisory,
       rows := if HasRow(g) && g.token < |s.rows| then s.rows[g.token := None] else s.rows)
  }

  function RolledBack(s: State, i: nat): State
    requires i < |s.txs|
  {
    Moved(Released(s, i), i, Aborted)
  }

  /** The rows `used` marked as consumed by `i`. */
  function Marked(tokens: seq<Token>, used: seq<nat>, i: nat): seq<Token> {
    seq(|tokens|, k requires 0 <= k < |tokens| => if k in used then tokens[k].(usedBy := Some(i)) else tokens[k])
  }

  function Published(s: State, i: nat): State
    requires i < |s.txs| && HasRow(s.txs[i].stage)
  {
    var t := s.txs[i];
    var db := Db(Marked(s.db.tokens, t.writes.used, i), s.db.orgs + t.writes.orgs, s.db.users + t.writes.users);
    Moved(Released(s, i), i, Committed(t.stage.token)).(db := db)
  }

  function Wrote(s: State, i: nat, g: Stage, w: Writes): State
    requires i < |s.txs|
  {
    s.(txs := s.txs[i := s.txs[i].(stage := g, writes := w)])
  }

  /** One step; a statement that is not next, or that must wait for a lock, changes nothing. */
  function Step(s: State, a: Action): State {
    match a
    case Begin(req) => s.(txs := s.txs + [Tx(req, Begun, NO_WRITES, 0)])
    case Lock(i) =>
      if At(s, i).Begun? && s.advisory == None then Moved(s, i, HasLock).(advisory := Some(i)) else s
    case SelectToken(i, k) =>
      if !At(s, i).HasLock? || k >= |s.db.tokens| || k >= |s.rows| || s.rows[k] != None then s
      else if !s.db.tokens[k].present || s.db.tokens[k].hash != s.txs[i].req.tokenHash then s
      else if s.db.tokens[k].usedBy.Some? then RolledBack(s, i)
      else Moved(s, i, Selected(k)).(rows := s.rows[k := Some(i)])
    case CheckExpiry(i) =>
      if !At(s, i).Selected? || At(s, i).token >= |s.db.tokens| then s
      else if s.now > s.db.tokens[At(s, i).token].expires then RolledBack(s, i)
      else s.(txs := s.txs[i := s.txs[i].(stage := Unexpired(At(s, i).token), checkedAt := s.now)])
    case CountOrgs(i) =>
      if !At(s, i).Unexpired? then s
      else if s.db.orgs != [] then RolledBack(s, i)
      else Moved(s, i, Counted(At(s, i).token))
    case InsertOrg(i) =>
      if !At(s, i).Counted? then s
      else var t := s.txs[i]; Wrote(s, i, OrgInserted(t.stage.token),
                                    t.writes.(orgs := t.writes.orgs + [Org(i, t.req.orgName)]))
    case InsertUser(i) =>
      if !At(s, i).OrgInserted? then s
      else var t := s.txs[i];
           Wrote(s, i, UserInserted(t.stage.token), t.writes.(users := t.writes.users
                                                              + [User(i, t.req.adminEmail, t.req.passwordHash)]))
    case UseToken(i) =>
      if !At(s, i).UserInserted? then s
      else var t := s.txs[i]; Wrote(s, i, TokenUsed(t.stage.token), t.writes.(used := t.writes.used + [t.stage.token]))
    case Commit(i) => if At(s, i).TokenUsed? then Published(s, i) else s
    case Abort(i) => if At(s, i).Begun? || Holding(At(s, i)) then RolledBack(s, i) else s
    case Mint(h, e) => s.(db := s.db.(tokens := s.db.tokens + [Token(h, e, None, true)]), rows := s.rows + [None])
    case Delete(k) =>
      if k < |s.db.tokens| && k < |s.rows| && s.rows[k] == None
      then s.(db := s.db.(tokens := s.db.tokens[k := s.db.tokens[k].(present := false)])) else s
    case Tick(t) => if t >= s.now then s.(now := t) else s
  }

  function Run(s: State, acts: seq<Action>): State
    decreases |acts|
  {
    if acts == [] then s else Step(Run(s, acts[..|acts| - 1]), acts[|acts| - 1])
  }

  // ---------------------------------------------------------------- the invariant

  /** What a transaction at stage `g` has written so far. */
  function WritesAt(t: Tx, i: nat): Writes {
    var org, user := [Org(i, t.req.orgName)], [User(i, t.req.adminEmail, t.req.passwordHash)];
    match t.stage
    case OrgInserted(_) => Writes(org, [], [])
    case UserInserted(_) => Writes(org, user, [])
    case TokenUsed(k) => Writes(org, user, [k])
    case Committed(k) => Writes(org, user, [k])
    case _ => NO_WRITES
  }

  /** The token a transaction holds: present, unconsumed, its own, and unexpired when checked. */
  predicate HoldsToken(s: State, i: nat)
    requires i < |s.txs| && |s.rows| == |s.db.tokens| && HasRow(s.txs[i].stage)
  {
    var t := s.txs[i];
    && t.stage.token < |s.db.tokens| && s.rows[t.stage.token] == Some(i)
    && s.db.tokens[t.stage.token] == Token(t.req.tokenHash, s.db.tokens[t.stage.token].expires, None, true)
    && (!t.stage.Selected? ==> t.checkedAt <= s.db.tokens[t.stage.token].expires)
    && (!t.stage.Selected? && !t.stage.Unexpired? ==> s.db.orgs == [])
  }

  /** What a committed transaction left behind. */
  predicate LeftBehind(s: State, i: nat)
    requires i < |s.txs| && s.txs[i].stage.Committed?
  {
    var t := s.txs[i];
    && s.db.orgs == [Org(i, t.req.orgName)] && s.db.users == [User(i, t.req.adminEmail, t.req.passwordHash)]
    && t.stage.token < |s.db.tokens| && s.db.tokens[t.stage.token].usedBy == Some(i)
    && s.db.tokens[t.stage.token].hash == t.req.tokenHash && t.checkedAt <= s.db.tokens[t.stage.token].expires
  }

  predicate TxOk(s: State, i: nat)
    requires i < |s.txs| && |s.rows| == |s.db.tokens|
  {
    var t := s.txs[i];
    && (Holding(t.stage) <==> s.advisory == Some(i))
    && (!t.stage.Aborted? ==> t.writes == WritesAt(t, i))
    && (HasRow(t.stage) ==> HoldsToken(s, i))
    && (t.stage.Committed? ==> LeftBehind(s, i))
  }

  /** A row is locked by the holder of the setup lock only, and consumed by a committed one only. */
  predicate RowOk(s: State, k: nat)
    requires k < |s.rows| == |s.db.tokens|
  {
    && (s.rows[k].Some? ==>
          && s.rows[k].value < |s.txs| && HasRow(s.txs[s.rows[k].value].stage)
          && s.txs[s.rows[k].value].stage.token == k)
    && (s.db.tokens[k].usedBy.Some? ==> At(s, s.db.tokens[k].usedBy.value) == Committed(k))
  }

  /** Organisations and users come from one committed transaction, or there are none. */
  predicate DbOk(s: State) {
    if s.db.orgs == [] then s.db.users == []
    else s.db.orgs[0].tx < |s.txs| && s.txs[s.db.orgs[0].tx].stage.Committed?
  }

  predicate Inv(s: State) {
    && |s.rows| == |s.db.tokens|
    && (s.advisory.Some? ==> s.advisory.value < |s.txs|)
    && (forall i | 0 <= i < |s.txs| :: TxOk(s, i))
    && (forall k | 0 <= k < |s.rows| :: RowOk(s, k))
    && DbOk(s)
  }

  // ---------------------------------------------------------------- every step keeps it

  /** A statement that changes only its own transaction's record. */
  lemma OwnStatement(s: State, i: nat, t: Tx)
    requires Inv(s) && i < |s.txs| && Holding(s.txs[i].stage) && Holding(t.stage)
    requires HasRow(s.txs[i].stage) ==> HasRow(t.stage) && t.stage.token == s.txs[i].stage.token
    requires TxOk(s.(txs := s.txs[i := t]), i)
    ensures Inv(s.(txs := s.txs[i := t]))
  {
    var s' := s.(txs := s.txs[i := t]);
    forall j | 0 <= j < |s'.txs| ensures TxOk(s', j) { assert TxOk(s, j); }
    forall k | 0 <= k < |s'.rows| ensures RowOk(s', k) { assert RowOk(s, k); }
  }

  lemma BeginKeeps(s: State, req: Request)
    requires Inv(s)
    ensures Inv(Step(s, Begin(req)))
  {
    var s' := Step(s, Begin(req));
    forall j | 0 <= j < |s'.txs| ensures TxOk(s', j) { if j < |s.txs| { assert TxOk(s, j); } }
    forall k | 0 <= k < |s'.rows| ensures RowOk(s', k) { assert RowOk(s, k); }
  }

  lemma LockKeeps(s: State, i: nat)
    requires Inv(s) && At(s, i).Begun? && s.advisory == None
    ensures Inv(Moved(s, i, HasLock).(advisory := Some(i)))
  {
    var s' := Moved(s, i, HasLock).(advisory := Some(i));
    forall j | 0 <= j < |s'.txs| ensures TxOk(s', j) { assert TxOk(s, j); }
    forall k | 0 <= k < |s'.rows| ensures RowOk(s', k) { assert RowOk(s, k); }
  }

  lemma SelectKeeps(s: State, i: nat, k: nat)
    requires Inv(s) && At(s, i).HasLock? && k < |s.rows| && s.rows[k] == None
    requires s.db.tokens[k] == Token(s.txs[i].req.tokenHash, s.db.tokens[k].expires, None, true)
    ensures Inv(Moved(s, i, Selected(k)).(rows := s.rows[k := Some(i)]))
  {
    var s' := Moved(s, i, Selected(k)).(rows := s.rows[k := Some(i)]);
    assert TxOk(s, i);
    forall j | 0 <= j < |s'.txs| ensures TxOk(s', j) { assert TxOk(s, j); }
    forall m | 0 <= m < |s'.rows| ensures RowOk(s', m) { assert RowOk(s, m); }
  }

  lemma RollbackKeeps(s: State, i: nat)
    requires Inv(s) && i < |s.txs| && !s.txs[i].stage.Committed?
    ensures Inv(RolledBack(s, i))
  {
    var s' := RolledBack(s, i);
    assert TxOk(s, i);
    forall j | 0 <= j < |s'.txs| ensures TxOk(s', j) { assert TxOk(s, j); }
    forall k | 0 <= k < |s'.rows| ensures RowOk(s', k) { assert RowOk(s, k); }
  }

  lemma CommitKeeps(s: State, i: nat)
    requires Inv(s) && At(s, i).TokenUsed?
    ensures Inv(Published(s, i))
  {
    var s' := Published(s, i);
    assert TxOk(s, i) && s.txs[i].writes.used == [s.txs[i].stage.token];
    forall j | 0 <= j < |s'.txs| ensures TxOk(s', j) {
      assert TxOk(s, j);
    }
    forall k | 0 <= k < |s'.rows| ensures RowOk(s', k) { assert RowOk(s, k); }
  }

  lemma MintKeeps(s: State, h: string, e: int)
    requires Inv(s)
    ensures Inv(Step(s, Mint(h, e)))
  {
    var s' := Step(s, Mint(h, e));
    forall j | 0 <= j < |s'.txs| ensures TxOk(s', j) { assert TxOk(s, j); }
    forall k | 0 <= k < |s'.rows| ensures RowOk(s', k) { if k < |s.rows| { assert RowOk(s, k); } }
  }

  lemma DeleteKeeps(s: State, k: nat)
    requires Inv(s)
    ensures Inv(Step(s, Delete(k)))
  {
    var s' := Step(s, Delete(k));
    forall j | 0 <= j < |s'.txs| ensures TxOk(s', j) { assert TxOk(s, j); }
    forall m | 0 <= m < |s'.rows| ensures RowOk(s', m) { assert RowOk(s, m); }
  }

  lemma TickKeeps(s: State, t: int)
    requires Inv(s)
    ensures Inv(s.(now := t))
  {
    var s' := s.(now := t);
    forall j | 0 <= j < |s'.txs| ensures TxOk(s', j) { assert TxOk(s, j); }
    forall m | 0 <= m < |s'.rows| ensures RowOk(s', m) { assert RowOk(s, m); }
  }

  lemma CheckExpiryKeeps(s: State, i: nat)
    requires Inv(s)
    ensures Inv(Step(s, CheckExpiry(i)))
  {
    if At(s, i).Selected? {
      var t := s.txs[i];
      assert TxOk(s, i);
      RollbackKeeps(s, i);
      if s.now <= s.db.tokens[t.stage.token].expires {
        OwnStatement(s, i, t.(stage := Unexpired(t.stage.token), checkedAt := s.now));
      }
    }
  }

  lemma CountOrgsKeeps(s: State, i: nat)
    requires Inv(s)
    ensures Inv(Step(s, CountOrgs(i)))
  {
    if At(s, i).Unexpired? {
      var t := s.txs[i];
      assert TxOk(s, i);
      if s.db.orgs != [] { RollbackKeeps(s, i); } else { OwnStatement(s, i, t.(stage := Counted(t.stage.token))); }
    }
  }

  lemma InsertOrgKeeps(s: State, i: nat)
    requires Inv(s)
    ensures Inv(Step(s, InsertOrg(i)))
  {
    if At(s, i).Counted? {
      var t := s.txs[i];
      assert TxOk(s, i);
      OwnStatement(s, i, t.(stage := OrgInserted(t.stage.token),
                            writes := t.writes.(orgs := t.writes.orgs + [Org(i, t.req.orgName)])));
    }
  }

  lemma InsertUserKeeps(s: State, i: nat)
    requires Inv(s)
    ensures Inv(Step(s, InsertUser(i)))
  {
    if At(s, i).OrgInserted? {
      var t := s.txs[i];
      assert TxOk(s, i);
      OwnStatement(s, i, t.(stage := UserInserted(t.stage.token),
                            writes := t.writes.(users := t.writes.users
                                                + [User(i, t.req.adminEmail, t.req.passwordHash)])));
    }
  }

  lemma UseTokenKeeps(s: State, i: nat)
    requires Inv(s)
    ensures Inv(Step(s, UseToken(i)))
  {
    if At(s, i).UserInserted? {
      var t := s.txs[i];
      assert TxOk(s, i);
      OwnStatement(s, i, t.(stage := TokenUsed(t.stage.token),
                            writes := t.writes.(used := t.writes.used + [t.stage.token])));
    }
  }

  lemma StepKeepsInv(s: State, a: Action)
    requires Inv(s)
    ensures Inv(Step(s, a))
  {
    match a
    case Begin(req) => BeginKeeps(s, req);
    case Lock(i) => if At(s, i).Begun? && s.advisory == None { LockKeeps(s, i); }
    case SelectToken(i, k) =>
      if At(s, i).HasLock? && k < |s.rows| && s.rows[k] == None && s.db.tokens[k].present
        && s.db.tokens[k].hash == s.txs[i].req.tokenHash {
        if s.db.tokens[k].usedBy.Some? { RollbackKeeps(s, i); } else { SelectKeeps(s, i, k); }
      }
    case CheckExpiry(i) => CheckExpiryKeeps(s, i);
    case CountOrgs(i) => CountOrgsKeeps(s, i);
    case InsertOrg(i) => InsertOrgKeeps(s, i);
    case InsertUser(i) => InsertUserKeeps(s, i);
    case UseToken(i) => UseTokenKeeps(s, i);
    case Commit(i) => if At(s, i).TokenUsed? { CommitKeeps(s, i); }
    case Abort(i) => if At(s, i).Begun? || Holding(At(s, i)) { RollbackKeeps(s, i); }
    case Mint(h, e) => MintKeeps(s, h, e);
    case Delete(k) => DeleteKeeps(s, k);
    case Tick(t) => TickKeeps(s, t);
  }

  lemma {:induction false} RunKeepsInv(now: int, acts: seq<Action>)
    ensures Inv(Run(Initial(now), acts))
    decreases |acts|
  {
    if acts != [] {
      RunKeepsInv(now, acts[..|acts| - 1]);
      StepKeepsInv(Run(Initial(now), acts[..|acts| - 1]), acts[|acts| - 1]);
    }
  }

  // ---------------------------------------------------------------- what it gives

  /** However many transactions interleave, with whatever tokens, at most one commits an organisation. */
  lemma AtMostOneOrg(now: int, acts: seq<Action>, i: nat, j: nat)
    ensures var s := Run(Initial(now), acts);
            |s.db.orgs| <= 1 && |s.db.users| == |s.db.orgs| && (At(s, i).Committed? && At(s, j).Committed? ==> i == j)
  {
    RunKeepsInv(now, acts);
    var s := Run(Initial(now), acts);
    if s.db.orgs != [] { assert TxOk(s, s.db.orgs[0].tx); }
    if At(s, i).Committed? && At(s, j).Committed? { assert TxOk(s, i) && TxOk(s, j); }
  }

  /** A committed transaction consumed exactly one token: its own, unexpired when it looked. */
  lemma CommittedUsedOneToken(now: int, acts: seq<Action>, i: nat)
    requires At(Run(Initial(now), acts), i).Committed?
    ensures var s := Run(Initial(now), acts);
            && LeftBehind(s, i)
            && forall k | 0 <= k < |s.db.tokens| :: s.db.tokens[k].usedBy == Some(i) <==> k == s.txs[i].stage.token
  {
    RunKeepsInv(now, acts);
    var s := Run(Initial(now), acts);
    assert TxOk(s, i);
    forall k | 0 <= k < |s.db.tokens| ensures s.db.tokens[k].usedBy == Some(i) <==> k == s.txs[i].stage.token {
      assert RowOk(s, k);
    }
  }

  /** A transaction that did not commit left no organisation, no user and no consumed token. */
  lemma UncommittedLeavesNothing(now: int, acts: seq<Action>, i: nat)
    requires !At(Run(Initial(now), acts), i).Committed?
    ensures var s := Run(Initial(now), acts);
            && (forall k | 0 <= k < |s.db.orgs| :: s.db.orgs[k].tx != i)
            && (forall k | 0 <= k < |s.db.users| :: s.db.users[k].tx != i)
            && (forall k | 0 <= k < |s.db.tokens| :: s.db.tokens[k].usedBy != Some(i))
  {
    RunKeepsInv(now, acts);
    var s := Run(Initial(now), acts);
    if s.db.orgs != [] { assert TxOk(s, s.db.orgs[0].tx); }
    forall k | 0 <= k < |s.db.tokens| ensures s.db.tokens[k].usedBy != Some(i) { assert RowOk(s, k); }
  }

  /** A consumed token stays consumed, by the same transaction, and what is committed stays. */
  lemma CommittedStays(s: State, a: Action)
    requires Inv(s)
    ensures s.db.orgs <= Step(s, a).db.orgs && s.db.users <= Step(s, a).db.users
    ensures |s.db.tokens| <= |Step(s, a).db.tokens|
    ensures forall k | 0 <= k < |s.db.tokens| && s.db.tokens[k].usedBy.Some? ::
            Step(s, a).db.tokens[k].usedBy == s.db.tokens[k].usedBy
  {
    if a.Commit? && At(s, a.i).TokenUsed? { assert TxOk(s, a.i); }
  }

  /** The holder of the setup lock never waits for a row: no other transaction holds one. */
  lemma HolderNeverWaits(now: int, acts: seq<Action>, i: nat, k: nat)
    requires At(Run(Initial(now), acts), i).HasLock? && k < |Run(Initial(now), acts).rows|
    ensures Run(Initial(now), acts).rows[k] == None
  {
    RunKeepsInv(now, acts);
    var s := Run(Initial(now), acts);
    assert TxOk(s, i) && RowOk(s, k);
    RowLockImpliesSetupLock(s, k);
  }

  lemma RowLockImpliesSetupLock(s: State, k: nat)
    requires Inv(s) && k < |s.rows|
    ensures s.rows[k].Some? ==> s.advisory == s.rows[k] && HasRow(At(s, s.rows[k].value))
  {
    assert RowOk(s, k);
    if s.rows[k].Some? { assert TxOk(s, s.rows[k].value); }
  }

  lemma RunOne(s: State, a: Action)
    ensures Run(s, [a]) == Step(s, a)
  {
    assert [] + [a] == [a];
  }

  /** A transaction that has locked and selected a good token. */
  lemma SelectsToken(s: State, req: Request, k: nat) returns (acts: seq<Action>)
    requires Inv(s) && s.advisory == None && k < |s.rows| && s.rows[k] == None
    requires s.db.tokens[k] == Token(req.tokenHash, s.db.tokens[k].expires, None, true)
    ensures Run(s, acts) == s.(txs := s.txs + [Tx(req, Selected(k), NO_WRITES, 0)], advisory := Some(|s.txs|),
                               rows := s.rows[k := Some(|s.txs|)])
  {
    var i := |s.txs|;
    acts := [Begin(req)];
    RunOne(s, Begin(req));
    acts := acts + [Lock(i)];
    assert Run(s, acts) == s.(txs := s.txs + [Tx(req, HasLock, NO_WRITES, 0)], advisory := Some(i));
    acts := acts + [SelectToken(i, k)];
    assert Run(s, acts).txs == s.txs + [Tx(req, Selected(k), NO_WRITES, 0)];
  }

  /** Transaction `i` stands at stage `g` on the database of `s`, with these writes. */
  predicate Stands(s: State, t: State, i: nat, g: Stage, w: Writes) {
    && i < |s.txs| && i < |t.txs| && t.db == s.db && t.txs[i].req == s.txs[i].req
    && t.txs[i].stage == g && t.txs[i].writes == w
  }

  lemma PassesChecks(s: State, i: nat, k: nat)
    requires i < |s.txs| && s.txs[i].stage == Selected(k) && s.txs[i].writes == NO_WRITES && k < |s.db.tokens|
    requires s.now <= s.db.tokens[k].expires && s.db.orgs == []
    ensures Stands(s, Run(s, [CheckExpiry(i), CountOrgs(i)]), i, Counted(k), NO_WRITES)
  {
    RunOne(s, CheckExpiry(i));
    assert [CheckExpiry(i)] + [CountOrgs(i)] == [CheckExpiry(i), CountOrgs(i)];
  }

  lemma Inserts(s: State, i: nat, k: nat)
    requires i < |s.txs| && s.txs[i].stage == Counted(k) && s.txs[i].writes == NO_WRITES
    ensures var r := s.txs[i].req;
            Stands(s, Run(s, [InsertOrg(i), InsertUser(i)]), i, UserInserted(k),
                   Writes([Org(i, r.orgName)], [User(i, r.adminEmail, r.passwordHash)], []))
  {
    RunOne(s, InsertOrg(i));
    var r := s.txs[i].req;
    assert Stands(s, Step(s, InsertOrg(i)), i, OrgInserted(k), Writes([Org(i, r.orgName)], [], []));
    assert [InsertOrg(i), InsertUser(i)][..1] == [InsertOrg(i)];
  }

  lemma Finishes(s: State, i: nat, k: nat)
    requires i < |s.txs| && s.txs[i].stage == UserInserted(k)
    ensures var t := Run(s, [UseToken(i), Commit(i)]);
            && At(t, i) == Committed(k) && t.db.orgs == s.db.orgs + s.txs[i].writes.orgs
            && t.db.users == s.db.users + s.txs[i].writes.users
  {
    RunOne(s, UseToken(i));
    assert [UseToken(i)] + [Commit(i)] == [UseToken(i), Commit(i)];
  }

  lemma {:induction false} RunOn(s: State, first: seq<Action>, second: seq<Action>)
    ensures Run(s, first + second) == Run(Run(s, first), second)
    decreases |second|
  {
    if second == [] {
      assert first + second == first;
    } else {
      var front := second[..|second| - 1];
      RunOn(s, first, front);
      assert (first + second)[..|first + second| - 1] == first + front;
    }
  }

  /** From there it commits, if the token has not expired and there is no organisation yet. */
  lemma CommitsFrom(s: State, i: nat, k: nat) returns (acts: seq<Action>)
    requires i < |s.txs| && s.txs[i].stage == Selected(k) && s.txs[i].writes == NO_WRITES && k < |s.db.tokens|
    requires s.now <= s.db.tokens[k].expires && s.db.orgs == []
    ensures At(Run(s, acts), i) == Committed(k)
    ensures Run(s, acts).db.orgs == [Org(i, s.txs[i].req.orgName)]
    ensures Run(s, acts).db.users == s.db.users + [User(i, s.txs[i].req.adminEmail, s.txs[i].req.passwordHash)]
  {
    var checks, inserts, rest := [CheckExpiry(i), CountOrgs(i)], [InsertOrg(i), InsertUser(i)],
      [UseToken(i), Commit(i)];
    PassesChecks(s, i, k);
    var t := Run(s, checks);
    Inserts(t, i, k);
    Finishes(Run(t, inserts), i, k);
    acts := checks + (inserts + rest);
    RunOn(s, checks, inserts + rest);
    RunOn(t, inserts, rest);
  }

  /** On an unconfigured appliance with the setup lock free, a good token sets the appliance up. */
  lemma GoodTokenSetsUp(s: State, req: Request, k: nat) returns (first: seq<Action>, second: seq<Action>)
    requires Inv(s) && s.advisory == None && s.db.orgs == [] && k < |s.rows|
    requires s.db.tokens[k] == Token(req.tokenHash, s.db.tokens[k].expires, None, true)
             && s.now <= s.db.tokens[k].expires
    ensures var t := Run(Run(s, first), second);
            && At(t, |s.txs|) == Committed(k) && t.db.orgs == [Org(|s.txs|, req.orgName)]
            && t.db.users == [User(|s.txs|, req.adminEmail, req.passwordHash)]
  {
    RowLockImpliesSetupLock(s, k);
    first := SelectsToken(s, req, k);
    second := CommitsFrom(Run(s, first), |s.txs|, k);
  }

  /** So does one minted now: minting and setting up meet. */
  lemma MintedTokenSetsUp(s: State, req: Request, expires: int) returns (acts: seq<Action>)
    requires Inv(s) && s.advisory == None && s.db.orgs == [] && s.now <= expires
    ensures var t := Run(s, acts);
            && t.db.orgs == [Org(|s.txs|, req.orgName)]
            && t.db.users == [User(|s.txs|, req.adminEmail, req.passwordHash)]
  {
    var mint := Mint(req.tokenHash, expires);
    RunOne(s, mint);
    StepKeepsInv(s, mint);
    var t := Step(s, mint);
    var x, y := GoodTokenSetsUp(t, req, |s.rows|);
    RunOn(s, [mint], x);
    RunOn(s, [mint] + x, y);
    acts := [mint] + x + y;
  }

  // ---------------------------------------------------------------- what is refused

  /** With the lock and its token found, a setup goes on exactly when the token is unconsumed. */
  lemma ConsumedIsRefused(s: State, i: nat, k: nat)
    requires Inv(s) && At(s, i).HasLock? && k < |s.rows| && s.rows[k] == None
    requires s.db.tokens[k].present && s.db.tokens[k].hash == s.txs[i].req.tokenHash
    ensures var t := Step(s, SelectToken(i, k));
            t.db == s.db && At(t, i) == if s.db.tokens[k].usedBy == None then Selected(k) else Aborted
  {
  }

  /** A token that was deleted, or has another hash, is not found. */
  lemma OtherTokensAreNotFound(s: State, i: nat, k: nat)
    requires i < |s.txs| && k < |s.db.tokens|
    requires !s.db.tokens[k].present || s.db.tokens[k].hash != s.txs[i].req.tokenHash
    ensures Step(s, SelectToken(i, k)) == s
  {
  }

  /** Deleting an unlocked token is for good. */
  lemma {:induction false} DeletedStays(s: State, acts: seq<Action>, k: nat)
    requires Inv(s) && k < |s.rows| && s.rows[k] == None
    ensures var t := Run(Step(s, Delete(k)), acts); k < |t.db.tokens| && !t.db.tokens[k].present
    decreases |acts|
  {
    if acts != [] {
      DeletedStays(s, acts[..|acts| - 1], k);
      StepKeepsAbsent(Run(Step(s, Delete(k)), acts[..|acts| - 1]), acts[|acts| - 1], k);
    }
  }

  lemma StepKeepsAbsent(s: State, a: Action, k: nat)
    requires k < |s.db.tokens| && !s.db.tokens[k].present
    ensures k < |Step(s, a).db.tokens| && !Step(s, a).db.tokens[k].present
  {
  }

  /** Then exactly when it has not expired, by the clock of that statement. */
  lemma ExpiredIsRefused(s: State, i: nat)
    requires Inv(s) && At(s, i).Selected?
    ensures var t, k := Step(s, CheckExpiry(i)), At(s, i).token;
            && k < |s.db.tokens| && t.db == s.db
            && (if s.now <= s.db.tokens[k].expires then At(t, i) == Unexpired(k) && t.txs[i].checkedAt == s.now
                else At(t, i) == Aborted)
  {
    assert TxOk(s, i);
  }

  /** Time that passes before the check counts. */
  lemma LateIsRefused(s: State, i: nat, later: int)
    requires Inv(s) && At(s, i).Selected? && At(s, i).token < |s.db.tokens|
    requires s.now <= later && later > s.db.tokens[At(s, i).token].expires
    ensures At(Step(Step(s, Tick(later)), CheckExpiry(i)), i) == Aborted
  {
  }

  /** Then exactly when there is no organisation yet. */
  lemma ConfiguredIsRefused(s: State, i: nat)
    requires Inv(s) && At(s, i).Unexpired?
    ensures var t := Step(s, CountOrgs(i));
            t.db == s.db && At(t, i) == if s.db.orgs == [] then Counted(At(s, i).token) else Aborted
  {
  }

  /** And a refusal lets the setup lock and the row go, so that another attempt can use the same token. */
  lemma RefusalReleases(s: State, i: nat)
    requires Inv(s) && Holding(At(s, i))
    ensures var t := Step(s, Abort(i));
            && t.db == s.db && At(t, i) == Aborted && t.advisory == None
            && forall k | 0 <= k < |t.rows| :: t.rows[k] == None
  {
    assert TxOk(s, i);
    var t := Step(s, Abort(i));
    forall k | 0 <= k < |t.rows| ensures t.rows[k] == None {
      RowLockImpliesSetupLock(s, k);
      assert RowOk(s, k);
    }
  }
}
