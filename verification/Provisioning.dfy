/**
 * Invites and password resets (provisioning.go) as interleaved database transactions: link
 * generation under a per-user advisory lock, and the two ways a single-use token sets a password.
 * Locks are held to commit or rollback, each statement reads committed state, and a transaction's
 * writes show when it commits. The rows of invite_tokens and reset_tokens share one table here.
 */
module Provisioning {
  import opened Base

  datatype Kind = InviteToken | ResetToken

  /** consumed_at: unset, set by a newer link, or set together with password write number `write`. */
  datatype Use = Open | Superseded | Spent(write: nat)

  datatype Token = Token(kind: Kind, user: nat, hash: string, expires: int, use: Use)

  datatype User = User(password: Option<string>, deleted: bool)

  /** A committed password write: which token backed it, and what it replaced. */
  datatype Write = Write(token: nat, user: nat, before: Option<string>, after: string, checkedAt: int)

  datatype Job = Generate(user: nat, hash: string) | Redeem(kind: Kind, hash: string, password: string)

  /** How far a transaction has come. */
  datatype Stage =
    | Begun
    | GenLocked                      // Generate: holds the user's advisory lock
    | Invalidating(todo: set<nat>)   // rows its UPDATE found and has not reached
    | Inserted(expires: int)
    | TokenRead(token: nat)          // Redeem: token row locked, unconsumed
    | TokenFresh(token: nat)
    | UserRead(token: nat)           // user row locked, state checked
    | PasswordSet(token: nat)
    | TokenSpent(token: nat)
    | Committed
    | Aborted

  datatype Tx = Tx(job: Job, stage: Stage, checkedAt: int)

  /**
   * `rowLock`, `userLock` and `genLock` name the transaction holding each token row, user row and
   * advisory lock. `latest` is the newest committed reset link of each user and `log` the committed
   * password writes; the program sees neither.
   */
  datatype State = State(
    tokens: seq<Token>, users: seq<User>, txs: seq<Tx>,
    rowLock: seq<Option<nat>>, userLock: seq<Option<nat>>, genLock: seq<Option<nat>>,
    latest: seq<Option<nat>>, log: seq<Write>, now: int)

  datatype Action =
    | Begin(job: Job)
    | LockUserLinks(i: nat)
    | StartInvalidate(i: nat)
    | InvalidateRow(i: nat, token: nat)
    | InsertLink(i: nat)
    | SelectToken(i: nat, token: nat)
    | CheckExpiry(i: nat)
    | SelectUser(i: nat)
    | SetPassword(i: nat)
    | SpendToken(i: nat)
    | Commit(i: nat)
    | Abort(i: nat)
    | AddUser(row: User)
    | MintInvite(user: nat, hash: string, expires: int)
    | Deactivate(user: nat)
    | ChangePassword(user: nat, password: string)
    | Tick(now: int)

  const RESET_TOKEN_TTL := 3600 * 1_000_000_000

  function Initial(now: int): State { State([], [], [], [], [], [], [], [], now) }

  // ---------------------------------------------------------------- stages

  predicate Generating(t: Tx) { t.job.Generate? && (t.stage.GenLocked? || t.stage.Invalidating? || t.stage.Inserted?) }

  predicate HasToken(t: Tx) {
    t.job.Redeem? && (t.stage.TokenRead? || t.stage.TokenFresh? || t.stage.UserRead? || t.stage.PasswordSet?
                      || t.stage.TokenSpent?)
  }

  predicate HasUser(t: Tx) { t.job.Redeem? && (t.stage.UserRead? || t.stage.PasswordSet? || t.stage.TokenSpent?) }

  predicate Ended(t: Tx) { t.stage.Committed? || t.stage.Aborted? }

  function At(s: State, i: nat): Tx { if i < |s.txs| then s.txs[i] else Tx(Generate(0, ""), Aborted, 0) }

  function Moved(s: State, i: nat, g: Stage): State
    requires i < |s.txs|
  {
    s.(txs := s.txs[i := s.txs[i].(stage := g)])
  }

  function Freed(locks: seq<Option<nat>>, i: nat): seq<Option<nat>> {
    seq(|locks|, k requires 0 <= k < |locks| => if locks[k] == Some(i) then None else locks[k])
  }

  /** Transaction `i` ends: everything it holds is let go. */
  function Ending(s: State, i: nat, g: Stage): State
    requires i < |s.txs|
  {
    Moved(s, i, g).(rowLock := Freed(s.rowLock, i), userLock := Freed(s.userLock, i), genLock := Freed(s.genLock, i))
  }

  // ---------------------------------------------------------------- statements

  predicate Free(locks: seq<Option<nat>>, k: nat) { k < |locks| && locks[k] == None }

  predicate IsOpenLink(t: Token, user: nat) { t.kind == ResetToken && t.user == user && t.use == Open }

  /** The rows the invalidating UPDATE finds when it starts. */
  function OpenLinks(tokens: seq<Token>, user: nat): set<nat> {
    set k: nat | k < |tokens| && IsOpenLink(tokens[k], user)
  }

  /** The UPDATE reaches a row: it waits for its lock, then looks at its condition again. */
  function Invalidated(s: State, i: nat, k: nat): State
    requires i < |s.txs| && s.txs[i].job.Generate? && s.txs[i].stage.Invalidating? && k < |s.tokens| && k < |s.rowLock|
  {
    var s' := Moved(s, i, Invalidating(s.txs[i].stage.todo - {k}));
    if IsOpenLink(s.tokens[k], s.txs[i].job.user) then s'.(rowLock := s.rowLock[k := Some(i)]) else s'
  }

  /** The rows `i` updated become superseded; its new link is added. */
  function LinkCommitted(s: State, i: nat): State
    requires i < |s.txs| && s.txs[i].job.Generate? && s.txs[i].stage.Inserted? && s.txs[i].job.user < |s.latest|
             && |s.rowLock| == |s.tokens|
  {
    var j := s.txs[i].job;
    var marked := seq(|s.tokens|, k requires 0 <= k < |s.tokens| =>
      if s.rowLock[k] == Some(i) then s.tokens[k].(use := Superseded) else s.tokens[k]);
    var e := Ending(s, i, Committed);
    e.(tokens := marked + [Token(ResetToken, j.user, j.hash, s.txs[i].stage.expires, Open)],
       rowLock := e.rowLock + [None],
       latest := s.latest[j.user := Some(|s.tokens|)])
  }

  /** The password and the token's consumption become visible together. */
  function RedeemCommitted(s: State, i: nat): State
    requires i < |s.txs| && HasToken(s.txs[i]) && s.txs[i].stage.token < |s.tokens|
    requires s.tokens[s.txs[i].stage.token].user < |s.users|
  {
    var t := s.txs[i];
    var k := t.stage.token;
    var u := s.tokens[k].user;
    Ending(s, i, Committed).(
      tokens := s.tokens[k := s.tokens[k].(use := Spent(|s.log|))],
      users := s.users[u := s.users[u].(password := Some(t.job.password))],
      log := s.log + [Write(k, u, s.users[u].password, t.job.password, t.checkedAt)])
  }

  function CheckUser(s: State, i: nat): State
    requires i < |s.txs| && s.txs[i].job.Redeem? && s.txs[i].stage.TokenFresh? && s.txs[i].stage.token < |s.tokens|
    requires s.tokens[s.txs[i].stage.token].user < |s.users|
  {
    var u := s.tokens[s.txs[i].stage.token].user;
    if !Free(s.userLock, u) then s
    else if s.users[u].deleted then Ending(s, i, Aborted)
    else if s.txs[i].job.kind == InviteToken && s.users[u].password.Some? then Ending(s, i, Aborted)
    else Moved(s, i, UserRead(s.txs[i].stage.token)).(userLock := s.userLock[u := Some(i)])
  }

  /** One step; a statement that is not next, or that must wait for a lock, changes nothing. */
  function Step(s: State, a: Action): State {
    match a
    case Begin(job) => s.(txs := s.txs + [Tx(job, Begun, 0)])
    case LockUserLinks(i) =>
      if At(s, i).stage.Begun? && At(s, i).job.Generate? && Free(s.genLock, At(s, i).job.user)
      then Moved(s, i, GenLocked).(genLock := s.genLock[At(s, i).job.user := Some(i)]) else s
    case StartInvalidate(i) =>
      if At(s, i).stage.GenLocked? && At(s, i).job.Generate?
      then Moved(s, i, Invalidating(OpenLinks(s.tokens, At(s, i).job.user))) else s
    case InvalidateRow(i, k) =>
      if At(s, i).job.Generate? && At(s, i).stage.Invalidating? && k in At(s, i).stage.todo && Free(s.rowLock, k)
        && k < |s.tokens|
      then Invalidated(s, i, k) else s
    case InsertLink(i) =>
      if At(s, i).stage == Invalidating({}) then Moved(s, i, Inserted(s.now + RESET_TOKEN_TTL)) else s
    case SelectToken(i, k) =>
      if !At(s, i).stage.Begun? || !At(s, i).job.Redeem? || !Free(s.rowLock, k) || k >= |s.tokens| then s
      else if s.tokens[k].kind != At(s, i).job.kind || s.tokens[k].hash != At(s, i).job.hash then s
      else if s.tokens[k].use != Open then Ending(s, i, Aborted)
      else Moved(s, i, TokenRead(k)).(rowLock := s.rowLock[k := Some(i)])
    case CheckExpiry(i) =>
      if !At(s, i).stage.TokenRead? || At(s, i).stage.token >= |s.tokens| then s
      else if s.now > s.tokens[At(s, i).stage.token].expires then Ending(s, i, Aborted)
      else s.(txs := s.txs[i := s.txs[i].(stage := TokenFresh(At(s, i).stage.token), checkedAt := s.now)])
    case SelectUser(i) =>
      if At(s, i).job.Redeem? && At(s, i).stage.TokenFresh? && At(s, i).stage.token < |s.tokens|
        && s.tokens[At(s, i).stage.token].user < |s.users|
      then CheckUser(s, i) else s
    case SetPassword(i) => if At(s, i).stage.UserRead? then Moved(s, i, PasswordSet(At(s, i).stage.token)) else s
    case SpendToken(i) => if At(s, i).stage.PasswordSet? then Moved(s, i, TokenSpent(At(s, i).stage.token)) else s
    case Commit(i) =>
      if At(s, i).job.Generate? && At(s, i).stage.Inserted? && At(s, i).job.user < |s.latest|
        && |s.rowLock| == |s.tokens| then LinkCommitted(s, i)
      else if At(s, i).job.Redeem? && At(s, i).stage.TokenSpent? && At(s, i).stage.token < |s.tokens|
        && s.tokens[At(s, i).stage.token].user < |s.users|
      then RedeemCommitted(s, i) else s
    case Abort(i) => if !Ended(At(s, i)) then Ending(s, i, Aborted) else s
    case AddUser(u) => s.(users := s.users + [u], userLock := s.userLock + [None], genLock := s.genLock + [None],
                          latest := s.latest + [None])
    case MintInvite(u, h, e) =>
      if u < |s.users| then s.(tokens := s.tokens + [Token(InviteToken, u, h, e, Open)],
                               rowLock := s.rowLock + [None]) else s
    case Deactivate(u) =>
      if u < |s.users| && Free(s.userLock, u) then s.(users := s.users[u := s.users[u].(deleted := true)]) else s
    case ChangePassword(u, p) =>
      if u < |s.users| && Free(s.userLock, u) then s.(users := s.users[u := s.users[u].(password := Some(p))]) else s
    case Tick(t) => if t >= s.now then s.(now := t) else s
  }

  function Run(s: State, acts: seq<Action>): State
    decreases |acts|
  {
    if acts == [] then s else Step(Run(s, acts[..|acts| - 1]), acts[|acts| - 1])
  }

  // ---------------------------------------------------------------- the invariant

  predicate Sized(s: State) {
    |s.rowLock| == |s.tokens| && |s.userLock| == |s.users| && |s.genLock| == |s.users| && |s.latest| == |s.users|
  }

  /** Transaction `i` locked token row `k`. */
  predicate OwnsRow(s: State, i: nat, k: nat)
    requires k < |s.tokens|
  {
    var t := At(s, i);
    if t.job.Redeem? then HasToken(t) && t.stage.token == k
    else
      && (t.stage.Invalidating? || t.stage.Inserted?)
      && s.tokens[k].kind == ResetToken && s.tokens[k].user == t.job.user
  }

  /** A generator of user `u`'s links has got as far as its UPDATE. */
  predicate Invalidates(t: Tx) { Generating(t) && !t.stage.GenLocked? }

  predicate TokenOk(s: State, k: nat)
    requires Sized(s) && k < |s.tokens|
  {
    var t := s.tokens[k];
    && t.user < |s.users|
    && (s.rowLock[k].Some? ==> t.use == Open && OwnsRow(s, s.rowLock[k].value, k))
    && (t.use.Spent? ==> t.use.write < |s.log| && s.log[t.use.write].token == k)
    && (t.kind == ResetToken ==> LinkOk(s, k))
  }

  /** An open link is its user's newest, and a generator under way still knows of it. */
  predicate LinkOk(s: State, k: nat)
    requires Sized(s) && k < |s.tokens| && s.tokens[k].user < |s.users|
  {
    var t := s.tokens[k];
    && s.latest[t.user].Some? && k <= s.latest[t.user].value
    && (t.use == Open ==> s.latest[t.user] == Some(k))
    && (t.use == Open && s.genLock[t.user].Some? && Invalidates(At(s, s.genLock[t.user].value)) ==>
          s.rowLock[k] == s.genLock[t.user] || k in Todo(At(s, s.genLock[t.user].value)))
  }

  function Todo(t: Tx): set<nat> { if t.stage.Invalidating? then t.stage.todo else {} }

  predicate UserOk(s: State, u: nat)
    requires Sized(s) && u < |s.users|
  {
    && (s.userLock[u].Some? ==>
          var t := At(s, s.userLock[u].value);
          HasUser(t) && t.stage.token < |s.tokens| && s.tokens[t.stage.token].user == u)
    && (s.genLock[u].Some? ==> var t := At(s, s.genLock[u].value); Generating(t) && t.job.user == u)
    && (s.latest[u].Some? ==> s.latest[u].value < |s.tokens|)
  }

  /** A redeeming transaction holds its own open token, and then its token's user, in a fit state. */
  predicate RedeemOk(s: State, i: nat)
    requires Sized(s) && i < |s.txs| && HasToken(s.txs[i])
  {
    var t := s.txs[i];
    var k := t.stage.token;
    && k < |s.tokens| && s.rowLock[k] == Some(i) && s.tokens[k].kind == t.job.kind && s.tokens[k].hash == t.job.hash
    && (!t.stage.TokenRead? ==> t.checkedAt <= s.tokens[k].expires)
    && (HasUser(t) ==> HoldsUser(s, i, s.tokens[k].user))
  }

  predicate HoldsUser(s: State, i: nat, u: nat)
    requires Sized(s) && i < |s.txs| && s.txs[i].job.Redeem?
  {
    && u < |s.users| && s.userLock[u] == Some(i) && !s.users[u].deleted
    && (s.txs[i].job.kind == InviteToken ==> s.users[u].password == None)
  }

  predicate TxOk(s: State, i: nat)
    requires Sized(s) && i < |s.txs|
  {
    var t := s.txs[i];
    && (t.stage.Begun? || Ended(t) || Generating(t) || HasToken(t))
    && (Generating(t) ==> t.job.user < |s.users| && s.genLock[t.job.user] == Some(i))
    && (HasToken(t) ==> RedeemOk(s, i))
  }

  /** A password write was backed by one token, spent on that write, of that user, in time. */
  predicate LogOk(s: State, w: nat)
    requires w < |s.log|
  {
    var e := s.log[w];
    && e.token < |s.tokens| && s.tokens[e.token].use == Spent(w) && s.tokens[e.token].user == e.user
    && e.checkedAt <= s.tokens[e.token].expires
    && (s.tokens[e.token].kind == InviteToken ==> e.before == None)
  }

  predicate TokensOk(s: State) { Sized(s) && forall k | 0 <= k < |s.tokens| :: TokenOk(s, k) }
  predicate UsersOk(s: State) { Sized(s) && forall u | 0 <= u < |s.users| :: UserOk(s, u) }
  predicate TxsOk(s: State) { Sized(s) && forall i | 0 <= i < |s.txs| :: TxOk(s, i) }
  predicate LogsOk(s: State) { forall w | 0 <= w < |s.log| :: LogOk(s, w) }

  predicate Inv(s: State) { TokensOk(s) && UsersOk(s) && TxsOk(s) && LogsOk(s) }

  // ---------------------------------------------------------------- every step keeps it

  /** A step that changes one transaction's record and no more. */
  lemma OwnStatement(s: State, i: nat, t: Tx)
    requires Inv(s) && i < |s.txs|
    requires t.job == s.txs[i].job && Generating(t) == Generating(s.txs[i]) && HasToken(t) == HasToken(s.txs[i])
             && HasUser(t) == HasUser(s.txs[i])
    requires HasToken(t) ==> t.stage.token == s.txs[i].stage.token
    requires Invalidates(s.txs[i]) ==> Invalidates(t) && Todo(s.txs[i]) == Todo(t)
    requires Invalidates(t) && !Invalidates(s.txs[i]) ==> Todo(t) == OpenLinks(s.tokens, t.job.user)
    requires TxOk(s.(txs := s.txs[i := t]), i)
    ensures Inv(s.(txs := s.txs[i := t]))
  {
    var s' := s.(txs := s.txs[i := t]);
    forall k | 0 <= k < |s'.tokens| ensures TokenOk(s', k) { assert TokenOk(s, k) && UserOk(s, s.tokens[k].user); }
    forall u | 0 <= u < |s'.users| ensures UserOk(s', u) { assert UserOk(s, u); }
    forall j | 0 <= j < |s'.txs| ensures TxOk(s', j) { assert TxOk(s, j); }
    SameLog(s, s');
  }

  lemma SameLog(s: State, s': State)
    requires LogsOk(s) && s'.log == s.log && s'.tokens == s.tokens
    ensures LogsOk(s')
  {
    forall w | 0 <= w < |s'.log| ensures LogOk(s', w) { assert LogOk(s, w); }
  }

  lemma BeginKeeps(s: State, job: Job)
    requires Inv(s)
    ensures Inv(Step(s, Begin(job)))
  {
    var s' := Step(s, Begin(job));
    forall k | 0 <= k < |s'.tokens| ensures TokenOk(s', k) { assert TokenOk(s, k) && UserOk(s, s.tokens[k].user); }
    forall u | 0 <= u < |s'.users| ensures UserOk(s', u) { assert UserOk(s, u); }
    forall j | 0 <= j < |s'.txs| ensures TxOk(s', j) { if j < |s.txs| { assert TxOk(s, j); } }
    SameLog(s, s');
  }

  lemma LockUserLinksKeeps(s: State, i: nat)
    requires Inv(s) && i < |s.txs| && s.txs[i].stage.Begun? && s.txs[i].job.Generate?
             && Free(s.genLock, s.txs[i].job.user)
    ensures Inv(Moved(s, i, GenLocked).(genLock := s.genLock[s.txs[i].job.user := Some(i)]))
  {
    var s' := Moved(s, i, GenLocked).(genLock := s.genLock[s.txs[i].job.user := Some(i)]);
    forall k | 0 <= k < |s'.tokens| ensures TokenOk(s', k) { assert TokenOk(s, k) && UserOk(s, s.tokens[k].user); }
    forall u | 0 <= u < |s'.users| ensures UserOk(s', u) { assert UserOk(s, u); }
    forall j | 0 <= j < |s'.txs| ensures TxOk(s', j) { assert TxOk(s, j); }
    SameLog(s, s');
  }

  lemma StartInvalidateKeeps(s: State, i: nat)
    requires Inv(s)
    ensures Inv(Step(s, StartInvalidate(i)))
  {
    if At(s, i).stage.GenLocked? && At(s, i).job.Generate? {
      assert TxOk(s, i);
      OwnStatement(s, i, s.txs[i].(stage := Invalidating(OpenLinks(s.tokens, s.txs[i].job.user))));
    }
  }

  lemma InvalidateRowTokens(s: State, i: nat, k: nat)
    requires Inv(s) && i < |s.txs| && s.txs[i].job.Generate? && s.txs[i].stage.Invalidating? && k < |s.tokens|
             && Free(s.rowLock, k)
    ensures TokensOk(Invalidated(s, i, k))
  {
    var s' := Invalidated(s, i, k);
    assert TxOk(s, i);
    forall m | 0 <= m < |s'.tokens| ensures TokenOk(s', m) { assert TokenOk(s, m) && UserOk(s, s.tokens[m].user); }
  }

  lemma InvalidateRowKeeps(s: State, i: nat, k: nat)
    requires Inv(s) && i < |s.txs| && s.txs[i].job.Generate? && s.txs[i].stage.Invalidating? && k < |s.tokens|
             && Free(s.rowLock, k)
    ensures Inv(Invalidated(s, i, k))
  {
    var s' := Invalidated(s, i, k);
    InvalidateRowTokens(s, i, k);
    forall u | 0 <= u < |s'.users| ensures UserOk(s', u) { assert UserOk(s, u); }
    forall j | 0 <= j < |s'.txs| ensures TxOk(s', j) { assert TxOk(s, j); }
    SameLog(s, s');
  }

  lemma InsertLinkKeeps(s: State, i: nat)
    requires Inv(s)
    ensures Inv(Step(s, InsertLink(i)))
  {
    if At(s, i).stage == Invalidating({}) {
      assert TxOk(s, i);
      OwnStatement(s, i, s.txs[i].(stage := Inserted(s.now + RESET_TOKEN_TTL)));
    }
  }

  lemma SelectTokenKeeps(s: State, i: nat, k: nat)
    requires Inv(s) && i < |s.txs| && s.txs[i].stage.Begun? && s.txs[i].job.Redeem? && k < |s.tokens|
             && Free(s.rowLock, k)
    requires s.tokens[k].kind == s.txs[i].job.kind && s.tokens[k].hash == s.txs[i].job.hash && s.tokens[k].use == Open
    ensures Inv(Moved(s, i, TokenRead(k)).(rowLock := s.rowLock[k := Some(i)]))
  {
    var s' := Moved(s, i, TokenRead(k)).(rowLock := s.rowLock[k := Some(i)]);
    forall m | 0 <= m < |s'.tokens| ensures TokenOk(s', m) { assert TokenOk(s, m) && UserOk(s, s.tokens[m].user); }
    forall u | 0 <= u < |s'.users| ensures UserOk(s', u) { assert UserOk(s, u); }
    forall j | 0 <= j < |s'.txs| ensures TxOk(s', j) { assert TxOk(s, j); }
    SameLog(s, s');
  }

  lemma CheckExpiryKeeps(s: State, i: nat)
    requires Inv(s)
    ensures Inv(Step(s, CheckExpiry(i)))
  {
    if At(s, i).stage.TokenRead? {
      assert TxOk(s, i);
      if s.now > s.tokens[s.txs[i].stage.token].expires {
        EndingKeeps(s, i);
      } else {
        OwnStatement(s, i, s.txs[i].(stage := TokenFresh(s.txs[i].stage.token), checkedAt := s.now));
      }
    }
  }

  lemma SelectUserKeeps(s: State, i: nat, u: nat)
    requires Inv(s) && i < |s.txs| && s.txs[i].job.Redeem? && s.txs[i].stage.TokenFresh?
             && s.txs[i].stage.token < |s.tokens|
    requires u == s.tokens[s.txs[i].stage.token].user && u < |s.users| && Free(s.userLock, u) && !s.users[u].deleted
    requires s.txs[i].job.kind == InviteToken ==> s.users[u].password == None
    ensures Inv(Moved(s, i, UserRead(s.txs[i].stage.token)).(userLock := s.userLock[u := Some(i)]))
  {
    var s' := Moved(s, i, UserRead(s.txs[i].stage.token)).(userLock := s.userLock[u := Some(i)]);
    assert TxOk(s, i);
    forall k | 0 <= k < |s'.tokens| ensures TokenOk(s', k) { assert TokenOk(s, k) && UserOk(s, s.tokens[k].user); }
    forall v | 0 <= v < |s'.users| ensures UserOk(s', v) { assert UserOk(s, v); }
    forall j | 0 <= j < |s'.txs| ensures TxOk(s', j) { assert TxOk(s, j); }
    SameLog(s, s');
  }

  lemma CheckUserKeeps(s: State, i: nat)
    requires Inv(s)
    ensures Inv(Step(s, SelectUser(i)))
  {
    if At(s, i).job.Redeem? && At(s, i).stage.TokenFresh? && At(s, i).stage.token < |s.tokens|
      && s.tokens[At(s, i).stage.token].user < |s.users| {
      var u := s.tokens[s.txs[i].stage.token].user;
      EndingKeeps(s, i);
      if Free(s.userLock, u) && !s.users[u].deleted
         && (s.txs[i].job.kind == InviteToken ==> s.users[u].password == None) {
        SelectUserKeeps(s, i, u);
      }
    }
  }

  lemma SetPasswordKeeps(s: State, i: nat)
    requires Inv(s)
    ensures Inv(Step(s, SetPassword(i))) && Inv(Step(s, SpendToken(i)))
  {
    if i < |s.txs| { assert TxOk(s, i); }
    if At(s, i).stage.UserRead? { OwnStatement(s, i, s.txs[i].(stage := PasswordSet(s.txs[i].stage.token))); }
    if At(s, i).stage.PasswordSet? { OwnStatement(s, i, s.txs[i].(stage := TokenSpent(s.txs[i].stage.token))); }
  }

  lemma EndingKeeps(s: State, i: nat)
    requires Inv(s) && i < |s.txs|
    ensures Inv(Ending(s, i, Aborted))
  {
    var s' := Ending(s, i, Aborted);
    forall k | 0 <= k < |s'.tokens| ensures TokenOk(s', k) { assert TokenOk(s, k) && UserOk(s, s.tokens[k].user); }
    forall u | 0 <= u < |s'.users| ensures UserOk(s', u) { assert UserOk(s, u); }
    forall j | 0 <= j < |s'.txs| ensures TxOk(s', j) { assert TxOk(s, j); }
    SameLog(s, s');
  }

  /** When a generator is done, every open link of its user is among the rows it locked. */
  lemma LinkCommitTokens(s: State, i: nat)
    requires Inv(s) && i < |s.txs| && s.txs[i].job.Generate? && s.txs[i].stage.Inserted?
             && s.txs[i].job.user < |s.latest|
    ensures TokensOk(LinkCommitted(s, i))
  {
    var s' := LinkCommitted(s, i);
    assert TxOk(s, i);
    forall k | 0 <= k < |s'.tokens| ensures TokenOk(s', k) {
      if k < |s.tokens| { assert TokenOk(s, k) && UserOk(s, s.tokens[k].user); }
    }
  }

  lemma LinkCommitKeeps(s: State, i: nat)
    requires Inv(s) && i < |s.txs| && s.txs[i].job.Generate? && s.txs[i].stage.Inserted?
             && s.txs[i].job.user < |s.latest|
    ensures Inv(LinkCommitted(s, i))
  {
    var s' := LinkCommitted(s, i);
    LinkCommitTokens(s, i);
    forall u | 0 <= u < |s'.users| ensures UserOk(s', u) { assert UserOk(s, u); }
    forall j | 0 <= j < |s'.txs| ensures TxOk(s', j) { assert TxOk(s, j); }
    forall w | 0 <= w < |s'.log| ensures LogOk(s', w) { assert LogOk(s, w) && TokenOk(s, s.log[w].token); }
  }

  lemma RedeemCommitTokens(s: State, i: nat)
    requires Inv(s) && i < |s.txs| && s.txs[i].job.Redeem? && s.txs[i].stage.TokenSpent?
             && s.txs[i].stage.token < |s.tokens|
    requires s.tokens[s.txs[i].stage.token].user < |s.users|
    ensures TokensOk(RedeemCommitted(s, i))
  {
    var s' := RedeemCommitted(s, i);
    assert TxOk(s, i);
    forall k | 0 <= k < |s'.tokens| ensures TokenOk(s', k) { assert TokenOk(s, k) && UserOk(s, s.tokens[k].user); }
  }

  lemma RedeemCommitKeeps(s: State, i: nat)
    requires Inv(s) && i < |s.txs| && s.txs[i].job.Redeem? && s.txs[i].stage.TokenSpent?
             && s.txs[i].stage.token < |s.tokens|
    requires s.tokens[s.txs[i].stage.token].user < |s.users|
    ensures Inv(RedeemCommitted(s, i))
  {
    var s' := RedeemCommitted(s, i);
    assert TxOk(s, i) && TokenOk(s, s.txs[i].stage.token);
    RedeemCommitTokens(s, i);
    forall u | 0 <= u < |s'.users| ensures UserOk(s', u) { assert UserOk(s, u); }
    forall j | 0 <= j < |s'.txs| ensures TxOk(s', j) { assert TxOk(s, j); }
    forall w | 0 <= w < |s'.log| ensures LogOk(s', w) { if w < |s.log| { assert LogOk(s, w); } }
  }

  lemma AddUserKeeps(s: State, row: User)
    requires Inv(s)
    ensures Inv(Step(s, AddUser(row)))
  {
    var s' := Step(s, AddUser(row));
    forall k | 0 <= k < |s'.tokens| ensures TokenOk(s', k) { assert TokenOk(s, k); }
    forall u | 0 <= u < |s'.users| ensures UserOk(s', u) { if u < |s.users| { assert UserOk(s, u); } }
    forall j | 0 <= j < |s'.txs| ensures TxOk(s', j) { assert TxOk(s, j); }
    SameLog(s, s');
  }

  lemma MintInviteKeeps(s: State, u: nat, h: string, e: int)
    requires Inv(s) && u < |s.users|
    ensures Inv(Step(s, MintInvite(u, h, e)))
  {
    var s' := Step(s, MintInvite(u, h, e));
    forall k | 0 <= k < |s'.tokens| ensures TokenOk(s', k) { if k < |s.tokens| { assert TokenOk(s, k); } }
    forall v | 0 <= v < |s'.users| ensures UserOk(s', v) { assert UserOk(s, v); }
    forall j | 0 <= j < |s'.txs| ensures TxOk(s', j) { assert TxOk(s, j); }
    forall w | 0 <= w < |s'.log| ensures LogOk(s', w) { assert LogOk(s, w); }
  }

  /** Someone else's update of a user row that no redeeming transaction has locked. */
  lemma UserUpdateKeeps(s: State, u: nat, row: User)
    requires Inv(s) && u < |s.users| && Free(s.userLock, u)
    ensures Inv(s.(users := s.users[u := row]))
  {
    var s' := s.(users := s.users[u := row]);
    forall k | 0 <= k < |s'.tokens| ensures TokenOk(s', k) { assert TokenOk(s, k); }
    forall v | 0 <= v < |s'.users| ensures UserOk(s', v) { assert UserOk(s, v); }
    forall j | 0 <= j < |s'.txs| ensures TxOk(s', j) { assert TxOk(s, j); }
    SameLog(s, s');
  }

  lemma TickKeeps(s: State, t: int)
    requires Inv(s)
    ensures Inv(s.(now := t))
  {
    var s' := s.(now := t);
    forall k | 0 <= k < |s'.tokens| ensures TokenOk(s', k) { assert TokenOk(s, k); }
    forall v | 0 <= v < |s'.users| ensures UserOk(s', v) { assert UserOk(s, v); }
    forall j | 0 <= j < |s'.txs| ensures TxOk(s', j) { assert TxOk(s, j); }
    SameLog(s, s');
  }

  lemma CommitKeeps(s: State, i: nat)
    requires Inv(s)
    ensures Inv(Step(s, Commit(i)))
  {
    var t := At(s, i);
    if t.job.Generate? && t.stage.Inserted? && t.job.user < |s.latest| { LinkCommitKeeps(s, i); }
    if t.job.Redeem? && t.stage.TokenSpent? && t.stage.token < |s.tokens|
      && s.tokens[t.stage.token].user < |s.users| { RedeemCommitKeeps(s, i); }
  }

  lemma StepKeepsInv(s: State, a: Action)
    requires Inv(s)
    ensures Inv(Step(s, a))
  {
    match a
    case Begin(job) => BeginKeeps(s, job);
    case LockUserLinks(i) =>
      if At(s, i).stage.Begun? && At(s, i).job.Generate? && Free(s.genLock, At(s, i).job.user) {
        LockUserLinksKeeps(s, i);
      }
    case StartInvalidate(i) => StartInvalidateKeeps(s, i);
    case InvalidateRow(i, k) =>
      if At(s, i).job.Generate? && At(s, i).stage.Invalidating? && k in At(s, i).stage.todo
        && Free(s.rowLock, k) { InvalidateRowKeeps(s, i, k); }
    case InsertLink(i) => InsertLinkKeeps(s, i);
    case SelectToken(i, k) => SelectKeeps(s, i, k);
    case CheckExpiry(i) => CheckExpiryKeeps(s, i);
    case SelectUser(i) => CheckUserKeeps(s, i);
    case SetPassword(i) => SetPasswordKeeps(s, i);
    case SpendToken(i) => SetPasswordKeeps(s, i);
    case Commit(i) => CommitKeeps(s, i);
    case Abort(i) => if !Ended(At(s, i)) { EndingKeeps(s, i); }
    case AddUser(u) => AddUserKeeps(s, u);
    case MintInvite(u, h, e) => if u < |s.users| { MintInviteKeeps(s, u, h, e); }
    case Deactivate(u) =>
      if u < |s.users| && Free(s.userLock, u) { UserUpdateKeeps(s, u, s.users[u].(deleted := true)); }
    case ChangePassword(u, p) =>
      if u < |s.users| && Free(s.userLock, u) { UserUpdateKeeps(s, u, s.users[u].(password := Some(p))); }
    case Tick(t) => TickKeeps(s, t);
  }

  lemma SelectKeeps(s: State, i: nat, k: nat)
    requires Inv(s)
    ensures Inv(Step(s, SelectToken(i, k)))
  {
    if At(s, i).stage.Begun? && At(s, i).job.Redeem? && Free(s.rowLock, k) {
      EndingKeeps(s, i);
      if s.tokens[k].kind == s.txs[i].job.kind && s.tokens[k].hash == s.txs[i].job.hash && s.tokens[k].use == Open {
        SelectTokenKeeps(s, i, k);
      }
    }
  }

  lemma {:induction false} RunKeepsInv(s: State, acts: seq<Action>)
    requires Inv(s)
    ensures Inv(Run(s, acts))
    decreases |acts|
  {
    if acts != [] {
      RunKeepsInv(s, acts[..|acts| - 1]);
      StepKeepsInv(Run(s, acts[..|acts| - 1]), acts[|acts| - 1]);
    }
  }

  lemma InitiallyOk(now: int)
    ensures Inv(Initial(now))
  {
  }

  // ---------------------------------------------------------------- what it gives

  /** In every interleaving a user has at most one unconsumed reset link, the newest one. */
  lemma OneOpenLink(now: int, acts: seq<Action>, k: nat, m: nat)
    requires var s := Run(Initial(now), acts);
             k < m < |s.tokens| && s.tokens[k].kind == s.tokens[m].kind == ResetToken
               && s.tokens[k].user == s.tokens[m].user
    ensures Run(Initial(now), acts).tokens[k].use != Open
  {
    InitiallyOk(now);
    RunKeepsInv(Initial(now), acts);
    var s := Run(Initial(now), acts);
    assert TokenOk(s, k) && TokenOk(s, m);
  }

  /** The same row, consumed or not. */
  predicate SameToken(t: Token, t': Token) { t' == t.(use := t'.use) }

  /** A step keeps every token's identity, and a consumed token as it is. */
  lemma StepKeepsTokens(s: State, a: Action, k: nat)
    requires Inv(s) && k < |s.tokens|
    ensures var s' := Step(s, a);
            && k < |s'.tokens| && SameToken(s.tokens[k], s'.tokens[k])
            && (s.tokens[k].use != Open ==> s'.tokens[k].use == s.tokens[k].use)
            && s.log <= s'.log
  {
    assert TokenOk(s, k);
    if a.Commit? && a.i < |s.txs| { assert TxOk(s, a.i); CommitTokens(s, a.i, k); }
  }

  lemma CommitTokens(s: State, i: nat, k: nat)
    requires Inv(s) && k < |s.tokens| && TokenOk(s, k) && i < |s.txs| && TxOk(s, i)
    ensures var s' := Step(s, Commit(i));
            && k < |s'.tokens| && SameToken(s.tokens[k], s'.tokens[k])
            && (s.tokens[k].use != Open ==> s'.tokens[k].use == s.tokens[k].use)
            && s.log <= s'.log
  {
    if HasToken(s.txs[i]) { assert TokenOk(s, s.txs[i].stage.token); }
  }

  lemma {:induction false} RunKeepsTokens(s: State, acts: seq<Action>, k: nat)
    requires Inv(s) && k < |s.tokens|
    ensures var s' := Run(s, acts);
            k < |s'.tokens| && SameToken(s.tokens[k], s'.tokens[k])
              && (s.tokens[k].use != Open ==> s'.tokens[k].use == s.tokens[k].use)
    decreases |acts|
  {
    if acts != [] {
      var front := acts[..|acts| - 1];
      RunKeepsTokens(s, front, k);
      RunKeepsInv(s, front);
      StepKeepsTokens(Run(s, front), acts[|acts| - 1], k);
    }
  }

  /** Once a newer link of the same user has committed, an earlier one is never spent any more. */
  lemma EarlierLinksAreDead(now: int, acts: seq<Action>, more: seq<Action>, k: nat, m: nat)
    requires var s := Run(Initial(now), acts);
             k < m < |s.tokens| && s.tokens[k].kind == s.tokens[m].kind == ResetToken
               && s.tokens[k].user == s.tokens[m].user
    ensures var s := Run(Initial(now), acts);
            k < |Run(s, more).tokens| && Run(s, more).tokens[k].use == s.tokens[k].use != Open
  {
    OneOpenLink(now, acts, k, m);
    InitiallyOk(now);
    RunKeepsInv(Initial(now), acts);
    RunKeepsTokens(Run(Initial(now), acts), more, k);
  }

  /**
   * Every password write was backed by a token of that user, unexpired when looked at, which
   * backed no other write; and an invite only ever replaced an unset password.
   */
  lemma EachTokenBacksOneWrite(now: int, acts: seq<Action>, v: nat, w: nat)
    requires v < |Run(Initial(now), acts).log| && w < |Run(Initial(now), acts).log|
    ensures var s := Run(Initial(now), acts);
            && LogOk(s, w) && (s.log[v].token == s.log[w].token ==> v == w)
  {
    InitiallyOk(now);
    RunKeepsInv(Initial(now), acts);
    assert LogOk(Run(Initial(now), acts), v) && LogOk(Run(Initial(now), acts), w);
  }

  /** A redeem that commits spends the newest link, on its own active user, and on no one else. */
  lemma RedeemWritesOneUser(s: State, i: nat)
    requires Inv(s) && At(s, i).job.Redeem? && At(s, i).stage.TokenSpent?
    ensures var s', k := Step(s, Commit(i)), At(s, i).stage.token;
            && k < |s.tokens| && s.tokens[k].user < |s.users| == |s.latest|
            && s.tokens[k].use == Open && s.tokens[k].kind == At(s, i).job.kind
            && (s.tokens[k].kind == ResetToken ==> s.latest[s.tokens[k].user] == Some(k))
            && !s.users[s.tokens[k].user].deleted
            && s'.tokens == s.tokens[k := s.tokens[k].(use := Spent(|s.log|))]
            && s'.log == s.log + [Write(k, s.tokens[k].user, s.users[s.tokens[k].user].password,
                                        At(s, i).job.password, At(s, i).checkedAt)]
            && s'.users == s.users[s.tokens[k].user := User(Some(At(s, i).job.password), false)]
  {
    assert TxOk(s, i) && TokenOk(s, s.txs[i].stage.token);
  }

  /** A user's password changes only by the commit of a token of that user, or by someone else's update. */
  lemma OnlyOwnTokensSetPasswords(s: State, a: Action, u: nat)
    requires Inv(s) && u < |s.users| && !(a.ChangePassword? && a.user == u)
    ensures u < |Step(s, a).users|
    ensures Step(s, a).users[u].password != s.users[u].password ==>
              a.Commit? && HasToken(At(s, a.i)) && At(s, a.i).stage.token < |s.tokens|
                && s.tokens[At(s, a.i).stage.token].user == u
  {
  }

  lemma RunThen(s: State, acts: seq<Action>, a: Action)
    ensures Run(s, acts + [a]) == Step(Run(s, acts), a)
  {
    assert (acts + [a])[..|acts|] == acts;
  }

  lemma RunOne(s: State, a: Action)
    ensures Run(s, [a]) == Step(s, a)
  {
    RunThen(s, [], a);
    assert [] + [a] == [a];
  }

  /** An unexpired open token of an active user, none of them locked. */
  predicate Redeemable(s: State, job: Job, k: nat) {
    && job.Redeem? && k < |s.tokens| && Free(s.rowLock, k) && s.tokens[k].user < |s.users|
       && Free(s.userLock, s.tokens[k].user)
    && s.tokens[k].kind == job.kind && s.tokens[k].hash == job.hash && s.tokens[k].use == Open
       && s.now <= s.tokens[k].expires
    && !s.users[s.tokens[k].user].deleted && (job.kind == InviteToken ==> s.users[s.tokens[k].user].password == None)
  }

  lemma ReadsToken(s: State, job: Job, k: nat) returns (acts: seq<Action>)
    requires Redeemable(s, job, k)
    ensures Run(s, acts) == s.(txs := s.txs + [Tx(job, TokenRead(k), 0)], rowLock := s.rowLock[k := Some(|s.txs|)])
  {
    var i := |s.txs|;
    acts := [Begin(job)];
    RunOne(s, Begin(job));
    RunThen(s, acts, SelectToken(i, k));
    acts := acts + [SelectToken(i, k)];
    assert Run(s, acts).txs == s.txs + [Tx(job, TokenRead(k), 0)];
  }

  lemma ReadsUser(s: State, i: nat, k: nat) returns (acts: seq<Action>)
    requires i < |s.txs| && s.txs[i].job.Redeem? && s.txs[i].stage == TokenRead(k) && k < |s.tokens|
    requires var u := s.tokens[k].user;
             && u < |s.users| && Free(s.userLock, u) && s.now <= s.tokens[k].expires
             && !s.users[u].deleted && (s.txs[i].job.kind == InviteToken ==> s.users[u].password == None)
    ensures var t := Run(s, acts);
            i < |t.txs| && t.txs[i].job == s.txs[i].job && t.txs[i].stage == UserRead(k) && t.tokens == s.tokens
              && t.users == s.users && t.log == s.log
  {
    acts := [CheckExpiry(i)];
    RunOne(s, CheckExpiry(i));
    RunThen(s, acts, SelectUser(i));
    acts := acts + [SelectUser(i)];
  }

  lemma Commits(s: State, i: nat, k: nat) returns (acts: seq<Action>)
    requires i < |s.txs| && s.txs[i].job.Redeem? && s.txs[i].stage == UserRead(k) && k < |s.tokens|
             && s.tokens[k].user < |s.users|
    ensures var t, u := Run(s, acts), s.tokens[k].user;
            u < |t.users| && t.users[u].password == Some(s.txs[i].job.password) && k < |t.tokens|
              && t.tokens[k].use == Spent(|s.log|)
  {
    acts := [SetPassword(i)];
    RunOne(s, SetPassword(i));
    RunThen(s, acts, SpendToken(i));
    acts := acts + [SpendToken(i)];
    RunThen(s, acts, Commit(i));
    acts := acts + [Commit(i)];
  }

  /** A good token sets its user's password: nothing in the protocol refuses it. */
  lemma GoodTokenSetsPassword(s: State, job: Job, k: nat) returns (acts: seq<Action>)
    requires Redeemable(s, job, k)
    ensures var t, u := Run(s, acts), s.tokens[k].user;
            u < |t.users| && t.users[u].password == Some(job.password) && k < |t.tokens|
              && t.tokens[k].use == Spent(|s.log|)
  {
    var i := |s.txs|;
    var x := ReadsToken(s, job, k);
    var y := ReadsUser(Run(s, x), i, k);
    var z := Commits(Run(Run(s, x), y), i, k);
    RunsJoin(s, x, y);
    RunsJoin(s, x + y, z);
    acts := x + y + z;
  }

  lemma {:induction false} RunsJoin(s: State, x: seq<Action>, y: seq<Action>)
    ensures Run(s, x + y) == Run(Run(s, x), y)
    decreases |y|
  {
    if y == [] {
      assert x + y == x;
    } else {
      RunsJoin(s, x, y[..|y| - 1]);
      assert (x + y)[..|x + y| - 1] == x + y[..|y| - 1];
    }
  }
}
