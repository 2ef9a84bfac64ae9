/**
 * What issuing a link gives (provisioning.go): a committed generation leaves exactly its own token,
 * good for one hour, and that token, or an invite's, sets its user's password; what is not good is
 * refused where the program looks at it.
 */
module ResetLinks {
  import opened Base
  import opened Provisioning

  /** The user's open links become superseded, and one new link is added. */
  ghost predicate Issued(s: State, t: State, user: nat, hash: string, expires: int) {
    && |t.tokens| == |s.tokens| + 1
    && t.tokens[|s.tokens|] == Token(ResetToken, user, hash, expires, Open)
    && forall k | 0 <= k < |s.tokens| :: t.tokens[k] ==
         if s.tokens[k].kind == ResetToken && s.tokens[k].user == user && s.tokens[k].use == Open
         then s.tokens[k].(use := Superseded) else s.tokens[k]
  }

  /** A commit of a generation issues its link and touches nothing else. */
  lemma CommitIssues(s: State, i: nat)
    requires Inv(s) && At(s, i).job.Generate? && At(s, i).stage.Inserted?
    ensures var t, job := Step(s, Commit(i)), At(s, i).job;
            && Issued(s, t, job.user, job.hash, At(s, i).stage.expires)
            && t.users == s.users && t.log == s.log && Free(t.rowLock, |s.tokens|)
  {
    assert TxOk(s, i);
    var t, job := Step(s, Commit(i)), s.txs[i].job;
    forall k | 0 <= k < |s.tokens| ensures s.rowLock[k] == Some(i) <==> IsOpenLink(s.tokens[k], job.user) {
      assert TokenOk(s, k) && UserOk(s, s.tokens[k].user);
    }
  }

  // ---------------------------------------------------------------- every committed generation

  /** Whose statement a step is. */
  function Mover(a: Action): Option<nat> {
    match a
    case LockUserLinks(i) => Some(i)
    case StartInvalidate(i) => Some(i)
    case InvalidateRow(i, _) => Some(i)
    case InsertLink(i) => Some(i)
    case SelectToken(i, _) => Some(i)
    case CheckExpiry(i) => Some(i)
    case SelectUser(i) => Some(i)
    case SetPassword(i) => Some(i)
    case SpendToken(i) => Some(i)
    case Commit(i) => Some(i)
    case Abort(i) => Some(i)
    case _ => None
  }

  lemma Unmoved(s: State, a: Action, i: nat)
    requires Mover(a) != Some(i)
    ensures i < |s.txs| ==> At(Step(s, a), i) == s.txs[i]
    ensures i >= |s.txs| ==> At(Step(s, a), i).stage.Aborted? || At(Step(s, a), i).stage.Begun?
  {
  }

  /** What brings a transaction to these two stages. */
  lemma StageReached(s: State, a: Action, i: nat)
    requires Inv(s) && At(Step(s, a), i).job.Generate? && At(Step(s, a), i).stage != At(s, i).stage
    ensures At(Step(s, a), i).stage.Committed? ==> a == Commit(i) && At(s, i).stage.Inserted?
    ensures At(Step(s, a), i).stage.Inserted? ==>
              a == InsertLink(i) && At(Step(s, a), i).stage.expires == s.now + 3_600_000_000_000
  {
    if i < |s.txs| { assert TxOk(s, i); }
    if Mover(a) != Some(i) { Unmoved(s, a, i); }
  }

  lemma JobStays(s: State, a: Action, i: nat)
    requires Inv(s) && i < |s.txs|
    ensures i < |Step(s, a).txs| && Step(s, a).txs[i].job == s.txs[i].job
  {
    if Mover(a) != Some(i) { Unmoved(s, a, i); }
  }

  /** The link a generation has inserted expires one hour after that statement. */
  lemma {:induction false} InsertedAt(now: int, acts: seq<Action>, i: nat) returns (m: nat)
    requires At(Run(Initial(now), acts), i).job.Generate? && At(Run(Initial(now), acts), i).stage.Inserted?
    ensures m < |acts| && acts[m] == InsertLink(i)
    ensures At(Run(Initial(now), acts), i).stage.expires == Run(Initial(now), acts[..m]).now + 3_600_000_000_000
    decreases |acts|
  {
    var front, last := acts[..|acts| - 1], acts[|acts| - 1];
    var s := Run(Initial(now), front);
    InitiallyOk(now);
    RunKeepsInv(Initial(now), front);
    if At(s, i).stage != At(Step(s, last), i).stage {
      StageReached(s, last, i);
      m := |front|;
    } else {
      JobStays(s, last, i);
      m := InsertedAt(now, front, i);
      assert acts[..m] == front[..m];
    }
  }

  /** Step `m` inserted the link of job `i`, good for one hour from then, and step `n` issued it. */
  ghost predicate IssuedBy(now: int, acts: seq<Action>, i: nat, job: Job, m: nat, n: nat)
    requires job.Generate?
  {
    && m < n < |acts| && acts[m] == InsertLink(i) && acts[n] == Commit(i)
    && Issued(Run(Initial(now), acts[..n]), Run(Initial(now), acts[..n + 1]), job.user, job.hash,
              Run(Initial(now), acts[..m]).now + 3_600_000_000_000)
  }

  lemma IssuedBefore(now: int, acts: seq<Action>, i: nat, job: Job, m: nat, n: nat)
    requires acts != [] && job.Generate? && IssuedBy(now, acts[..|acts| - 1], i, job, m, n)
    ensures IssuedBy(now, acts, i, job, m, n)
  {
    var front := acts[..|acts| - 1];
    assert acts[..m] == front[..m] && acts[..n] == front[..n] && acts[..n + 1] == front[..n + 1];
  }

  lemma IssuedNow(now: int, acts: seq<Action>, i: nat) returns (m: nat)
    requires var s := Run(Initial(now), acts); At(s, i).job.Generate? && At(s, i).stage.Inserted?
    ensures IssuedBy(now, acts + [Commit(i)], i, At(Run(Initial(now), acts), i).job, m, |acts|)
  {
    m := InsertedAt(now, acts, i);
    InitiallyOk(now);
    RunKeepsInv(Initial(now), acts);
    CommitIssues(Run(Initial(now), acts), i);
    RunThen(Initial(now), acts, Commit(i));
    var all := acts + [Commit(i)];
    assert all[..m] == acts[..m] && all[..|acts|] == acts && all[..|acts| + 1] == all;
  }

  ghost predicate IsCommitted(now: int, acts: seq<Action>, i: nat, job: Job) {
    At(Run(Initial(now), acts), i).job == job && At(Run(Initial(now), acts), i).stage.Committed?
  }

  lemma LastStep(now: int, acts: seq<Action>, a: Action, i: nat, job: Job)
    requires job.Generate? && IsCommitted(now, acts + [a], i, job) && !IsCommitted(now, acts, i, job)
    ensures var s := Run(Initial(now), acts); a == Commit(i) && At(s, i).job == job && At(s, i).stage.Inserted?
  {
    var s := Run(Initial(now), acts);
    InitiallyOk(now);
    RunKeepsInv(Initial(now), acts);
    RunThen(Initial(now), acts, a);
    if i < |s.txs| { JobStays(s, a, i); }
    StageReached(s, a, i);
  }

  /**
   * In every interleaving, a committed generation inserted its link at some step `m` and committed
   * it at a later step `n`, which issued that link, of its user and hash, good for one hour from `m`.
   */
  lemma {:induction false} CommittedWasIssued(now: int, acts: seq<Action>, i: nat, job: Job) returns (m: nat, n: nat)
    requires job.Generate? && IsCommitted(now, acts, i, job)
    ensures IssuedBy(now, acts, i, job, m, n)
    decreases |acts|
  {
    var front := acts[..|acts| - 1];
    assert acts == front + [acts[|acts| - 1]];
    if IsCommitted(now, front, i, job) {
      m, n := CommittedWasIssued(now, front, i, job);
      IssuedBefore(now, acts, i, job, m, n);
    } else {
      LastStep(now, front, acts[|acts| - 1], i, job);
      m := IssuedNow(now, front, i);
      n := |front|;
    }
  }

  /** The hour a generation's link is good for, and who may still use it. */
  predicate Usable(s: State, k: nat, insertedAt: int) {
    && k < |s.tokens| && s.tokens[k].use == Open && Free(s.rowLock, k)
    && s.tokens[k].user < |s.users| && Free(s.userLock, s.tokens[k].user) && !s.users[s.tokens[k].user].deleted
    && s.now <= insertedAt + 3_600_000_000_000
  }

  /**
   * At any later time, while it is open, nothing it needs is locked, its user is active and its
   * hour is not over, the link of a committed `Generate(u, h)` sets u's password.
   */
  lemma IssuedLinkSetsPassword(now: int, acts: seq<Action>, i: nat, job: Job, password: string)
    returns (k: nat, m: nat, more: seq<Action>)
    requires job.Generate? && IsCommitted(now, acts, i, job)
    ensures m < |acts| && acts[m] == InsertLink(i)
    ensures var s := Run(Initial(now), acts);
            && k < |s.tokens| && job.user < |s.users|
            && s.tokens[k] == Token(ResetToken, job.user, job.hash,
                                    Run(Initial(now), acts[..m]).now + 3_600_000_000_000, s.tokens[k].use)
            && (Usable(s, k, Run(Initial(now), acts[..m]).now) ==>
                  job.user < |Run(s, more).users| && Run(s, more).users[job.user].password == Some(password))
  {
    var n;
    m, n := CommittedWasIssued(now, acts, i, job);
    var s := Run(Initial(now), acts);
    k := |Run(Initial(now), acts[..n]).tokens|;
    LinkStays(now, acts, n + 1, k);
    InitiallyOk(now);
    RunKeepsInv(Initial(now), acts);
    assert TokenOk(s, k);
    more := [];
    if Usable(s, k, Run(Initial(now), acts[..m]).now) {
      more := GoodTokenSetsPassword(s, Redeem(ResetToken, job.hash, password), k);
    }
  }

  lemma LinkStays(now: int, acts: seq<Action>, n: nat, k: nat)
    requires n <= |acts| && k < |Run(Initial(now), acts[..n]).tokens|
    ensures k < |Run(Initial(now), acts).tokens|
    ensures SameToken(Run(Initial(now), acts[..n]).tokens[k], Run(Initial(now), acts).tokens[k])
  {
    InitiallyOk(now);
    RunKeepsInv(Initial(now), acts[..n]);
    RunKeepsTokens(Run(Initial(now), acts[..n]), acts[n..], k);
    RunsJoin(Initial(now), acts[..n], acts[n..]);
    assert acts[..n] + acts[n..] == acts;
  }

  // ---------------------------------------------------------------- a link can be issued, and used

  lemma ReachesRows(s: State, i: nat) returns (acts: seq<Action>)
    requires Inv(s) && At(s, i).job.Generate? && At(s, i).stage.GenLocked?
    requires forall k | 0 <= k < |s.tokens| && IsOpenLink(s.tokens[k], At(s, i).job.user) :: Free(s.rowLock, k)
    ensures var t := Run(s, acts);
            && At(t, i).job == At(s, i).job && At(t, i).stage == Invalidating({}) && t.tokens == s.tokens
            && t.users == s.users && t.userLock == s.userLock && t.now == s.now
  {
    assert TxOk(s, i);
    var u := s.txs[i].job.user;
    RunOne(s, StartInvalidate(i));
    acts := [StartInvalidate(i)];
    var t := Step(s, StartInvalidate(i));
    var todo := OpenLinks(s.tokens, u);
    if k :| k in todo {
      assert todo == {k} by { OnlyOpenLink(s, u, k); }
      RunThen(s, acts, InvalidateRow(i, k));
      acts := acts + [InvalidateRow(i, k)];
      assert todo - {k} == {};
    } else {
      assert todo == {};
    }
  }

  lemma OnlyOpenLink(s: State, u: nat, k: nat)
    requires Inv(s) && k in OpenLinks(s.tokens, u)
    ensures OpenLinks(s.tokens, u) == {k}
  {
    forall j | j in OpenLinks(s.tokens, u) ensures j == k { assert TokenOk(s, j) && TokenOk(s, k); }
  }

  lemma LocksLinks(s: State, u: nat, hash: string) returns (acts: seq<Action>)
    requires Inv(s) && u < |s.users| && Free(s.genLock, u)
    ensures var t := Run(s, acts);
            && At(t, |s.txs|) == Tx(Generate(u, hash), GenLocked, 0) && t.tokens == s.tokens && t.rowLock == s.rowLock
            && t.users == s.users && t.userLock == s.userLock && t.now == s.now
  {
    var i := |s.txs|;
    RunOne(s, Begin(Generate(u, hash)));
    acts := [Begin(Generate(u, hash))];
    RunThen(s, acts, LockUserLinks(i));
    acts := acts + [LockUserLinks(i)];
  }

  /** With its locks free, a generation can always go through, and issues a link good for an hour from now. */
  lemma LinkCanBeIssued(s: State, u: nat, hash: string) returns (acts: seq<Action>)
    requires Inv(s) && u < |s.users| && Free(s.genLock, u)
    requires forall k | 0 <= k < |s.tokens| && IsOpenLink(s.tokens[k], u) :: Free(s.rowLock, k)
    ensures var t := Run(s, acts);
            && Inv(t) && Issued(s, t, u, hash, s.now + 3_600_000_000_000) && Free(t.rowLock, |s.tokens|)
            && t.users == s.users && t.now == s.now
            && (Free(s.userLock, u) ==> Free(t.userLock, u))
  {
    var i := |s.txs|;
    var x := LocksLinks(s, u, hash);
    RunKeepsInv(s, x);
    var y := ReachesRows(Run(s, x), i);
    RunsJoin(s, x, y);
    RunKeepsInv(s, x + y);
    var z := Run(s, x + y);
    RunThen(s, x + y, InsertLink(i));
    StepKeepsInv(z, InsertLink(i));
    var w := Step(z, InsertLink(i));
    RunThen(s, x + y + [InsertLink(i)], Commit(i));
    CommitIssues(w, i);
    StepKeepsInv(w, Commit(i));
    acts := x + y + [InsertLink(i)] + [Commit(i)];
  }

  /** A link issued now for an active user sets that user's password: issuing and redeeming meet. */
  lemma LinkRoundTrip(s: State, u: nat, hash: string, password: string) returns (acts: seq<Action>)
    requires Inv(s) && u < |s.users| && Free(s.genLock, u) && Free(s.userLock, u) && !s.users[u].deleted
    requires forall k | 0 <= k < |s.tokens| && IsOpenLink(s.tokens[k], u) :: Free(s.rowLock, k)
    ensures u < |Run(s, acts).users| && Run(s, acts).users[u].password == Some(password)
  {
    var x := LinkCanBeIssued(s, u, hash);
    var y := GoodTokenSetsPassword(Run(s, x), Redeem(ResetToken, hash, password), |s.tokens|);
    RunsJoin(s, x, y);
    acts := x + y;
  }

  /** So does an invite, for a user whose password is not set. */
  lemma InviteRoundTrip(s: State, u: nat, hash: string, expires: int, password: string) returns (acts: seq<Action>)
    requires Inv(s) && u < |s.users| && Free(s.userLock, u) && s.users[u] == User(None, false) && s.now <= expires
    ensures u < |Run(s, acts).users| && Run(s, acts).users[u].password == Some(password)
  {
    RunOne(s, MintInvite(u, hash, expires));
    var y := GoodTokenSetsPassword(Step(s, MintInvite(u, hash, expires)), Redeem(InviteToken, hash, password),
                                   |s.tokens|);
    RunsJoin(s, [MintInvite(u, hash, expires)], y);
    acts := [MintInvite(u, hash, expires)] + y;
  }

  // ---------------------------------------------------------------- what is refused

  /** Nothing but locks and the transaction's own stage changed. */
  ghost predicate LeavesData(s: State, t: State) { t.tokens == s.tokens && t.users == s.users && t.log == s.log }

  /** A redeem that finds its token goes on exactly when it is unconsumed. */
  lemma ConsumedIsRefused(s: State, i: nat, k: nat)
    requires Inv(s) && At(s, i).job.Redeem? && At(s, i).stage.Begun? && Free(s.rowLock, k)
    requires s.tokens[k].kind == At(s, i).job.kind && s.tokens[k].hash == At(s, i).job.hash
    ensures var t := Step(s, SelectToken(i, k));
            LeavesData(s, t) && At(t, i).stage == if s.tokens[k].use == Open then TokenRead(k) else Aborted
  {
  }

  /** Then exactly when its time is not over, by the clock of that statement. */
  lemma ExpiredIsRefused(s: State, i: nat)
    requires Inv(s) && At(s, i).job.Redeem? && At(s, i).stage.TokenRead?
    ensures var t, k := Step(s, CheckExpiry(i)), At(s, i).stage.token;
            && k < |s.tokens| && LeavesData(s, t)
            && (if s.now <= s.tokens[k].expires then At(t, i).stage == TokenFresh(k) && At(t, i).checkedAt == s.now
                else At(t, i).stage == Aborted)
  {
    assert TxOk(s, i);
  }

  /** Then exactly when its user is active and, for an invite, has no password yet. */
  lemma UnfitUserIsRefused(s: State, i: nat)
    requires Inv(s) && At(s, i).job.Redeem? && At(s, i).stage.TokenFresh?
    ensures var t, k := Step(s, SelectUser(i)), At(s, i).stage.token;
            && k < |s.tokens| && s.tokens[k].user < |s.users| && LeavesData(s, t)
            && var u := s.users[s.tokens[k].user];
            Free(s.userLock, s.tokens[k].user) ==>
              At(t, i).stage == if !u.deleted && (At(s, i).job.kind == InviteToken ==> u.password == None)
                                then UserRead(k) else Aborted
  {
    assert TxOk(s, i) && TokenOk(s, s.txs[i].stage.token);
  }

  /** A user deactivated, or given a password, before the row is locked is found so by the statement that locks it. */
  lemma OverrulesRedeem(s: State, i: nat, a: Action)
    requires Inv(s) && At(s, i).job.Redeem? && At(s, i).stage.TokenFresh?
    requires var k := At(s, i).stage.token;
             k < |s.tokens| && Free(s.userLock, s.tokens[k].user) && s.tokens[k].user < |s.users|
    requires var u := s.tokens[At(s, i).stage.token].user;
             a == Deactivate(u) || (a.ChangePassword? && a.user == u && At(s, i).job.kind == InviteToken)
    ensures At(Step(Step(s, a), SelectUser(i)), i).stage == Aborted
  {
    StepKeepsInv(s, a);
    UnfitUserIsRefused(Step(s, a), i);
  }

  /** Time that passes before the check counts. */
  lemma LateIsRefused(s: State, i: nat, later: int)
    requires Inv(s) && At(s, i).job.Redeem? && At(s, i).stage.TokenRead? && s.now <= later
    requires At(s, i).stage.token < |s.tokens| && later > s.tokens[At(s, i).stage.token].expires
    ensures At(Step(Step(s, Tick(later)), CheckExpiry(i)), i).stage == Aborted
  {
    StepKeepsInv(s, Tick(later));
    ExpiredIsRefused(Step(s, Tick(later)), i);
  }

  /** What `i` held is free, and what others hold they keep. */
  ghost predicate LetsGo(locks: seq<Option<nat>>, after: seq<Option<nat>>, i: nat) {
    |after| == |locks| && forall k | 0 <= k < |locks| :: after[k] == if locks[k] == Some(i) then None else locks[k]
  }

  /** A rollback at any stage leaves the data alone and lets every lock go. */
  lemma RollbackReleases(s: State, i: nat)
    requires i < |s.txs| && !Ended(s.txs[i])
    ensures var t := Step(s, Abort(i));
            && LeavesData(s, t) && At(t, i).stage == Aborted
            && LetsGo(s.rowLock, t.rowLock, i) && LetsGo(s.userLock, t.userLock, i) && LetsGo(s.genLock, t.genLock, i)
  {
  }

  /** An ended transaction writes nothing any more. */
  lemma EndedIsOver(s: State, a: Action, i: nat)
    requires Inv(s) && i < |s.txs| && Ended(s.txs[i])
    ensures i < |Step(s, a).txs| && Step(s, a).txs[i] == s.txs[i]
    ensures a == Commit(i) ==> Step(s, a) == s
  {
    if Mover(a) != Some(i) { Unmoved(s, a, i); }
  }
}
