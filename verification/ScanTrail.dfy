/**
 * What `collect` (builder.go) reports of a scanner, told by the moves its goroutine took: the trail
 * of a slot lists them, each with how its cycle stood at that moment.
 */
module ScanTrail {
  import opened Base
  import opened ScanCollect

  datatype Mark = Mark(move: Move, ctxDone: bool, collecting: bool, closed: bool)

  function MarkOf(s: State, a: Action, i: nat, k: nat): seq<Mark>
    requires CanDo(s, a)
  {
    if a.At? && a.i == i && a.act.Goroutine? && a.act.k == k
    then [Mark(a.act.move, s.cycles[i].ctxDone, Collecting(s.cycles[i]), s.cycles[i].closed)] else []
  }

  /** The moves of goroutine `k` of cycle `i` in a run. */
  function Trail(s: State, run: seq<Action>, i: nat, k: nat): seq<Mark>
    requires IsRun(s, run)
    decreases run
  {
    if run == [] then [] else MarkOf(s, run[0], i, k) + Trail(Do(s, run[0]), run[1..], i, k)
  }

  /** The step reaches spec `k` of cycle `i` while an invocation of that name is live. */
  ghost predicate MeetsLive(s: State, a: Action, i: nat, k: nat)
    requires CanDo(s, a)
  {
    a == At(i, Launch) && s.cycles[i].phase.next == k && exists j, l :: Live(s, j, l, s.cycles[i].slots[k].name)
  }

  ghost predicate WasLive(s: State, run: seq<Action>, i: nat, k: nat)
    requires IsRun(s, run)
    decreases run
  {
    run != [] && (MeetsLive(s, run[0], i, k) || WasLive(Do(s, run[0]), run[1..], i, k))
  }

  predicate Moves(t: seq<Mark>, moves: seq<Move>) { |t| == |moves| && forall j | 0 <= j < |t| :: t[j].move == moves[j] }

  // ---------------------------------------------------------------- the trails of each report

  /** The result went into the channel while `collect` still took results. */
  predicate InTime(t: seq<Mark>) { t != [] && t[|t| - 1].move == Send && t[|t| - 1].collecting }

  /** It committed, returned nil, was judged before the deadline, and was heard. */
  predicate Succeeds(t: seq<Mark>) {
    InTime(t) && Moves(t, [Commit, FnEnds(NoErr), Decide, Release, Send]) && !t[2].ctxDone
  }

  predicate Crashes(t: seq<Mark>) {
    InTime(t) && (Moves(t, [Panics, Release, Send]) || Moves(t, [Commit, Panics, Release, Send]))
  }

  /** An error that is not the context's, or that came before the context was done. */
  predicate Fails(t: seq<Mark>) {
    && InTime(t)
    && (|| Moves(t, [FnEnds(OtherErr), Decide, Release, Send])
        || (Moves(t, [FnEnds(ContextErr), Decide, Release, Send]) && !t[1].ctxDone))
  }

  /** Too late for the collector, or judged after the deadline without an error of its own. */
  predicate Late(t: seq<Mark>) {
    || !InTime(t)
    || (Moves(t, [Commit, FnEnds(NoErr), Decide, Release, Send]) && t[2].ctxDone)
    || (Moves(t, [FnEnds(ContextErr), Decide, Release, Send]) && t[1].ctxDone)
  }

  // ---------------------------------------------------------------- a goroutine follows its trail

  predicate JudgedAs(t: seq<Mark>, out: Outcome) {
    match out
    case Good => Moves(t, [Commit, FnEnds(NoErr), Decide]) && !t[2].ctxDone
    case Bad(Panic) => Moves(t, [Panics]) || Moves(t, [Commit, Panics])
    case Bad(Failed) =>
      Moves(t, [FnEnds(OtherErr), Decide]) || (Moves(t, [FnEnds(ContextErr), Decide]) && !t[1].ctxDone)
    case Bad(Timeout) =>
      || (Moves(t, [Commit, FnEnds(NoErr), Decide]) && t[2].ctxDone)
      || (Moves(t, [FnEnds(ContextErr), Decide]) && t[1].ctxDone)
    case Bad(StillRunning) => false
  }

  predicate ReleasedAs(t: seq<Mark>, out: Outcome) {
    t != [] && t[|t| - 1].move == Release && JudgedAs(t[..|t| - 1], out)
  }

  predicate SentAs(t: seq<Mark>, out: Outcome) {
    t != [] && t[|t| - 1].move == Send && ReleasedAs(t[..|t| - 1], out)
  }

  predicate Follows(t: seq<Mark>, th: Thread) {
    match th
    case Idle => t == []
    case Scanning => t == []
    case Committed => Moves(t, [Commit])
    case FnReturned(r) => if r.NoErr? then Moves(t, [Commit, FnEnds(NoErr)]) else Moves(t, [FnEnds(r)])
    case Decided(out) => JudgedAs(t, out)
    case Released(out) => ReleasedAs(t, out)
    case Sent(out) => SentAs(t, out)
    case Taken(out) => SentAs(t, out)
  }

  ghost predicate SlotStands(c: Cycle, k: nat, t: seq<Mark>, met: bool)
    requires k < |c.slots|
  {
    var s := c.slots[k];
    && Follows(t, s.thread)
    && (s.thread.Sent? ==> (InTime(t) <==> Collecting(c)))
    && (s.thread.Taken? ==> InTime(t))
    && (s.inReport <==> t != [] && t[0].move == Commit && !t[0].closed)
    && (if LaunchedAt(c, k) then s.enabled ==> (s.thread.Idle? <==> met) else !met)
  }

  ghost predicate Stands(s: State, i: nat, k: nat, t: seq<Mark>, met: bool) {
    if i < |s.cycles| && k < |s.cycles[i].slots| then SlotStands(s.cycles[i], k, t, met) else t == [] && !met
  }

  lemma MoveFollows(c: Cycle, th: Thread, s: Slot, m: Move, t: seq<Mark>, x: Mark)
    requires s.thread == th && CanMove(c, th, m) && Follows(t, th)
    requires x == Mark(m, c.ctxDone, Collecting(c), c.closed)
    ensures Follows(t + [x], MoveSlot(c, s, m).thread)
  {
    assert (t + [x])[..|t|] == t;
  }

  lemma GoroutineStands(c: Cycle, running: set<string>, k: nat, m: Move, t: seq<Mark>, met: bool)
    requires CycleInv(c) && CanAct(c, Goroutine(k, m)) && SlotStands(c, k, t, met)
    ensures SlotStands(Next(c, running, Goroutine(k, m)).0, k,
                       t + [Mark(m, c.ctxDone, Collecting(c), c.closed)], met)
  {
    MoveFollows(c, c.slots[k].thread, c.slots[k], m, t, Mark(m, c.ctxDone, Collecting(c), c.closed));
    assert SlotInv(c.slots[k], LaunchedAt(c, k), Collecting(c), c.closed);
  }

  /** A step of the collector, the context or another goroutine. */
  lemma OtherStands(c: Cycle, running: set<string>, a: Act, k: nat, t: seq<Mark>, met: bool)
    requires CycleInv(c) && CanAct(c, a) && k < |c.slots| && SlotStands(c, k, t, met)
    requires !(a.Goroutine? && a.k == k) && !(a.Launch? && c.phase.next == k)
    ensures SlotStands(Next(c, running, a).0, k, t, met)
  {
    assert SlotInv(c.slots[k], LaunchedAt(c, k), Collecting(c), c.closed);
    if a.DrainEnd? { CountNone(InChannel, c.slots, k); }
  }

  lemma LaunchStands(s: State, i: nat, k: nat, t: seq<Mark>, met: bool)
    requires Inv(s) && i < |s.cycles| && CanAct(s.cycles[i], Launch) && s.cycles[i].phase.next == k
    requires SlotStands(s.cycles[i], k, t, met)
    ensures SlotStands(Next(s.cycles[i], s.running, Launch).0, k, t, met || MeetsLive(s, At(i, Launch), i, k))
  {
    var c := s.cycles[i];
    assert CycleInv(c) && SlotInv(c.slots[k], LaunchedAt(c, k), Collecting(c), c.closed);
    assert c.slots[k].name in s.running <==> exists j, l :: Live(s, j, l, c.slots[k].name);
  }

  lemma StepStands(s: State, a: Action, i: nat, k: nat, t: seq<Mark>, met: bool)
    requires Inv(s) && CanDo(s, a) && Stands(s, i, k, t, met)
    ensures Stands(Do(s, a), i, k, t + MarkOf(s, a, i, k), met || MeetsLive(s, a, i, k))
  {
    assert t + [] == t;
    if i < |s.cycles| {
      DoElsewhere(s, a, i);
      var c := s.cycles[i];
      assert CycleInv(c);
      if a.At? && a.i == i && k < |c.slots| {
        if a.act.Goroutine? && a.act.k == k {
          GoroutineStands(c, s.running, k, a.act.move, t, met);
        } else if a.act.Launch? && c.phase.next == k {
          LaunchStands(s, i, k, t, met);
        } else {
          OtherStands(c, s.running, a.act, k, t, met);
        }
      }
    }
  }

  /** The trail and the meeting of a longer run that went through `s` with these. */
  function TrailOn(s: State, run: seq<Action>, i: nat, k: nat, t: seq<Mark>): seq<Mark>
    requires IsRun(s, run)
    decreases run
  {
    if run == [] then t else TrailOn(Do(s, run[0]), run[1..], i, k, t + MarkOf(s, run[0], i, k))
  }

  ghost predicate LiveOn(s: State, run: seq<Action>, i: nat, k: nat, met: bool)
    requires IsRun(s, run)
    decreases run
  {
    if run == [] then met else LiveOn(Do(s, run[0]), run[1..], i, k, met || MeetsLive(s, run[0], i, k))
  }

  lemma {:induction false} RunStands(s: State, run: seq<Action>, i: nat, k: nat, t: seq<Mark>, met: bool)
    requires Inv(s) && IsRun(s, run) && Stands(s, i, k, t, met)
    ensures Stands(After(s, run), i, k, TrailOn(s, run, i, k, t), LiveOn(s, run, i, k, met))
    decreases run
  {
    if run != [] {
      StepStands(s, run[0], i, k, t, met);
      DoKeepsInv(s, run[0]);
      RunStands(Do(s, run[0]), run[1..], i, k, t + MarkOf(s, run[0], i, k), met || MeetsLive(s, run[0], i, k));
    }
  }

  lemma {:induction false} TrailOnIs(s: State, run: seq<Action>, i: nat, k: nat, t: seq<Mark>)
    requires IsRun(s, run)
    ensures TrailOn(s, run, i, k, t) == t + Trail(s, run, i, k)
    decreases run
  {
    if run == [] {
      assert t + [] == t;
    } else {
      var x := MarkOf(s, run[0], i, k);
      TrailOnIs(Do(s, run[0]), run[1..], i, k, t + x);
      assert t + (x + Trail(Do(s, run[0]), run[1..], i, k)) == (t + x) + Trail(Do(s, run[0]), run[1..], i, k);
    }
  }

  lemma {:induction false} LiveOnIs(s: State, run: seq<Action>, i: nat, k: nat, met: bool)
    requires IsRun(s, run)
    ensures LiveOn(s, run, i, k, met) <==> met || WasLive(s, run, i, k)
    decreases run
  {
    if run != [] { LiveOnIs(Do(s, run[0]), run[1..], i, k, met || MeetsLive(s, run[0], i, k)); }
  }

  // ---------------------------------------------------------------- what is reported

  lemma Extends(v: seq<Mark>, t: seq<Mark>, moves: seq<Move>, all: seq<Move>)
    requires |t| == |v| + 2 && v == t[..|v|] && t[|v|].move == Release && t[|v| + 1].move == Send
    requires all == moves + [Release, Send]
    ensures Moves(t, all) <==> Moves(v, moves)
  {
    if Moves(t, all) { assert forall j | 0 <= j < |v| :: v[j].move == t[j].move == all[j] == moves[j]; }
    if Moves(v, moves) { assert forall j | 0 <= j < |v| :: t[j].move == v[j].move == moves[j] == all[j]; }
  }

  lemma TakenTrail(t: seq<Mark>, out: Outcome)
    requires SentAs(t, out) && InTime(t)
    ensures Succeeds(t) <==> out == Good
    ensures Crashes(t) <==> out == Bad(Panic)
    ensures Fails(t) <==> out == Bad(Failed)
    ensures Late(t) <==> out == Bad(Timeout)
  {
    var v := t[..|t| - 2];
    assert v == t[..|t| - 1][..|t| - 2];
    Extends(v, t, [Commit, FnEnds(NoErr), Decide], [Commit, FnEnds(NoErr), Decide, Release, Send]);
    Extends(v, t, [FnEnds(ContextErr), Decide], [FnEnds(ContextErr), Decide, Release, Send]);
    Extends(v, t, [FnEnds(OtherErr), Decide], [FnEnds(OtherErr), Decide, Release, Send]);
    Extends(v, t, [Panics], [Panics, Release, Send]);
    Extends(v, t, [Commit, Panics], [Commit, Panics, Release, Send]);
    JudgedOnce(v, out);
    assert Succeeds(t) <==> JudgedAs(v, Good);
    assert Crashes(t) <==> JudgedAs(v, Bad(Panic));
    assert Fails(t) <==> JudgedAs(v, Bad(Failed));
    assert Late(t) <==> JudgedAs(v, Bad(Timeout));
  }

  lemma JudgedOnce(v: seq<Mark>, out: Outcome)
    requires JudgedAs(v, out)
    ensures forall other | JudgedAs(v, other) :: other == out
  {
    assert v[0].move == v[0].move;
  }

  lemma SentIsInTime(t: seq<Mark>, th: Thread)
    requires Follows(t, th) && InTime(t)
    ensures th.Sent? || th.Taken?
  {
  }

  /**
   * In every run, once `collect` has returned, a scanner's report is told by its trail alone: ok
   * exactly when it succeeded in time, each error exactly by its own trail, and `still_running`
   * exactly when its name was live as it was launched. Its data are in the report exactly when its
   * commit came before the return.
   */
  lemma ReportIsOfTrail(run: seq<Action>, i: nat, k: nat)
    requires IsRun(INIT, run) && i < |After(INIT, run).cycles|
    requires After(INIT, run).cycles[i].phase.Over? && k < |After(INIT, run).cycles[i].slots|
    ensures var d, t := After(INIT, run).cycles[i].slots[k], Trail(INIT, run, i, k);
            var started := d.enabled && !WasLive(INIT, run, i, k);
            && (d.status == Some(IsOk) <==> Succeeds(t))
            && (d.reason == Some(Panic) <==> Crashes(t))
            && (d.reason == Some(Failed) <==> Fails(t))
            && (d.reason == Some(Timeout) <==> started && Late(t))
            && (d.reason == Some(StillRunning) <==> d.enabled && !started)
            && (d.inReport <==> t != [] && t[0].move == Commit && !t[0].closed)
  {
    RunStands(INIT, run, i, k, [], false);
    TrailOnIs(INIT, run, i, k, []);
    LiveOnIs(INIT, run, i, k, false);
    RunKeepsInv(INIT, run);
    var c, t := After(INIT, run).cycles[i], Trail(INIT, run, i, k);
    assert [] + t == t;
    assert CycleInv(c) && SlotInv(c.slots[k], LaunchedAt(c, k), Collecting(c), c.closed);
    assert SlotStands(c, k, t, WasLive(INIT, run, i, k));
    if InTime(t) {
      SentIsInTime(t, c.slots[k].thread);
      TakenTrail(t, c.slots[k].thread.out);
    } else if c.slots[k].enabled && !WasLive(INIT, run, i, k) {
      assert Busy(c.slots[k]);
      assert c.slots[k].status.value.Error?;
    }
  }

  // ---------------------------------------------------------------- a scanner that ends ok

  /** Cycle `i` waits for results before its deadline, with goroutine `k` at `th`. */
  predicate WaitsAt(s: State, i: nat, k: nat, th: Thread) {
    && i < |s.cycles| && s.cycles[i].phase.Waiting? && !s.cycles[i].ctxDone && !s.cycles[i].closed
    && k < |s.cycles[i].slots| && s.cycles[i].slots[k].thread == th
  }

  lemma Moved(s: State, i: nat, k: nat, m: Move, th: Thread, run: seq<Action>, t: State)
    requires WaitsAt(s, i, k, th) && CanMove(s.cycles[i], th, m)
    ensures var n := Do(s, At(i, Goroutine(k, m)));
            WaitsAt(n, i, k, MoveSlot(s.cycles[i], s.cycles[i].slots[k], m).thread)
    ensures IsRun(Do(s, At(i, Goroutine(k, m))), run) && After(Do(s, At(i, Goroutine(k, m))), run) == t ==>
              var all := [At(i, Goroutine(k, m))] + run;
              IsRun(s, all) && After(s, all) == t
  {
    assert ([At(i, Goroutine(k, m))] + run)[1..] == run;
  }

  /** From any waiting cycle, a result sent before the deadline is received. */
  lemma SendIsReceived(s: State, i: nat, k: nat) returns (run: seq<Action>)
    requires Inv(s) && WaitsAt(s, i, k, Released(Good))
    ensures IsRun(s, run) && i < |After(s, run).cycles| && After(s, run).cycles[i].phase.Waiting?
    ensures k < |After(s, run).cycles[i].slots| && After(s, run).cycles[i].slots[k].status == Some(IsOk)
  {
    SendNeverBlocks(s, i, k);
    var send, take := At(i, Goroutine(k, Send)), At(i, Receive(k));
    var n := Do(s, send);
    DoKeepsInv(s, send);
    var c := n.cycles[i];
    assert CycleInv(c) && SlotInv(c.slots[k], LaunchedAt(c, k), Collecting(c), c.closed);
    assert c.slots[k].pending;
    OneStep(n, take, [], Do(n, take));
    OneStep(s, send, [take] + [], Do(n, take));
    run := [send] + ([take] + []);
  }

  lemma JudgedIsReceived(s: State, i: nat, k: nat) returns (run: seq<Action>)
    requires Inv(s) && WaitsAt(s, i, k, FnReturned(NoErr))
    ensures IsRun(s, run) && i < |After(s, run).cycles| && After(s, run).cycles[i].phase.Waiting?
    ensures k < |After(s, run).cycles[i].slots| && After(s, run).cycles[i].slots[k].status == Some(IsOk)
  {
    var decide, release := At(i, Goroutine(k, Decide)), At(i, Goroutine(k, Release));
    Moved(s, i, k, Decide, FnReturned(NoErr), [], s);
    var n := Do(s, decide);
    DoKeepsInv(s, decide);
    Moved(n, i, k, Release, Decided(Good), [], n);
    DoKeepsInv(n, release);
    run := SendIsReceived(Do(n, release), i, k);
    var t := After(Do(n, release), run);
    Moved(n, i, k, Release, Decided(Good), run, t);
    Moved(s, i, k, Decide, FnReturned(NoErr), [release] + run, t);
    run := [decide] + ([release] + run);
  }

  /** In any waiting cycle before its deadline, a scanner can go on to be reported ok. */
  lemma ScannerCanSucceed(s: State, i: nat, k: nat) returns (run: seq<Action>)
    requires Inv(s) && WaitsAt(s, i, k, Scanning)
    ensures IsRun(s, run) && i < |After(s, run).cycles| && After(s, run).cycles[i].phase.Waiting?
    ensures k < |After(s, run).cycles[i].slots| && After(s, run).cycles[i].slots[k].status == Some(IsOk)
  {
    var commit, ends := At(i, Goroutine(k, Commit)), At(i, Goroutine(k, FnEnds(NoErr)));
    Moved(s, i, k, Commit, Scanning, [], s);
    var n := Do(s, commit);
    DoKeepsInv(s, commit);
    Moved(n, i, k, FnEnds(NoErr), Committed, [], n);
    DoKeepsInv(n, ends);
    run := JudgedIsReceived(Do(n, ends), i, k);
    var t := After(Do(n, ends), run);
    Moved(n, i, k, FnEnds(NoErr), Committed, run, t);
    Moved(s, i, k, Commit, Scanning, [ends] + run, t);
    run := [commit] + ([ends] + run);
  }

  lemma {:induction false} RunsJoin(s: State, x: seq<Action>, y: seq<Action>)
    requires IsRun(s, x) && IsRun(After(s, x), y)
    ensures IsRun(s, x + y) && After(s, x + y) == After(After(s, x), y)
    decreases x
  {
    if x == [] {
      assert x + y == y;
    } else {
      RunsJoin(Do(s, x[0]), x[1..], y);
      assert (x + y)[0] == x[0] && (x + y)[1..] == x[1..] + y;
    }
  }

  /** One scanner, launched. */
  lemma OneLaunched() returns (run: seq<Action>)
    ensures IsRun(INIT, run) && After(INIT, run) == Alone(Scanning, None, None, false, Waiting, false)
  {
    var s0 := Alone(Idle, None, None, false, Launching(0), false);
    var s1 := Alone(Scanning, None, None, false, Launching(1), false);
    var s2 := Alone(Scanning, None, None, false, Waiting, false);
    assert Do(s1, At(0, LaunchDone)) == s2;
    OneStep(s1, At(0, LaunchDone), [], s2);
    run := [At(0, LaunchDone)] + [];
    LaunchStep(s0, s1);
    OneStep(s0, At(0, Launch), run, s2);
    run := [At(0, Launch)] + run;
    BeginStep(s0);
    OneStep(INIT, NewCycle([("gpu", true)]), run, s2);
    run := [NewCycle([("gpu", true)])] + run;
  }

  lemma Closes(s: State) returns (run: seq<Action>)
    requires Inv(s) && |s.cycles| >= 1 && s.cycles[0].phase.Waiting? && |s.cycles[0].slots| == 1
    requires s.cycles[0].slots[0].status == Some(IsOk)
    ensures IsRun(s, run) && |After(s, run).cycles| == |s.cycles| && After(s, run).cycles[0].phase.Over?
    ensures After(s, run).cycles[0].slots == s.cycles[0].slots
  {
    var c := s.cycles[0];
    assert CycleInv(c) && SlotInv(c.slots[0], LaunchedAt(c, 0), Collecting(c), c.closed);
    assert !c.slots[0].pending;
    var n := Do(s, At(0, NonePending));
    OneStep(n, At(0, Close), [], Do(n, At(0, Close)));
    OneStep(s, At(0, NonePending), [At(0, Close)] + [], Do(n, At(0, Close)));
    run := [At(0, NonePending)] + ([At(0, Close)] + []);
  }

  /** A whole cycle from the start of the process whose scanner is ok and in the report. */
  lemma ScannerEndsOk() returns (run: seq<Action>)
    ensures IsRun(INIT, run) && |After(INIT, run).cycles| >= 1
    ensures var c := After(INIT, run).cycles[0];
            c.phase.Over? && |c.slots| == 1 && c.slots[0].status == Some(IsOk) && c.slots[0].inReport
  {
    run := OneLaunched();
    RunKeepsInv(INIT, run);
    var more := ScannerCanSucceed(After(INIT, run), 0, 0);
    RunsJoin(INIT, run, more);
    OneSlotStays(After(INIT, run), more);
    run := run + more;
    RunKeepsInv(INIT, run);
    more := Closes(After(INIT, run));
    RunsJoin(INIT, run, more);
    run := run + more;
    ReturnsComplete(run, 0, 0);
  }

  lemma {:induction false} OneSlotStays(s: State, run: seq<Action>)
    requires IsRun(s, run) && |s.cycles| >= 1
    ensures |After(s, run).cycles| >= 1 && |After(s, run).cycles[0].slots| == |s.cycles[0].slots|
    decreases run
  {
    if run != [] {
      DoElsewhere(s, run[0], 0);
      OneSlotStays(Do(s, run[0]), run[1..]);
    }
  }
}
