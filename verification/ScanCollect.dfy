/**
 * The scanner collection protocol (builder.go) as atomic steps: any number of scan cycles, each
 * with its collector loop, its scanner goroutines, a buffered result channel, a context and a
 * commit gate, sharing the process-wide set of running scanners. Stragglers outlive their cycle.
 *
 * A cycle keeps one slot per spec: its goroutine, the collector's `pending`, `status` and
 * `reasons` entries for its name, and whether its result is in the report.
 */
module ScanCollect {
  import opened Base

  datatype Reason = Timeout | StillRunning | Panic | Failed

  datatype Outcome = Good | Bad(reason: Reason)

  datatype Returned = NoErr | ContextErr | OtherErr

  /** A scanner goroutine: it leaves `running` on release, and ends with its result in the channel. */
  datatype Thread =
    | Idle | Scanning | Committed | FnReturned(r: Returned) | Decided(out: Outcome) | Released(out: Outcome)
    | Sent(out: Outcome) | Taken(out: Outcome)

  datatype Slot = Slot(name: string, enabled: bool, thread: Thread, pending: bool,
                       status: Option<ScanStatus>, reason: Option<Reason>, inReport: bool)

  datatype Phase = Launching(next: nat) | Waiting | Draining | Closing | Over

  datatype Cycle = Cycle(slots: seq<Slot>, phase: Phase, ctxDone: bool, closed: bool)

  datatype State = State(cycles: seq<Cycle>, running: set<string>)

  datatype Move = Commit | FnEnds(r: Returned) | Panics | Decide | Release | Send

  datatype Act =
    | Launch | LaunchDone | Receive(k: nat) | NonePending | SeeDone | DrainOne(k: nat) | DrainEnd | Close  // collector
    | Goroutine(k: nat, move: Move)
    | ContextDone

  datatype Action = NewCycle(specs: seq<(string, bool)>) | At(i: nat, act: Act)

  const INIT := State([], {})

  // ---------------------------------------------------------------- steps

  predicate CollectorAct(a: Act) { !a.Goroutine? && !a.ContextDone? }

  predicate InChannel(s: Slot) { s.thread.Sent? }

  predicate Busy(s: Slot) { !s.thread.Idle? && !s.thread.Taken? }

  function Count(p: Slot -> bool, slots: seq<Slot>): nat {
    if slots == [] then 0 else (if p(slots[0]) then 1 else 0) + Count(p, slots[1..])
  }

  predicate AnyPending(slots: seq<Slot>) { exists k | 0 <= k < |slots| :: slots[k].pending }

  predicate CanMove(c: Cycle, t: Thread, m: Move) {
    match m
    case Commit => t.Scanning?
    case FnEnds(r) => if r.NoErr? then t.Committed? else t.Scanning?
    case Panics => t.Scanning? || t.Committed?
    case Decide => t.FnReturned?
    case Release => t.Decided?
    case Send => t.Released? && Count(InChannel, c.slots) < |c.slots|  // room in the channel
  }

  predicate CanAct(c: Cycle, a: Act) {
    match a
    case Launch => c.phase.Launching? && c.phase.next < |c.slots|
    case LaunchDone => c.phase.Launching? && c.phase.next == |c.slots|
    case Receive(k) => c.phase.Waiting? && AnyPending(c.slots) && k < |c.slots| && InChannel(c.slots[k])
    case NonePending => c.phase.Waiting? && !AnyPending(c.slots)
    case SeeDone => c.phase.Waiting? && AnyPending(c.slots) && c.ctxDone
    case DrainOne(k) => c.phase.Draining? && k < |c.slots| && InChannel(c.slots[k])
    case DrainEnd => c.phase.Draining? && Count(InChannel, c.slots) == 0
    case Close => c.phase.Closing?
    case Goroutine(k, m) => k < |c.slots| && CanMove(c, c.slots[k].thread, m)
    case ContextDone => true
  }

  /** The switch after `fn` returns, with the context as it is at that moment. */
  function Judge(r: Returned, ctxDone: bool): Outcome {
    if r.ContextErr? && ctxDone then Bad(Timeout)
    else if !r.NoErr? then Bad(Failed)
    else if ctxDone then Bad(Timeout)
    else Good
  }

  /** delete(pending), status and, for errors, the reason. */
  function Record(s: Slot): Slot
    requires s.thread.Sent?
  {
    s.(thread := Taken(s.thread.out), pending := false, status := Some(if s.thread.out.Good? then IsOk else Error),
       reason := if s.thread.out.Bad? then Some(s.thread.out.reason) else s.reason)
  }

  function LaunchSlot(s: Slot, running: set<string>): (Slot, set<string>) {
    if !s.enabled then (s.(status := Some(Disabled)), running)
    else if s.name in running then (s.(status := Some(Error), reason := Some(StillRunning)), running)
    else (s.(thread := Scanning, pending := true), running + {s.name})
  }

  function MoveSlot(c: Cycle, s: Slot, m: Move): Slot
    requires CanMove(c, s.thread, m)
  {
    match m
    case Commit => s.(thread := Committed, inReport := s.inReport || !c.closed)  // the commit gate
    case FnEnds(r) => s.(thread := FnReturned(r))
    case Panics => s.(thread := Decided(Bad(Panic)))
    case Decide => s.(thread := Decided(Judge(s.thread.r, c.ctxDone)))
    case Release => s.(thread := Released(s.thread.out))
    case Send => s.(thread := Sent(s.thread.out))
  }

  function TimeOut(s: Slot): Slot {
    if s.pending then s.(pending := false, status := Some(Error), reason := Some(Timeout)) else s
  }

  function TimeOutAll(slots: seq<Slot>): (r: seq<Slot>)
    ensures |r| == |slots| && forall k | 0 <= k < |slots| :: r[k] == TimeOut(slots[k])
  {
    seq(|slots|, k requires 0 <= k < |slots| => TimeOut(slots[k]))
  }

  /** One atomic step of a cycle or of one of its goroutines. */
  function Next(c: Cycle, running: set<string>, a: Act): (Cycle, set<string>)
    requires CanAct(c, a)
  {
    match a
    case Launch =>
      var k := c.phase.next;
      var (s, r) := LaunchSlot(c.slots[k], running);
      (c.(slots := c.slots[k := s], phase := Launching(k + 1)), r)
    case LaunchDone => (c.(phase := Waiting), running)
    case Receive(k) => (c.(slots := c.slots[k := Record(c.slots[k])]), running)
    case NonePending => (c.(phase := Closing), running)
    case SeeDone => (c.(phase := Draining), running)
    case DrainOne(k) => (c.(slots := c.slots[k := Record(c.slots[k])]), running)
    case DrainEnd => (c.(slots := TimeOutAll(c.slots), phase := Closing), running)
    case Close => (c.(phase := Over, closed := true), running)
    case Goroutine(k, m) =>
      (c.(slots := c.slots[k := MoveSlot(c, c.slots[k], m)]), if m.Release? then running - {c.slots[k].name}
       else running)
    case ContextDone => (c.(ctxDone := true), running)
  }

  function Begin(specs: seq<(string, bool)>): Cycle {
    Cycle(seq(|specs|, k requires 0 <= k < |specs| => Slot(specs[k].0, specs[k].1, Idle, false, None, None, false)),
          Launching(0), false, false)
  }

  predicate CanDo(s: State, a: Action) {
    match a
    case NewCycle(specs) => forall i, j | 0 <= i < j < |specs| :: specs[i].0 != specs[j].0
    case At(i, act) => i < |s.cycles| && CanAct(s.cycles[i], act)
  }

  function Do(s: State, a: Action): State
    requires CanDo(s, a)
  {
    match a
    case NewCycle(specs) => s.(cycles := s.cycles + [Begin(specs)])
    case At(i, act) => var (c, running) := Next(s.cycles[i], s.running, act); State(s.cycles[i := c], running)
  }

  predicate IsRun(s: State, run: seq<Action>)
    decreases run
  {
    run == [] || (CanDo(s, run[0]) && IsRun(Do(s, run[0]), run[1..]))
  }

  function After(s: State, run: seq<Action>): State
    requires IsRun(s, run)
    decreases run
  {
    if run == [] then s else After(Do(s, run[0]), run[1..])
  }

  // ---------------------------------------------------------------- invariant of one cycle

  predicate Collecting(c: Cycle) { c.phase.Launching? || c.phase.Waiting? || c.phase.Draining? }

  predicate LaunchedAt(c: Cycle, k: int) { c.phase.Launching? ==> k < c.phase.next }

  /** A goroutine that has committed and not failed since. */
  predicate CommitHeld(t: Thread) {
    t.Committed? || (t.FnReturned? && t.r.NoErr?) || ((t.Decided? || t.Released? || t.Sent? || t.Taken?) && t.out.Good?)
  }

  predicate SlotInv(s: Slot, launched: bool, collecting: bool, closed: bool) {
    && (!launched ==> s.thread.Idle? && !s.pending && s.status.None?)
    && (s.pending <==> collecting && Busy(s))
    && (launched ==> (s.status.None? <==> s.pending))
    && (s.reason.Some? <==> s.status == Some(Error))
    && (s.thread.Taken? ==>
          if s.thread.out.Good? then s.status == Some(IsOk)
          else s.status == Some(Error) && s.reason == Some(s.thread.out.reason))
    && (launched && s.thread.Idle? ==> if s.enabled then s.reason == Some(StillRunning) else s.status == Some(Disabled))
    && (!s.enabled ==> s.thread.Idle?)
    && (s.status == Some(Disabled) ==> !s.enabled)
    && (s.status == Some(IsOk) ==> s.inReport && s.thread == Taken(Good))
    && (!closed && CommitHeld(s.thread) ==> s.inReport)
    && (s.status == Some(Error) && Busy(s) ==> s.reason == Some(Timeout))
  }

  ghost predicate CycleInv(c: Cycle) {
    && (c.phase.Launching? ==> c.phase.next <= |c.slots|)
    && (c.closed <==> c.phase.Over?)
    && forall k | 0 <= k < |c.slots| :: SlotInv(c.slots[k], LaunchedAt(c, k), Collecting(c), c.closed)
  }

  lemma {:induction false} CountNone(p: Slot -> bool, slots: seq<Slot>, k: nat)
    requires k < |slots|
    ensures Count(p, slots) <= |slots|
    ensures !p(slots[k]) ==> Count(p, slots) < |slots|
    ensures p(slots[k]) ==> Count(p, slots) > 0
  {
    if k > 0 { CountNone(p, slots[1..], k - 1); } else if |slots| > 1 { CountNone(p, slots[1..], 0); }
  }

  lemma {:induction false} CountUpdate(p: Slot -> bool, slots: seq<Slot>, k: nat, x: Slot)
    requires k < |slots|
    ensures Count(p, slots[k := x]) == Count(p, slots) - (if p(slots[k]) then 1 else 0) + (if p(x) then 1 else 0)
  {
    if k > 0 {
      CountUpdate(p, slots[1..], k - 1, x);
      assert slots[k := x][1..] == slots[1..][k - 1 := x];
    } else {
      assert slots[0 := x][1..] == slots[1..];
    }
  }

  lemma DrainEndKeepsInv(c: Cycle, running: set<string>)
    requires CycleInv(c) && CanAct(c, DrainEnd)
    ensures CycleInv(Next(c, running, DrainEnd).0)
  {
    var d := Next(c, running, DrainEnd).0;
    forall k | 0 <= k < |d.slots| ensures SlotInv(d.slots[k], LaunchedAt(d, k), Collecting(d), d.closed) {
      assert SlotInv(c.slots[k], LaunchedAt(c, k), Collecting(c), c.closed);
    }
  }

  lemma CollectorKeepsInv(c: Cycle, running: set<string>, a: Act)
    requires CycleInv(c) && CanAct(c, a) && !a.Goroutine? && !a.DrainEnd?
    ensures CycleInv(Next(c, running, a).0)
  {
    var d := Next(c, running, a).0;
    forall k | 0 <= k < |d.slots| ensures SlotInv(d.slots[k], LaunchedAt(d, k), Collecting(d), d.closed) {
      assert SlotInv(c.slots[k], LaunchedAt(c, k), Collecting(c), c.closed);
    }
  }

  lemma GoroutineKeepsInv(c: Cycle, running: set<string>, k: nat, m: Move)
    requires CycleInv(c) && CanAct(c, Goroutine(k, m))
    ensures CycleInv(Next(c, running, Goroutine(k, m)).0)
  {
    assert SlotInv(c.slots[k], LaunchedAt(c, k), Collecting(c), c.closed);
    assert SlotInv(MoveSlot(c, c.slots[k], m), LaunchedAt(c, k), Collecting(c), c.closed);
  }

  lemma StepKeepsCycleInv(c: Cycle, running: set<string>, a: Act)
    requires CycleInv(c) && CanAct(c, a)
    ensures CycleInv(Next(c, running, a).0)
  {
    if a.Goroutine? {
      GoroutineKeepsInv(c, running, a.k, a.move);
    } else if a.DrainEnd? {
      DrainEndKeepsInv(c, running);
    } else {
      CollectorKeepsInv(c, running, a);
    }
  }

  // ---------------------------------------------------------------- invariant of the process

  predicate InFlight(t: Thread) { !t.Idle? && !t.Released? && !t.Sent? && !t.Taken? }

  /** Invocation k of cycle i is live, under the name n. */
  predicate Live(s: State, i: int, k: int, n: string) {
    0 <= i < |s.cycles| && 0 <= k < |s.cycles[i].slots| && s.cycles[i].slots[k].name == n
      && InFlight(s.cycles[i].slots[k].thread)
  }

  ghost predicate Exclusive(s: State) {
    && (forall i, k, n | Live(s, i, k, n) :: n in s.running)
    && (forall i, k, j, l, n | Live(s, i, k, n) && Live(s, j, l, n) :: i == j && k == l)
    && (forall n | n in s.running :: exists i, k :: Live(s, i, k, n))
  }

  ghost predicate Inv(s: State) {
    (forall i | 0 <= i < |s.cycles| :: CycleInv(s.cycles[i])) && Exclusive(s)
  }

  /** A step that starts or ends no invocation leaves every invocation as live as it was. */
  lemma QuietStepKeepsExclusive(s: State, t: State)
    requires Exclusive(s) && t.running == s.running
    requires forall i, k, n :: Live(t, i, k, n) <==> Live(s, i, k, n)
    ensures Exclusive(t)
  {
  }

  lemma StartKeepsExclusive(s: State, t: State, i: nat, k: nat, n: string)
    requires Exclusive(s) && n !in s.running && t.running == s.running + {n} && Live(t, i, k, n)
    requires forall j, l, m :: Live(t, j, l, m) <==> Live(s, j, l, m) || (j == i && l == k && m == n)
    ensures Exclusive(t)
  {
    forall m | m in t.running ensures exists j, l :: Live(t, j, l, m) {
      if m == n {
        assert Live(t, i, k, m);
      } else {
        var j, l :| Live(s, j, l, m);
        assert Live(t, j, l, m);
      }
    }
  }

  lemma EndKeepsExclusive(s: State, t: State, i: nat, k: nat, n: string)
    requires Exclusive(s) && t.running == s.running - {n} && Live(s, i, k, n)
    requires forall j, l, m :: Live(t, j, l, m) <==> Live(s, j, l, m) && !(j == i && l == k)
    ensures Exclusive(t)
  {
    forall m | m in t.running ensures exists j, l :: Live(t, j, l, m) {
      var j, l :| Live(s, j, l, m);
      assert Live(t, j, l, m);
    }
    forall j, l, m | Live(t, j, l, m) ensures m in t.running {
      assert Live(s, j, l, m);
    }
  }

  lemma LaunchKeepsExclusive(s: State, i: nat)
    requires Inv(s) && i < |s.cycles| && CanAct(s.cycles[i], Launch)
    ensures Exclusive(Do(s, At(i, Launch)))
  {
    var t, c := Do(s, At(i, Launch)), s.cycles[i];
    var k := c.phase.next;
    assert CycleInv(c) && SlotInv(c.slots[k], LaunchedAt(c, k), Collecting(c), c.closed);
    var sl := c.slots[k];
    if sl.enabled && sl.name !in s.running {
      assert Live(t, i, k, sl.name);
      StartKeepsExclusive(s, t, i, k, sl.name);
    } else {
      QuietStepKeepsExclusive(s, t);
    }
  }

  lemma StepKeepsExclusive(s: State, i: nat, a: Act)
    requires Inv(s) && i < |s.cycles| && CanAct(s.cycles[i], a)
    ensures Exclusive(Do(s, At(i, a)))
  {
    var t := Do(s, At(i, a));
    if a.Launch? {
      LaunchKeepsExclusive(s, i);
    } else if a.Goroutine? && a.move.Release? {
      var n := s.cycles[i].slots[a.k].name;
      assert Live(s, i, a.k, n);
      EndKeepsExclusive(s, t, i, a.k, n);
    } else {
      QuietStep(s, i, a);
      QuietStepKeepsExclusive(s, t);
    }
  }

  lemma QuietStep(s: State, i: nat, a: Act)
    requires i < |s.cycles| && CanAct(s.cycles[i], a) && !a.Launch? && !(a.Goroutine? && a.move.Release?)
    ensures Do(s, At(i, a)).running == s.running
    ensures forall j, k, n :: Live(Do(s, At(i, a)), j, k, n) <==> Live(s, j, k, n)
  {
  }

  lemma NewCycleKeepsInv(s: State, specs: seq<(string, bool)>)
    requires Inv(s) && CanDo(s, NewCycle(specs))
    ensures Inv(Do(s, NewCycle(specs)))
  {
    assert CycleInv(Begin(specs));
    QuietStepKeepsExclusive(s, Do(s, NewCycle(specs)));
  }

  lemma DoKeepsInv(s: State, a: Action)
    requires Inv(s) && CanDo(s, a)
    ensures Inv(Do(s, a))
  {
    match a {
      case NewCycle(specs) => NewCycleKeepsInv(s, specs);
      case At(i, act) =>
        StepKeepsCycleInv(s.cycles[i], s.running, act);
        StepKeepsExclusive(s, i, act);
    }
  }

  lemma {:induction false} RunKeepsInv(s: State, run: seq<Action>)
    requires Inv(s) && IsRun(s, run)
    ensures Inv(After(s, run))
    decreases run
  {
    if run != [] {
      DoKeepsInv(s, run[0]);
      RunKeepsInv(Do(s, run[0]), run[1..]);
    }
  }

  /**
   * Over any number of cycles at most one invocation of a scanner is live, and it is live exactly
   * while its name is in `running`.
   */
  lemma AtMostOneLive(run: seq<Action>)
    requires IsRun(INIT, run)
    ensures var s := After(INIT, run);
            && (forall i, k, j, l, n | Live(s, i, k, n) && Live(s, j, l, n) :: i == j && k == l)
            && (forall n :: n in s.running <==> exists i, k :: Live(s, i, k, n))
  {
    RunKeepsInv(INIT, run);
  }

  /** A goroutine ready to send always finds room, in its own cycle or long after it. */
  lemma SendNeverBlocks(s: State, i: nat, k: nat)
    requires i < |s.cycles| && k < |s.cycles[i].slots| && s.cycles[i].slots[k].thread.Released?
    ensures CanDo(s, At(i, Goroutine(k, Send)))
  {
    CountNone(InChannel, s.cycles[i].slots, k);
  }

  // ---------------------------------------------------------------- what collect returns

  /**
   * When `collect` has returned: every spec has a status, a reason exactly when it is an error,
   * and is ok only if its result is in this cycle's report.
   */
  lemma ReturnsComplete(run: seq<Action>, i: nat, k: nat)
    requires IsRun(INIT, run) && i < |After(INIT, run).cycles|
    requires After(INIT, run).cycles[i].phase.Over? && k < |After(INIT, run).cycles[i].slots|
    ensures var s := After(INIT, run).cycles[i].slots[k];
            && s.status.Some?
            && (s.reason.Some? <==> s.status == Some(Error))
            && (s.status == Some(Disabled) <==> !s.enabled)
            && (s.status == Some(IsOk) ==> s.inReport)
  {
    RunKeepsInv(INIT, run);
    var c := After(INIT, run).cycles[i];
    assert CycleInv(c);
    assert SlotInv(c.slots[k], LaunchedAt(c, k), Collecting(c), c.closed);
  }

  /** What a reader of the report sees of a slot. */
  function Reported(s: Slot): (Option<ScanStatus>, Option<Reason>, bool) { (s.status, s.reason, s.inReport) }

  lemma StepFreezes(c: Cycle, running: set<string>, a: Act, k: nat)
    requires CycleInv(c) && CanAct(c, a) && c.phase.Over? && k < |c.slots|
    ensures var d := Next(c, running, a).0;
            d.phase.Over? && |d.slots| == |c.slots| && Reported(d.slots[k]) == Reported(c.slots[k])
  {
  }

  lemma DoElsewhere(s: State, a: Action, i: nat)
    requires CanDo(s, a) && i < |s.cycles|
    ensures i < |Do(s, a).cycles|
    ensures if a.At? && a.i == i then Do(s, a).cycles[i] == Next(s.cycles[i], s.running, a.act).0
            else Do(s, a).cycles[i] == s.cycles[i]
  {
  }

  /** Once `collect` has returned, no later step of any run touches its report or statuses. */
  lemma {:induction false} ReportIsFrozen(s: State, run: seq<Action>, i: nat, k: nat)
    requires Inv(s) && IsRun(s, run) && i < |s.cycles| && s.cycles[i].phase.Over? && k < |s.cycles[i].slots|
    ensures i < |After(s, run).cycles| && After(s, run).cycles[i].phase.Over? && k < |After(s, run).cycles[i].slots|
    ensures Reported(After(s, run).cycles[i].slots[k]) == Reported(s.cycles[i].slots[k])
    decreases run
  {
    if run != [] {
      DoElsewhere(s, run[0], i);
      if run[0].At? && run[0].i == i { StepFreezes(s.cycles[i], s.running, run[0].act, k); }
      DoKeepsInv(s, run[0]);
      ReportIsFrozen(Do(s, run[0]), run[1..], i, k);
    }
  }

  /** The outcome is in the channel while `collect` still takes results, or recorded as it was sent. */
  ghost predicate KeptOutcome(c: Cycle, k: nat, out: Outcome) {
    k < |c.slots| && ((Collecting(c) && c.slots[k].thread == Sent(out)) || c.slots[k].thread == Taken(out))
  }

  lemma StepKeepsOutcome(c: Cycle, running: set<string>, a: Act, k: nat, out: Outcome)
    requires CycleInv(c) && CanAct(c, a) && KeptOutcome(c, k, out)
    ensures KeptOutcome(Next(c, running, a).0, k, out)
  {
    assert SlotInv(c.slots[k], LaunchedAt(c, k), Collecting(c), c.closed);
    if a.DrainEnd? { CountNone(InChannel, c.slots, k); }
  }

  lemma {:induction false} OutcomeIsKept(s: State, run: seq<Action>, i: nat, k: nat, out: Outcome)
    requires Inv(s) && IsRun(s, run) && i < |s.cycles| && KeptOutcome(s.cycles[i], k, out)
    ensures i < |After(s, run).cycles| && KeptOutcome(After(s, run).cycles[i], k, out)
    decreases run
  {
    if run != [] {
      DoElsewhere(s, run[0], i);
      if run[0].At? && run[0].i == i { StepKeepsOutcome(s.cycles[i], s.running, run[0].act, k, out); }
      DoKeepsInv(s, run[0]);
      OutcomeIsKept(Do(s, run[0]), run[1..], i, k, out);
    }
  }

  /** Whatever is in the channel before the drain ends is what `collect` reports, unchanged. */
  lemma QueuedOutcomeIsReported(s: State, run: seq<Action>, i: nat, k: nat, out: Outcome)
    requires Inv(s) && IsRun(s, run) && i < |s.cycles| && k < |s.cycles[i].slots|
    requires Collecting(s.cycles[i]) && s.cycles[i].slots[k].thread == Sent(out)
    requires i < |After(s, run).cycles| && After(s, run).cycles[i].phase.Over? && k < |After(s, run).cycles[i].slots|
    ensures var d := After(s, run).cycles[i].slots[k];
            if out.Good? then d.status == Some(IsOk) else d.status == Some(Error) && d.reason == Some(out.reason)
  {
    OutcomeIsKept(s, run, i, k, out);
    RunKeepsInv(s, run);
    var c := After(s, run).cycles[i];
    assert CycleInv(c);
    assert SlotInv(c.slots[k], LaunchedAt(c, k), Collecting(c), c.closed);
  }

  /** At this moment the scanner's good outcome is in the channel and `collect` still takes results. */
  predicate GoodQueued(s: State, i: nat, k: nat) {
    i < |s.cycles| && k < |s.cycles[i].slots| && Collecting(s.cycles[i]) && s.cycles[i].slots[k].thread == Sent(Good)
  }

  /** That was so at some moment of the run. */
  predicate WasQueued(s: State, run: seq<Action>, i: nat, k: nat)
    requires IsRun(s, run)
    decreases run
  {
    GoodQueued(s, i, k) || (run != [] && WasQueued(Do(s, run[0]), run[1..], i, k))
  }

  predicate TookGood(s: State, i: nat, k: nat) {
    i < |s.cycles| && k < |s.cycles[i].slots| && s.cycles[i].slots[k].thread == Taken(Good)
  }

  /** Only a collector still collecting takes an outcome, and only from the channel. */
  lemma TakenFromChannel(s: State, a: Action, i: nat, k: nat)
    requires CanDo(s, a) && TookGood(Do(s, a), i, k)
    ensures TookGood(s, i, k) || GoodQueued(s, i, k)
  {
    if i < |s.cycles| { DoElsewhere(s, a, i); }
  }

  lemma {:induction false} TakenWasQueued(s: State, run: seq<Action>, i: nat, k: nat)
    requires IsRun(s, run) && TookGood(After(s, run), i, k) && !TookGood(s, i, k)
    ensures WasQueued(s, run, i, k)
    decreases run
  {
    if run != [] {
      if TookGood(Do(s, run[0]), i, k) {
        TakenFromChannel(s, run[0], i, k);
      } else {
        TakenWasQueued(Do(s, run[0]), run[1..], i, k);
      }
    }
  }

  lemma {:induction false} QueuedIsOk(s: State, run: seq<Action>, i: nat, k: nat)
    requires Inv(s) && IsRun(s, run) && WasQueued(s, run, i, k)
    requires i < |After(s, run).cycles| && After(s, run).cycles[i].phase.Over? && k < |After(s, run).cycles[i].slots|
    ensures After(s, run).cycles[i].slots[k].status == Some(IsOk)
    decreases run
  {
    if GoodQueued(s, i, k) {
      QueuedOutcomeIsReported(s, run, i, k, Good);
    } else {
      DoKeepsInv(s, run[0]);
      QueuedIsOk(Do(s, run[0]), run[1..], i, k);
    }
  }

  /**
   * In every run a scanner is reported ok exactly when its good outcome was in the channel while
   * `collect` still took results; so a committed one is not, exactly when its send came later.
   */
  lemma OkIffQueuedInTime(run: seq<Action>, i: nat, k: nat)
    requires IsRun(INIT, run) && i < |After(INIT, run).cycles|
    requires After(INIT, run).cycles[i].phase.Over? && k < |After(INIT, run).cycles[i].slots|
    ensures After(INIT, run).cycles[i].slots[k].status == Some(IsOk) <==> WasQueued(INIT, run, i, k)
  {
    RunKeepsInv(INIT, run);
    var c := After(INIT, run).cycles[i];
    assert CycleInv(c);
    assert SlotInv(c.slots[k], LaunchedAt(c, k), Collecting(c), c.closed);
    if c.slots[k].status == Some(IsOk) { TakenWasQueued(INIT, run, i, k); }
    if WasQueued(INIT, run, i, k) { QueuedIsOk(INIT, run, i, k); }
  }

  // ---------------------------------------------------------------- termination after the deadline

  /** The collector steps still possible, at most. */
  function Remaining(c: Cycle): int {
    var r := Count(Busy, c.slots);
    match c.phase
    case Launching(k) => 2 * (|c.slots| - k) + r + 5
    case Waiting => r + 3
    case Draining => r + 2
    case Closing => 1
    case Over => 0
  }

  /** A goroutine's step neither starts nor consumes a result. */
  lemma GoroutineKeepsBusy(c: Cycle, k: nat, m: Move)
    requires CanAct(c, Goroutine(k, m))
    ensures Count(Busy, c.slots[k := MoveSlot(c, c.slots[k], m)]) == Count(Busy, c.slots)
  {
    CountUpdate(Busy, c.slots, k, MoveSlot(c, c.slots[k], m));
  }

  lemma RecordRunsDown(c: Cycle, k: nat)
    requires k < |c.slots| && InChannel(c.slots[k])
    ensures Count(Busy, c.slots[k := Record(c.slots[k])]) == Count(Busy, c.slots) - 1
  {
    CountUpdate(Busy, c.slots, k, Record(c.slots[k]));
  }

  lemma StepsRunDown(c: Cycle, running: set<string>, a: Act)
    requires CycleInv(c) && CanAct(c, a)
    ensures var d := Next(c, running, a).0;
            0 <= Remaining(d) <= Remaining(c) - if CollectorAct(a) then 1 else 0
  {
    match a {
      case Launch => CountUpdate(Busy, c.slots, c.phase.next, LaunchSlot(c.slots[c.phase.next], running).0);
      case Receive(k) => RecordRunsDown(c, k);
      case DrainOne(k) => RecordRunsDown(c, k);
      case Goroutine(k, m) => GoroutineKeepsBusy(c, k, m);
      case _ =>
    }
  }

  /** Once its context is done, a collector that has not returned can always take a step, whatever the scanners do. */
  lemma NeverStuckAfterDeadline(c: Cycle)
    requires CycleInv(c) && c.ctxDone && !c.phase.Over?
    ensures exists a :: CollectorAct(a) && CanAct(c, a)
  {
    match c.phase {
      case Launching(k) => assert if k < |c.slots| then CanAct(c, Launch) else CanAct(c, LaunchDone);
      case Waiting => assert if AnyPending(c.slots) then CanAct(c, SeeDone) else CanAct(c, NonePending);
      case Draining =>
        if Count(InChannel, c.slots) == 0 {
          assert CanAct(c, DrainEnd);
        } else {
          var k := SomeCounted(InChannel, c.slots);
          assert CanAct(c, DrainOne(k));
        }
      case Closing => assert CanAct(c, Close);
    }
  }

  lemma {:induction false} SomeCounted(p: Slot -> bool, slots: seq<Slot>) returns (k: nat)
    requires Count(p, slots) > 0
    ensures k < |slots| && p(slots[k])
  {
    if p(slots[0]) {
      k := 0;
    } else {
      k := SomeCounted(p, slots[1..]);
      k := k + 1;
    }
  }

  function CollectorSteps(run: seq<Action>, i: nat): nat {
    if run == [] then 0
    else (if run[0].At? && run[0].i == i && CollectorAct(run[0].act) then 1 else 0) + CollectorSteps(run[1..], i)
  }

  /**
   * In every continuation of every run a collector takes at most `Remaining` steps, and has
   * returned when none is left.
   */
  lemma {:induction false} CollectTerminates(s: State, run: seq<Action>, i: nat)
    requires Inv(s) && IsRun(s, run) && i < |s.cycles|
    ensures i < |After(s, run).cycles|
    ensures CollectorSteps(run, i) <= Remaining(s.cycles[i]) - Remaining(After(s, run).cycles[i])
    ensures Remaining(After(s, run).cycles[i]) >= 0
    ensures Remaining(After(s, run).cycles[i]) == 0 ==> After(s, run).cycles[i].phase.Over?
    decreases run
  {
    assert CycleInv(s.cycles[i]);
    if run != [] {
      DoElsewhere(s, run[0], i);
      if run[0].At? && run[0].i == i { StepsRunDown(s.cycles[i], s.running, run[0].act); }
      DoKeepsInv(s, run[0]);
      CollectTerminates(Do(s, run[0]), run[1..], i);
    }
  }

  // ---------------------------------------------------------------- the converse does not hold

  lemma OneStep(s: State, a: Action, run: seq<Action>, t: State)
    requires CanDo(s, a) && IsRun(Do(s, a), run) && After(Do(s, a), run) == t
    ensures IsRun(s, [a] + run) && After(s, [a] + run) == t
  {
    assert ([a] + run)[1..] == run;
  }

  /** A state with one cycle of one scanner. */
  function Alone(t: Thread, status: Option<ScanStatus>, reason: Option<Reason>, inReport: bool, phase: Phase,
                 ctxDone: bool): State {
    State([Cycle([Slot("gpu", true, t, InFlight(t) && status.None?, status, reason, inReport)], phase, ctxDone,
                 phase.Over?)],
          if InFlight(t) then {"gpu"} else {})
  }

  /** The deadline's steps, once the collector has seen it. */
  lemma DeadlineSteps() returns (run: seq<Action>)
    ensures var s := Alone(Committed, None, None, true, Draining, true);
            IsRun(s, run) && After(s, run) == Alone(Committed, Some(Error), Some(Timeout), true, Over, true)
  {
    var s5 := Alone(Committed, None, None, true, Draining, true);
    var s6 := Alone(Committed, Some(Error), Some(Timeout), true, Closing, true);
    var t := Alone(Committed, Some(Error), Some(Timeout), true, Over, true);
    assert Do(s6, At(0, Close)) == t;
    OneStep(s6, At(0, Close), [], t);
    assert TimeOutAll(s5.cycles[0].slots) == s6.cycles[0].slots;
    assert Do(s5, At(0, DrainEnd)) == s6;
    OneStep(s5, At(0, DrainEnd), [At(0, Close)] + [], t);
    run := [At(0, DrainEnd)] + ([At(0, Close)] + []);
  }

  lemma SeesDeadline() returns (run: seq<Action>)
    ensures var s := Alone(Committed, None, None, true, Waiting, false);
            IsRun(s, run) && After(s, run) == Alone(Committed, Some(Error), Some(Timeout), true, Over, true)
  {
    var s3 := Alone(Committed, None, None, true, Waiting, false);
    var s4 := Alone(Committed, None, None, true, Waiting, true);
    var s5 := Alone(Committed, None, None, true, Draining, true);
    var t := Alone(Committed, Some(Error), Some(Timeout), true, Over, true);
    run := DeadlineSteps();
    assert s4.cycles[0].slots[0].pending;
    assert Do(s4, At(0, SeeDone)) == s5;
    OneStep(s4, At(0, SeeDone), run, t);
    run := [At(0, SeeDone)] + run;
    assert Do(s3, At(0, ContextDone)) == s4;
    OneStep(s3, At(0, ContextDone), run, t);
    run := [At(0, ContextDone)] + run;
  }

  lemma CommitThenDeadline() returns (run: seq<Action>, t: State)
    ensures var s := Alone(Scanning, None, None, false, Waiting, false);
            IsRun(s, run) && After(s, run) == t
    ensures t == Alone(Committed, Some(Error), Some(Timeout), true, Over, true)
  {
    t := Alone(Committed, Some(Error), Some(Timeout), true, Over, true);
    var s2 := Alone(Scanning, None, None, false, Waiting, false);
    var s3 := Alone(Committed, None, None, true, Waiting, false);
    run := SeesDeadline();
    CommitStep(s2, s3);
    OneStep(s2, At(0, Goroutine(0, Commit)), run, t);
    run := [At(0, Goroutine(0, Commit))] + run;
  }

  lemma CommitStep(s: State, t: State)
    requires s == Alone(Scanning, None, None, false, Waiting, false)
             && t == Alone(Committed, None, None, true, Waiting, false)
    ensures CanDo(s, At(0, Goroutine(0, Commit))) && Do(s, At(0, Goroutine(0, Commit))) == t
  {
    assert MoveSlot(s.cycles[0], s.cycles[0].slots[0], Commit) == t.cycles[0].slots[0];
    assert Do(s, At(0, Goroutine(0, Commit))).cycles[0] == t.cycles[0];
  }

  lemma LaunchStep(s: State, t: State)
    requires s == Alone(Idle, None, None, false, Launching(0), false)
    requires t == Alone(Scanning, None, None, false, Launching(1), false)
    ensures CanDo(s, At(0, Launch)) && Do(s, At(0, Launch)) == t
  {
    assert LaunchSlot(s.cycles[0].slots[0], {}).0 == t.cycles[0].slots[0];
    assert Do(s, At(0, Launch)).cycles[0] == t.cycles[0];
  }

  lemma BeginStep(t: State)
    requires t == Alone(Idle, None, None, false, Launching(0), false)
    ensures CanDo(INIT, NewCycle([("gpu", true)])) && Do(INIT, NewCycle([("gpu", true)])) == t
  {
    assert Begin([("gpu", true)]) == t.cycles[0];
  }

  /** A scanner can commit and still be reported as a timeout: its result was not yet sent. */
  lemma CommittedMayBeReportedTimeout() returns (run: seq<Action>)
    ensures IsRun(INIT, run) && |After(INIT, run).cycles| == 1
    ensures var c := After(INIT, run).cycles[0];
            c.phase.Over? && |c.slots| == 1 && c.slots[0].inReport && c.slots[0].reason == Some(Timeout)
  {
    var s0 := Alone(Idle, None, None, false, Launching(0), false);
    var s1 := Alone(Scanning, None, None, false, Launching(1), false);
    var s2 := Alone(Scanning, None, None, false, Waiting, false);
    var t;
    run, t := CommitThenDeadline();
    assert Do(s1, At(0, LaunchDone)) == s2;
    OneStep(s1, At(0, LaunchDone), run, t);
    run := [At(0, LaunchDone)] + run;
    LaunchStep(s0, s1);
    OneStep(s0, At(0, Launch), run, t);
    run := [At(0, Launch)] + run;
    BeginStep(s0);
    OneStep(INIT, NewCycle([("gpu", true)]), run, t);
    run := [NewCycle([("gpu", true)])] + run;
  }
}
