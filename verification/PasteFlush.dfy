/**
 * What a flush (background.js) gets done: it drops exactly the events whose leading ok replies it
 * heard before it settled, and from every state the buffer can be delivered.
 */
module PasteFlush {
  import opened Base
  import opened PasteBuffer

  // ---------------------------------------------------------------- the replies a flush heard

  predicate AtHead(w: Worker, op: Op) { w.queue != [] && w.queue[0] == op }

  /** One step's effect on the replies heard on the current connection while its batch is open. */
  function Hears(s: World, h: seq<bool>, a: Action): seq<bool> {
    var w := s.worker;
    match a
    case Restart => []
    case Finish(_) => if AtHead(w, FlushRead) && w.phase.Got? then [] else h
    case Reply =>
      if Live(w) && s.log.conns != [] && |h| < |Last(s.log.conns).replies| then h + [Last(s.log.conns).replies[|h|]]
      else h
    case _ => h
  }

  function Heard(acts: seq<Action>): seq<bool>
    decreases |acts|
  {
    if acts == [] then []
    else Hears(Run(Initial(), acts[..|acts| - 1]), Heard(acts[..|acts| - 1]), acts[|acts| - 1])
  }

  function LeadingOks(h: seq<bool>): nat { if h == [] || !h[0] then 0 else 1 + LeadingOks(h[1..]) }

  lemma {:induction false} LeadingOksIs(h: seq<bool>, n: nat)
    requires n <= |h| && (forall k | 0 <= k < n :: h[k]) && (n < |h| ==> !h[n])
    ensures LeadingOks(h) == n
    decreases |h|
  {
    if n > 0 { LeadingOksIs(h[1..], n - 1); }
  }

  ghost predicate HeardInv(s: World, h: seq<bool>) {
    var w := s.worker;
    && (Live(w) ==>
          s.log.conns != [] && w.batch.value.received <= |Last(s.log.conns).replies|
            && h == Last(s.log.conns).replies[..w.batch.value.received])
    && (DropPending(w) ==> FlushOps(w.queue)[0].count == LeadingOks(h))
  }

  lemma FlushOpsPush(q: seq<Op>, op: Op)
    ensures FlushOps(q + [op]) == FlushOps(q) + if op.Append? then [] else [op]
  {
    assert (q + [op])[..|q|] == q;
  }

  /** A batch that settles with as many acknowledgements as it heard leading oks. */
  lemma SettlesHeard(s: World, b: Batch, h: seq<bool>)
    requires FlushOps(s.worker.queue) == [] && !b.settled && b.acked == LeadingOks(h)
    ensures HeardInv(s.(worker := Settle(s.worker, b)), h)
  {
    FlushOpsPush(s.worker.queue, FlushDrop(b.acked));
  }

  /** The replies an open batch has heard are the first ones, and ok. */
  lemma HeardSoFar(s: World, h: seq<bool>)
    requires Inv(s) && HeardInv(s, h) && Live(s.worker)
    ensures var b := s.worker.batch.value;
            |h| == b.received == b.acked && FlushOps(s.worker.queue) == [] && forall k | 0 <= k < |h| :: h[k]
  {
  }

  lemma ReplyHeard(s: World, h: seq<bool>)
    requires Inv(s) && HeardInv(s, h) && Live(s.worker)
    requires |h| < |Last(s.log.conns).replies|
    ensures HeardInv(Step(s, Reply), h + [Last(s.log.conns).replies[|h|]])
  {
    HeardSoFar(s, h);
    var b, r := s.worker.batch.value, Last(s.log.conns).replies;
    var h', b' := h + [r[|h|]], b.(received := b.received + 1);
    LeadingOksIs(h', if r[|h|] then |h| + 1 else |h|);
    if !r[|h|] {
      SettlesHeard(s, b', h');
    } else if b.acked + 1 == |b.events| {
      SettlesHeard(s, b'.(acked := b.acked + 1), h');
    } else {
      assert h' == r[..b.received + 1];
    }
  }

  lemma SettledHeard(s: World, h: seq<bool>)
    requires Inv(s) && HeardInv(s, h) && s.worker.batch.Some?
    ensures HeardInv(s.(worker := Settle(s.worker, s.worker.batch.value)), h)
  {
    if Live(s.worker) {
      HeardSoFar(s, h);
      LeadingOksIs(h, |h|);
      SettlesHeard(s, s.worker.batch.value, h);
    }
  }

  lemma FinishAppendHeard(s: World, h: seq<bool>, replies: Option<seq<bool>>)
    requires Inv(s) && HeardInv(s, h) && s.worker.queue != [] && s.worker.queue[0].Append?
    ensures HeardInv(Step(s, Finish(replies)), h)
  {
    var w, t := s.worker, Step(s, Finish(replies)).worker;
    if w.phase.Wrote? {
      FlushOpsPop(w.queue);
      FlushOpsPush(w.queue[1..], FlushRead);
      assert t.batch == w.batch;
      if t.flushInProgress == w.flushInProgress {
        assert t.queue == w.queue[1..] && FlushOps(t.queue) == FlushOps(w.queue);
      } else {
        assert FlushOps(w.queue) == [];
        assert FlushOps(t.queue) == [FlushRead];
      }
    }
  }

  lemma FinishReadHeard(s: World, replies: Option<seq<bool>>)
    requires Inv(s) && AtHead(s.worker, FlushRead) && s.worker.phase.Got?
    ensures HeardInv(Step(s, Finish(replies)), [])
  {
    FlushOpsPop(s.worker.queue);
    assert FlushOps(s.worker.queue[1..]) == [];
    FlushOpsPush(s.worker.queue[1..], FlushDrop(0));
  }

  lemma FinishDropHeard(s: World, h: seq<bool>, replies: Option<seq<bool>>)
    requires Inv(s) && HeardInv(s, h) && s.worker.queue != [] && s.worker.queue[0].FlushDrop?
    ensures HeardInv(Step(s, Finish(replies)), h)
  {
    FlushOpsPop(s.worker.queue);
    assert FlushOps(s.worker.queue[1..]) == [];
  }

  lemma FinishHeard(s: World, h: seq<bool>, replies: Option<seq<bool>>)
    requires Inv(s) && HeardInv(s, h)
    ensures HeardInv(Step(s, Finish(replies)), Hears(s, h, Finish(replies)))
  {
    var w := s.worker;
    if w.queue != [] {
      match w.queue[0]
      case Append(_) => FinishAppendHeard(s, h, replies);
      case FlushRead => if w.phase.Got? { FinishReadHeard(s, replies); }
      case FlushDrop(_) => FinishDropHeard(s, h, replies);
    }
  }

  lemma StepHeard(s: World, h: seq<bool>, a: Action)
    requires Inv(s) && HeardInv(s, h)
    ensures HeardInv(Step(s, a), Hears(s, h, a))
  {
    var w := s.worker;
    match a
    case Paste(e) => FlushOpsPush(w.queue, Append(e));
    case Alarm => FlushOpsPush(w.queue, FlushRead);
    case Get =>
    case Set => if w.queue != [] { FlushOpsPop(w.queue); }
    case Finish(replies) => FinishHeard(s, h, replies);
    case Reply => if Live(w) && |h| < |Last(s.log.conns).replies| { ReplyHeard(s, h); }
    case Disconnect => if w.batch.Some? { SettledHeard(s, h); }
    case Timeout => if w.batch.Some? { SettledHeard(s, h); }
    case Restart =>
  }

  lemma {:induction false} RunHeard(acts: seq<Action>)
    ensures HeardInv(Run(Initial(), acts), Heard(acts))
    decreases |acts|
  {
    if acts != [] {
      var front := acts[..|acts| - 1];
      RunHeard(front);
      RunKeepsInv(front);
      StepHeard(Run(Initial(), front), Heard(front), acts[|acts| - 1]);
    }
  }

  /** The step writes a flush's drop. */
  predicate WritesDrop(s: World, a: Action) {
    a == Set && s.worker.queue != [] && s.worker.queue[0].FlushDrop? && s.worker.phase.Got?
  }

  lemma NoOtherStepDrops(s: World, a: Action)
    requires PhaseOk(s) && !WritesDrop(s, a)
    ensures Step(s, a).log.dropped == s.log.dropped && s.buffer <= Step(s, a).buffer
  {
  }

  lemma DropIsHeard(s: World, h: seq<bool>)
    requires Inv(s) && HeardInv(s, h) && WritesDrop(s, Set)
    ensures var t, n := Step(s, Set), LeadingOks(h);
            n <= |s.buffer| && t.log.dropped == s.log.dropped + s.buffer[..n] && t.buffer == s.buffer[n..]
  {
    FlushOpsPop(s.worker.queue);
    assert FlushOps(s.worker.queue)[0] == s.worker.queue[0];
  }

  /**
   * In every history, what a step drops is as many events from the front of the buffer as the
   * flush heard leading ok replies before it settled, and no other step drops anything.
   */
  lemma DropsWhatWasHeard(acts: seq<Action>, a: Action)
    ensures var s, t := Run(Initial(), acts), Step(Run(Initial(), acts), a);
            if WritesDrop(s, a) then
              var n := LeadingOks(Heard(acts));
              n <= |s.buffer| && t.log.dropped == s.log.dropped + s.buffer[..n] && t.buffer == s.buffer[n..]
            else t.log.dropped == s.log.dropped && s.buffer <= t.buffer
  {
    RunKeepsInv(acts);
    RunHeard(acts);
    var s := Run(Initial(), acts);
    if WritesDrop(s, a) { DropIsHeard(s, Heard(acts)); } else { NoOtherStepDrops(s, a); }
  }

  /** A flush that reads a non-empty buffer and connects sends all of it, and waits for its replies. */
  lemma FlushSendsBuffer(acts: seq<Action>, replies: seq<bool>)
    requires var s := Run(Initial(), acts); AtHead(s.worker, FlushRead) && s.worker.phase.Got? && s.buffer != []
    ensures var s := Run(Initial(), acts);
            var t := Step(s, Finish(Some(replies)));
            && t.log.conns == s.log.conns + [Conn(s.buffer, replies)]
            && Live(t.worker) && t.worker.batch.value.events == s.buffer && t.buffer == s.buffer
  {
    RunKeepsInv(acts);
  }

  /** Once a paste is stored, a flush is under way exactly when one was, or ten events are buffered. */
  lemma LongBufferFlushes(acts: seq<Action>, replies: Option<seq<bool>>)
    requires var w := Run(Initial(), acts).worker; w.queue != [] && w.queue[0].Append? && w.phase.Wrote?
    ensures var s := Run(Initial(), acts);
            var t := Step(s, Finish(replies));
            && (t.worker.flushInProgress <==> s.worker.flushInProgress || |s.buffer| >= 10)
            && t.worker.queue == s.worker.queue[1..] +
               if t.worker.flushInProgress && !s.worker.flushInProgress then [FlushRead] else []
  {
    RunKeepsInv(acts);
  }

  // ---------------------------------------------------------------- running on

  lemma {:induction false} RunsJoin(s: World, x: seq<Action>, y: seq<Action>)
    ensures Run(s, x + y) == Run(Run(s, x), y)
    decreases |y|
  {
    if y == [] {
      assert x + y == x;
    } else {
      RunsJoin(s, x, y[..|y| - 1]);
      assert (x + y)[..|x + y| - 1] == x + y[..|y| - 1];
    }
  }

  lemma RunOne(s: World, a: Action)
    ensures Run(s, [a]) == Step(s, a)
  {
    assert [a][..0] == [];
    assert Run(s, []) == s;
  }

  lemma {:induction false} RunOnKeepsInv(s: World, acts: seq<Action>)
    requires Inv(s)
    ensures Inv(Run(s, acts))
    decreases |acts|
  {
    if acts != [] {
      RunOnKeepsInv(s, acts[..|acts| - 1]);
      StepKeepsInv(Run(s, acts[..|acts| - 1]), acts[|acts| - 1]);
    }
  }

  /** Only what the worker and its host do by themselves: nothing is pasted and no one restarts it. */
  predicate OnItsOwn(acts: seq<Action>) { forall a | a in acts :: !a.Paste? && !a.Restart? }

  /** `acts` leads from `s` to `t`. */
  ghost predicate Leads(s: World, acts: seq<Action>, t: World) { OnItsOwn(acts) && Run(s, acts) == t }

  lemma LeadsOn(s: World, x: seq<Action>, t: World, y: seq<Action>, u: World)
    requires Leads(s, x, t) && Leads(t, y, u)
    ensures Leads(s, x + y, u)
  {
    RunsJoin(s, x, y);
  }

  lemma LeadsOne(s: World, a: Action)
    requires !a.Paste? && !a.Restart?
    ensures Leads(s, [a], Step(s, a))
  {
    RunOne(s, a);
  }

  /** The section at the head reads the buffer, if it has not done so. */
  lemma Reads(s: World) returns (acts: seq<Action>, t: World)
    requires Inv(s) && s.worker.queue != [] && !s.worker.phase.Wrote?
    ensures Leads(s, acts, t) && t == s.(worker := s.worker.(phase := Got(s.buffer)))
  {
    if s.worker.phase.Idle? {
      LeadsOne(s, Get);
      acts, t := [Get], Step(s, Get);
    } else {
      acts, t := [], s;
    }
  }

  /** A waiting paste is stored; a flush is under way, so none is started. */
  lemma StoresOne(s: World) returns (acts: seq<Action>, t: World)
    requires Inv(s) && s.worker.queue != [] && s.worker.queue[0].Append? && s.worker.flushInProgress
    ensures Leads(s, acts, t) && t.worker == Popped(s.worker)
    ensures t.log == s.log.(stored := t.log.stored) && s.log.stored <= t.log.stored && s.buffer <= t.buffer
  {
    acts, t := [], s;
    if !s.worker.phase.Wrote? {
      acts, t := Reads(s);
      LeadsOne(t, Set);
      LeadsOn(s, acts, t, [Set], Step(t, Set));
      acts, t := acts + [Set], Step(t, Set);
    }
    LeadsOne(t, Finish(None));
    LeadsOn(s, acts, t, [Finish(None)], Step(t, Finish(None)));
    acts, t := acts + [Finish(None)], Step(t, Finish(None));
  }

  /** Every paste ahead of the queued flush section is stored. */
  lemma {:induction false} ReachesFlush(s: World, op: Op) returns (acts: seq<Action>, t: World)
    requires Inv(s) && s.worker.flushInProgress && FlushOps(s.worker.queue) == [op]
    ensures Leads(s, acts, t) && Inv(t) && AtHead(t.worker, op) && t.worker.flushInProgress
    ensures FlushOps(t.worker.queue) == [op] && t.worker.batch == s.worker.batch
    ensures t.log == s.log.(stored := t.log.stored) && s.log.stored <= t.log.stored && s.buffer <= t.buffer
    ensures DropPending(s.worker) ==> DropPending(t.worker)
    decreases |s.worker.queue|
  {
    FlushOpsPop(s.worker.queue);
    if s.worker.queue[0].Append? {
      var x, u := StoresOne(s);
      RunOnKeepsInv(s, x);
      var y;
      y, t := ReachesFlush(u, op);
      LeadsOn(s, x, u, y, t);
      acts := x + y;
    } else {
      acts, t := [], s;
    }
  }

  /** A drop at the head is written and done. */
  lemma DropsHead(s: World, n: nat) returns (acts: seq<Action>, t: World)
    requires Inv(s) && AtHead(s.worker, FlushDrop(n)) && !s.worker.phase.Wrote? && n <= |s.buffer|
    ensures Leads(s, acts, t) && t.buffer == s.buffer[n..]
    ensures t.worker == Popped(s.worker).(flushInProgress := false)
    ensures t.log.dropped == s.log.dropped + s.buffer[..n] && t.log.stored == s.log.stored
  {
    var y, v := Reads(s);
    LeadsOne(v, Set);
    var w := Step(v, Set);
    LeadsOn(s, y, v, [Set], w);
    LeadsOne(w, Finish(None));
    t := Step(w, Finish(None));
    LeadsOn(s, y + [Set], w, [Finish(None)], t);
    acts := y + [Set] + [Finish(None)];
  }

  lemma DropFits(s: World, n: nat)
    requires Inv(s) && FlushOps(s.worker.queue) == [FlushDrop(n)] && DropPending(s.worker)
    ensures n <= |s.buffer|
  {
  }

  /** A drop that is due gets written, and the flag comes down. */
  lemma Drops(s: World, n: nat) returns (acts: seq<Action>, t: World)
    requires Inv(s) && s.worker.flushInProgress && FlushOps(s.worker.queue) == [FlushDrop(n)] && DropPending(s.worker)
    ensures Leads(s, acts, t) && Inv(t) && !t.worker.flushInProgress && n <= |s.buffer|
    ensures t.log.dropped == s.log.dropped + s.buffer[..n] && s.buffer[n..] <= t.buffer
    ensures s.log.stored <= t.log.stored
  {
    DropFits(s, n);
    var x, u := ReachesFlush(s, FlushDrop(n));
    var y;
    y, t := DropsHead(u, n);
    assert Inv(t) by { RunOnKeepsInv(u, y); }
    assert Leads(s, x + y, t) by { LeadsOn(s, x, u, y, t); }
    acts := x + y;
    assert u.buffer[..n] == s.buffer[..n];
  }

  /** Every event of the open batch will be answered ok. */
  predicate AllOk(s: World) {
    && Live(s.worker) && s.log.conns != []
    && var c := Last(s.log.conns);
    |c.events| <= |c.replies| && forall k | 0 <= k < |c.events| :: c.replies[k]
  }

  lemma {:induction false} Settles(s: World) returns (acts: seq<Action>, t: World)
    requires Inv(s) && AllOk(s)
    ensures Leads(s, acts, t) && Inv(t) && t.log == s.log && t.buffer == s.buffer && t.worker.flushInProgress
    ensures FlushOps(t.worker.queue) == [FlushDrop(|s.worker.batch.value.events|)] && DropPending(t.worker)
    decreases |s.worker.batch.value.events| - s.worker.batch.value.acked
  {
    var b, u := s.worker.batch.value, Step(s, Reply);
    LeadsOne(s, Reply);
    StepKeepsInv(s, Reply);
    FlushOpsPush(s.worker.queue, FlushDrop(|b.events|));
    if s.worker.queue != [] { FlushOpsPop(s.worker.queue); }
    if b.acked + 1 == |b.events| {
      acts, t := [Reply], u;
      assert t.worker.queue == s.worker.queue + [FlushDrop(|b.events|)];
    } else {
      var y;
      y, t := Settles(u);
      LeadsOn(s, [Reply], u, y, t);
      acts := [Reply] + y;
    }
  }

  /** From an open batch whose replies are all ok, the whole batch leaves the front of the buffer. */
  lemma AckedBatchIsDropped(s: World) returns (acts: seq<Action>, t: World)
    requires Inv(s) && AllOk(s)
    ensures Leads(s, acts, t) && Inv(t) && !t.worker.flushInProgress
    ensures var n := |s.worker.batch.value.events|;
            && t.log.dropped == s.log.dropped + s.worker.batch.value.events
            && n <= |s.buffer| && s.buffer[n..] <= t.buffer
  {
    var events := s.worker.batch.value.events;
    assert events == s.buffer[..|events|];
    var x, u := Settles(s);
    var y;
    y, t := Drops(u, |events|);
    LeadsOn(s, x, u, y, t);
    acts := x + y;
  }

  function Oks(n: nat): seq<bool> { seq(n, _ => true) }

  /** A queued flush, with a host that answers ok, drops everything stored by then. */
  lemma FlushDelivers(s: World) returns (acts: seq<Action>, t: World)
    requires Inv(s) && s.worker.flushInProgress && FlushOps(s.worker.queue) == [FlushRead]
    ensures Leads(s, acts, t) && Inv(t) && !t.worker.flushInProgress && s.log.stored <= t.log.dropped
  {
    var x, u := ReachesFlush(s, FlushRead);
    var y, v := Reads(u);
    LeadsOn(s, x, u, y, v);
    var finish := Finish(Some(Oks(|v.buffer|)));
    RunOnKeepsInv(u, y);
    StepKeepsInv(v, finish);
    LeadsOne(v, finish);
    t := Step(v, finish);
    LeadsOn(s, x + y, v, [finish], t);
    acts := x + y + [finish];
    if v.buffer != [] {
      var z, w := AckedBatchIsDropped(t);
      LeadsOn(s, acts, t, z, w);
      acts, t := acts + z, w;
    }
  }

  lemma {:induction false} FlushOpsAreNoAppends(q: seq<Op>)
    ensures forall op | op in FlushOps(q) :: !op.Append?
    decreases |q|
  {
    if q != [] { FlushOpsAreNoAppends(q[..|q| - 1]); }
  }

  /** An open batch is cut off. */
  lemma CutsOff(s: World) returns (acts: seq<Action>, t: World)
    requires Inv(s)
    ensures Leads(s, acts, t) && Inv(t) && !Live(t.worker) && s.log == t.log
  {
    acts, t := [], s;
    if Live(s.worker) {
      LeadsOne(s, Disconnect);
      StepKeepsInv(s, Disconnect);
      acts, t := [Disconnect], Step(s, Disconnect);
    }
  }

  /** From any state the worker gets to where no flush, or only a new one, is under way. */
  lemma ClearsTheWay(s: World) returns (acts: seq<Action>, t: World)
    requires Inv(s)
    ensures Leads(s, acts, t) && Inv(t) && s.log.stored <= t.log.stored
    ensures t.worker.flushInProgress ==> FlushOps(t.worker.queue) == [FlushRead]
  {
    acts, t := CutsOff(s);
    var ops := FlushOps(t.worker.queue);
    FlushOpsAreNoAppends(t.worker.queue);
    if t.worker.flushInProgress && ops[0].FlushDrop? {
      assert ops == [FlushDrop(ops[0].count)];
      var y, u := EndsDrop(t, ops[0].count);
      LeadsOn(s, acts, t, y, u);
      acts, t := acts + y, u;
    }
  }

  lemma EndsDrop(s: World, n: nat) returns (acts: seq<Action>, t: World)
    requires Inv(s) && s.worker.flushInProgress && FlushOps(s.worker.queue) == [FlushDrop(n)]
    ensures Leads(s, acts, t) && Inv(t) && !t.worker.flushInProgress && s.log.stored <= t.log.stored
  {
    if DropPending(s.worker) {
      acts, t := Drops(s, n);
    } else {
      FlushOpsPop(s.worker.queue);
      LeadsOne(s, Finish(None));
      StepKeepsInv(s, Finish(None));
      acts, t := [Finish(None)], Step(s, Finish(None));
    }
  }

  /**
   * From every state of every history, restarts included, a host that answers ok lets the worker
   * drop every event stored so far, without another paste or restart.
   */
  lemma StoredCanBeDelivered(acts: seq<Action>) returns (more: seq<Action>)
    ensures OnItsOwn(more)
    ensures Run(Initial(), acts).log.stored <= Run(Run(Initial(), acts), more).log.dropped
  {
    RunKeepsInv(acts);
    var s := Run(Initial(), acts);
    var x, t := ClearsTheWay(s);
    more := x;
    if !t.worker.flushInProgress {
      LeadsOne(t, Alarm);
      StepKeepsInv(t, Alarm);
      FlushOpsPush(t.worker.queue, FlushRead);
      var u := Step(t, Alarm);
      LeadsOn(s, more, t, [Alarm], u);
      more, t := more + [Alarm], u;
    }
    var y, v := FlushDelivers(t);
    LeadsOn(s, more, t, y, v);
    more := more + y;
  }
}
