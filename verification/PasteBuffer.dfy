/**
 * The extension's durable paste buffer (background.js): critical sections serialised by
 * `runExclusive`, one flusher at a time, acknowledgements counted from the front, and a service
 * worker that may be restarted between any two steps. Storage reads and writes succeed.
 */
module PasteBuffer {
  import opened Base

  datatype Event = Event(domain: string, occurredAt: string, length: Option<int>, hash: Option<string>)

  /** A critical section waiting in, or running at the head of, the storage queue. */
  datatype Op = Append(event: Event) | FlushRead | FlushDrop(count: nat)

  /** How far the section at the head has come: its read and its write each take effect once. */
  datatype Phase = Idle | Got(value: seq<Event>) | Wrote(value: seq<Event>)

  /** One `sendBatch`: what it posted, and the closure's `acked` and `settled`. */
  datatype Batch = Batch(events: seq<Event>, received: nat, acked: nat, settled: bool)

  /** What dies with the service worker. */
  datatype Worker = Worker(queue: seq<Op>, phase: Phase, flushInProgress: bool, batch: Option<Batch>)

  /** One native-messaging connection: what went down it, and the statuses it will answer with. */
  datatype Conn = Conn(events: seq<Event>, replies: seq<bool>)

  /** The reply that justified a drop. */
  datatype Ack = Ack(conn: nat, index: nat)

  /** What happened so far; the program does not see it. */
  datatype Log = Log(stored: seq<Event>, dropped: seq<Event>, acks: seq<Ack>, conns: seq<Conn>)

  /** The worker, the array under STORAGE_KEY, and the log. */
  datatype World = World(worker: Worker, buffer: seq<Event>, log: Log)

  /** `Finish` carries the statuses a new connection will answer with, or None when connectNative throws. */
  datatype Action =
    | Paste(event: Event)
    | Alarm
    | Get
    | Set
    | Finish(replies: Option<seq<bool>>)
    | Reply
    | Disconnect
    | Timeout
    | Restart

  const COUNT_THRESHOLD := 10

  const FRESH := Worker([], Idle, false, None)

  function Initial(): World { World(FRESH, [], Log([], [], [], [])) }

  function Min(a: nat, b: nat): nat { if a <= b then a else b }

  // ---------------------------------------------------------------- the program's steps

  function Enqueue(w: Worker, op: Op): Worker { w.(queue := w.queue + [op]) }

  /** `flush`. */
  function Flush(w: Worker): Worker {
    if w.flushInProgress then w else Enqueue(w.(flushInProgress := true), FlushRead)
  }

  /** `finish` inside `sendBatch`: only the first call counts; it queues the drop. */
  function Settle(w: Worker, b: Batch): Worker {
    if b.settled then w.(batch := Some(b))
    else Enqueue(w.(batch := Some(b.(settled := true))), FlushDrop(b.acked))
  }

  /** The port's message listener. */
  function OnReply(w: Worker, b: Batch, ok: bool): Worker {
    var b := b.(received := b.received + 1);
    if !ok then Settle(w, b)
    else
      var b := b.(acked := b.acked + 1);
      if b.acked == |b.events| then Settle(w, b) else w.(batch := Some(b))
  }

  /** The write of a `bufferEvent`. */
  function WriteAppend(s: World, e: Event, v: seq<Event>): World {
    s.(worker := s.worker.(phase := Wrote(v)), buffer := v + [e], log := s.log.(stored := s.log.stored + [e]))
  }

  /** The write of a flush's drop: `slice(count)`, which may be past the end. */
  function WriteDrop(s: World, n: nat, v: seq<Event>): World {
    var n := Min(n, |v|);
    s.(worker := s.worker.(phase := Wrote(v)), buffer := v[n..], log := LogDrop(s.log, v[..n]))
  }

  function LogDrop(l: Log, events: seq<Event>): Log {
    l.(dropped := l.dropped + events, acks := l.acks + AcksOf(|l.conns|, |events|))
  }

  function AcksOf(conns: nat, n: nat): seq<Ack> {
    seq(n, k requires 0 <= k < n => Ack(if conns == 0 then 0 else conns - 1, k))
  }

  /** The queue moves on. */
  function Popped(w: Worker): Worker
    requires w.queue != []
  {
    w.(queue := w.queue[1..], phase := Idle)
  }

  /** After a `bufferEvent`: a long buffer starts a flush. */
  function AfterAppend(w: Worker, newLength: nat): Worker {
    if newLength >= COUNT_THRESHOLD then Flush(w) else w
  }

  /** After a flush read the buffer: `sendBatch`, unless there is nothing to send. */
  function AfterRead(s: World, w: Worker, v: seq<Event>, replies: Option<seq<bool>>): World {
    if v == [] then s.(worker := w.(flushInProgress := false))
    else if replies == None then s.(worker := Enqueue(w, FlushDrop(0)))
    else s.(worker := w.(batch := Some(Batch(v, 0, 0, false))),
            log := s.log.(conns := s.log.conns + [Conn(v, replies.value)]))
  }

  /** One step; an action that is not enabled changes nothing. */
  function Step(s: World, a: Action): World {
    var w := s.worker;
    match a
    case Paste(e) => s.(worker := Enqueue(w, Append(e)))
    case Alarm => s.(worker := Flush(w))
    case Get => if w.queue != [] && w.phase.Idle? then s.(worker := w.(phase := Got(s.buffer))) else s
    case Set =>
      if w.queue == [] || !w.phase.Got? then s
      else (match w.queue[0]
            case Append(e) => WriteAppend(s, e, w.phase.value)
            case FlushRead => s
            case FlushDrop(n) => WriteDrop(s, n, w.phase.value))
    case Finish(replies) =>
      if w.queue == [] then s
      else (match w.queue[0]
            case Append(_) => if w.phase.Wrote? then s.(worker := AfterAppend(Popped(w), |w.phase.value| + 1)) else s
            case FlushRead => if w.phase.Got? then AfterRead(s, Popped(w), w.phase.value, replies) else s
            case FlushDrop(_) => if w.phase.Wrote? then s.(worker := Popped(w).(flushInProgress := false)) else s)
    case Reply =>
      if w.batch.Some? && s.log.conns != [] && w.batch.value.received < |Last(s.log.conns).replies|
      then s.(worker := OnReply(w, w.batch.value, Last(s.log.conns).replies[w.batch.value.received])) else s
    case Disconnect => if w.batch.Some? then s.(worker := Settle(w, w.batch.value)) else s
    case Timeout => if w.batch.Some? then s.(worker := Settle(w, w.batch.value)) else s
    case Restart => s.(worker := FRESH)
  }

  function Last(c: seq<Conn>): Conn
    requires c != []
  {
    c[|c| - 1]
  }

  function Run(s: World, acts: seq<Action>): World
    decreases |acts|
  {
    if acts == [] then s else Step(Run(s, acts[..|acts| - 1]), acts[|acts| - 1])
  }

  // ---------------------------------------------------------------- the invariant

  /** The flush sections in the queue. */
  function FlushOps(q: seq<Op>): seq<Op>
    decreases |q|
  {
    if q == [] then [] else FlushOps(q[..|q| - 1]) + if q[|q| - 1].Append? then [] else [q[|q| - 1]]
  }

  predicate Live(w: Worker) { w.batch.Some? && !w.batch.value.settled }

  /** The first `n` events of connection `c` were each answered ok. */
  predicate Acked(c: Conn, n: nat) {
    n <= |c.replies| && n <= |c.events| && forall k | 0 <= k < n :: c.replies[k]
  }

  /** A drop still to be written covers acknowledged events at the front of the buffer. */
  predicate DropOk(s: World, n: nat) {
    n == 0 || (s.log.conns != [] && Acked(Last(s.log.conns), n) && Last(s.log.conns).events[..n] <= s.buffer)
  }

  predicate BatchOk(s: World, b: Batch) {
    && s.log.conns != [] && Last(s.log.conns).events == b.events <= s.buffer
    && b.acked == b.received < |b.events| && Acked(Last(s.log.conns), b.acked)
  }

  predicate PhaseOk(s: World) {
    var w := s.worker;
    match w.phase
    case Idle => true
    case Got(v) => w.queue != [] && v == s.buffer
    case Wrote(v) =>
      w.queue != [] && !w.queue[0].FlushRead? && (w.queue[0].Append? ==> s.buffer == v + [w.queue[0].event])
  }

  /** A flush drop is queued and not yet written. */
  predicate DropPending(w: Worker) {
    FlushOps(w.queue) != [] && FlushOps(w.queue)[0].FlushDrop?
      && !(w.phase.Wrote? && w.queue != [] && w.queue[0].FlushDrop?)
  }

  /** One flusher: the flag is up exactly while one flush section is queued or one batch is open. */
  predicate OneFlusher(w: Worker) {
    |FlushOps(w.queue)| + (if Live(w) then 1 else 0) == if w.flushInProgress then 1 else 0
  }

  predicate Justified(l: Log, i: nat)
    requires i < |l.dropped| && |l.acks| == |l.dropped|
  {
    var a := l.acks[i];
    a.conn < |l.conns| && a.index < |l.conns[a.conn].events| && a.index < |l.conns[a.conn].replies|
    && l.conns[a.conn].events[a.index] == l.dropped[i] && l.conns[a.conn].replies[a.index]
  }

  predicate AllJustified(l: Log) {
    |l.acks| == |l.dropped| && forall i | 0 <= i < |l.dropped| :: Justified(l, i)
  }

  predicate Inv(s: World) {
    && s.log.stored == s.log.dropped + s.buffer
    && PhaseOk(s)
    && OneFlusher(s.worker)
    && (Live(s.worker) ==> BatchOk(s, s.worker.batch.value))
    && (DropPending(s.worker) ==> DropOk(s, FlushOps(s.worker.queue)[0].count))
    && AllJustified(s.log)
  }

  // ---------------------------------------------------------------- every step keeps it

  lemma {:induction false} FlushOpsPop(q: seq<Op>)
    requires q != []
    ensures FlushOps(q) == (if q[0].Append? then [] else [q[0]]) + FlushOps(q[1..])
    decreases |q|
  {
    if |q| > 1 {
      var front := q[..|q| - 1];
      FlushOpsPop(front);
      assert front[1..] == q[1..][..|q| - 2];
    }
  }

  lemma SettleKeeps(s: World, b: Batch)
    requires Inv(s) && s.worker.batch.Some? && s.worker.batch.value.settled == b.settled
    requires !b.settled ==> b.events == s.worker.batch.value.events && DropOk(s, b.acked)
    ensures Inv(s.(worker := Settle(s.worker, b)))
  {
  }

  lemma LiveReplyKeeps(s: World, b: Batch, ok: bool)
    requires Inv(s) && s.worker.batch == Some(b) && !b.settled
    requires b.received < |Last(s.log.conns).replies| && ok == Last(s.log.conns).replies[b.received]
    ensures Inv(s.(worker := OnReply(s.worker, b, ok)))
  {
    var b1 := b.(received := b.received + 1);
    if !ok {
      SettleKeeps(s, b1);
    } else {
      var b2 := b1.(acked := b1.acked + 1);
      if b2.acked == |b2.events| {
        assert b2.events[..b2.acked] == b2.events;
        SettleKeeps(s, b2);
      }
    }
  }

  /** A late reply finds the batch settled and changes nothing that matters. */
  lemma LateReplyKeeps(s: World, b: Batch, ok: bool)
    requires Inv(s) && s.worker.batch == Some(b) && b.settled
    ensures Inv(s.(worker := OnReply(s.worker, b, ok)))
  {
  }

  lemma ReplyKeeps(s: World)
    requires Inv(s)
    ensures Inv(Step(s, Reply))
  {
    if s.worker.batch.Some? && s.log.conns != [] && s.worker.batch.value.received < |Last(s.log.conns).replies| {
      var b := s.worker.batch.value;
      var ok := Last(s.log.conns).replies[b.received];
      if b.settled { LateReplyKeeps(s, b, ok); } else { LiveReplyKeeps(s, b, ok); }
    }
  }

  lemma WriteAppendKeeps(s: World, e: Event)
    requires Inv(s) && s.worker.queue != [] && s.worker.phase == Got(s.buffer) && s.worker.queue[0] == Append(e)
    ensures Inv(WriteAppend(s, e, s.buffer))
  {
    var t := WriteAppend(s, e, s.buffer);
    assert s.log.stored + [e] == s.log.dropped + (s.buffer + [e]);
    assert AllJustified(t.log) by { JustifiedWhenStored(s.log, e); }
    if Live(s.worker) { assert BatchOk(t, t.worker.batch.value); }
    if DropPending(s.worker) { assert DropOk(t, FlushOps(s.worker.queue)[0].count); }
  }

  lemma JustifiedWhenStored(l: Log, e: Event)
    requires AllJustified(l)
    ensures AllJustified(l.(stored := l.stored + [e]))
  {
    var l' := l.(stored := l.stored + [e]);
    forall i | 0 <= i < |l'.dropped| ensures Justified(l', i) { assert Justified(l, i); }
  }

  lemma WriteDropKeeps(s: World, n: nat)
    requires Inv(s) && s.worker.queue != [] && s.worker.phase == Got(s.buffer) && s.worker.queue[0] == FlushDrop(n)
    ensures Inv(WriteDrop(s, n, s.buffer))
  {
    FlushOpsPop(s.worker.queue);
    assert FlushOps(s.worker.queue)[0].count == n;
    assert s.log.dropped + s.buffer == (s.log.dropped + s.buffer[..n]) + s.buffer[n..];
    DropJustified(s, n);
  }

  lemma DropJustified(s: World, n: nat)
    requires AllJustified(s.log) && DropOk(s, n)
    ensures n <= |s.buffer| && AllJustified(LogDrop(s.log, s.buffer[..n]))
  {
    var l := s.log;
    var l' := LogDrop(l, s.buffer[..n]);
    forall i | 0 <= i < |l'.dropped| ensures Justified(l', i) {
      if i < |l.dropped| {
        assert Justified(l, i);
      } else {
        var k := i - |l.dropped|;
        assert l'.dropped[i] == s.buffer[k] == Last(l.conns).events[..n][k];
      }
    }
  }

  /** Moving the queue on past a stored append keeps everything. */
  lemma PopAppendKeeps(s: World)
    requires Inv(s) && s.worker.queue != [] && s.worker.phase.Wrote? && s.worker.queue[0].Append?
    ensures Inv(s.(worker := Popped(s.worker)))
  {
    FlushOpsPop(s.worker.queue);
  }

  lemma FinishAppendKeeps(s: World, newLength: nat)
    requires Inv(s) && s.worker.queue != [] && s.worker.phase.Wrote? && s.worker.queue[0].Append?
    ensures Inv(s.(worker := AfterAppend(Popped(s.worker), newLength)))
  {
    PopAppendKeeps(s);
  }

  lemma FinishDropKeeps(s: World)
    requires Inv(s) && s.worker.queue != [] && s.worker.phase.Wrote? && s.worker.queue[0].FlushDrop?
    ensures Inv(s.(worker := Popped(s.worker).(flushInProgress := false)))
  {
    FlushOpsPop(s.worker.queue);
  }

  lemma ConnKeepsJustified(l: Log, c: Conn)
    requires AllJustified(l)
    ensures AllJustified(l.(conns := l.conns + [c]))
  {
    var l' := l.(conns := l.conns + [c]);
    forall i | 0 <= i < |l'.dropped| ensures Justified(l', i) {
      assert Justified(l, i);
    }
  }

  /** A flush that found nothing, or could not connect, is over or drops nothing. */
  lemma FinishIdleReadKeeps(s: World)
    requires Inv(s) && s.worker.queue != [] && s.worker.phase == Got(s.buffer) && s.worker.queue[0].FlushRead?
    ensures Inv(s.(worker := Popped(s.worker).(flushInProgress := false)))
    ensures Inv(s.(worker := Enqueue(Popped(s.worker), FlushDrop(0))))
  {
    FlushOpsPop(s.worker.queue);
    assert FlushOps(Popped(s.worker).queue) == [];
  }

  lemma ConnectKeeps(s: World, replies: seq<bool>)
    requires Inv(s) && s.worker.queue != [] && s.worker.phase == Got(s.buffer) && s.worker.queue[0].FlushRead?
             && s.buffer != []
    ensures Inv(AfterRead(s, Popped(s.worker), s.buffer, Some(replies)))
  {
    FlushOpsPop(s.worker.queue);
    assert FlushOps(Popped(s.worker).queue) == [];
    ConnKeepsJustified(s.log, Conn(s.buffer, replies));
  }

  lemma FinishReadKeeps(s: World, replies: Option<seq<bool>>)
    requires Inv(s) && s.worker.queue != [] && s.worker.phase == Got(s.buffer) && s.worker.queue[0].FlushRead?
    ensures Inv(AfterRead(s, Popped(s.worker), s.buffer, replies))
  {
    FinishIdleReadKeeps(s);
    if s.buffer != [] && replies.Some? { ConnectKeeps(s, replies.value); }
  }

  lemma SetKeeps(s: World)
    requires Inv(s)
    ensures Inv(Step(s, Set))
  {
    var w := s.worker;
    if w.queue != [] && w.phase.Got? {
      match w.queue[0]
      case Append(e) => WriteAppendKeeps(s, e);
      case FlushRead =>
      case FlushDrop(n) => WriteDropKeeps(s, n);
    }
  }

  lemma FinishKeeps(s: World, replies: Option<seq<bool>>)
    requires Inv(s)
    ensures Inv(Step(s, Finish(replies)))
  {
    var w := s.worker;
    if w.queue != [] {
      match w.queue[0]
      case Append(_) => if w.phase.Wrote? { FinishAppendKeeps(s, |w.phase.value| + 1); }
      case FlushRead => if w.phase.Got? { FinishReadKeeps(s, replies); }
      case FlushDrop(_) => if w.phase.Wrote? { FinishDropKeeps(s); }
    }
  }

  lemma GetKeeps(s: World)
    requires Inv(s)
    ensures Inv(Step(s, Get))
  {
  }

  lemma StepKeepsInv(s: World, a: Action)
    requires Inv(s)
    ensures Inv(Step(s, a))
  {
    match a
    case Paste(e) =>
    case Alarm =>
    case Get => GetKeeps(s);
    case Set => SetKeeps(s);
    case Finish(replies) => FinishKeeps(s, replies);
    case Reply => ReplyKeeps(s);
    case Disconnect => EndKeeps(s);
    case Timeout => EndKeeps(s);
    case Restart =>
  }

  lemma EndKeeps(s: World)
    requires Inv(s)
    ensures s.worker.batch.Some? ==> Inv(s.(worker := Settle(s.worker, s.worker.batch.value)))
  {
    if s.worker.batch.Some? {
      SettleKeeps(s, s.worker.batch.value);
    }
  }

  lemma {:induction false} RunKeepsInv(acts: seq<Action>)
    ensures Inv(Run(Initial(), acts))
    decreases |acts|
  {
    if acts != [] {
      RunKeepsInv(acts[..|acts| - 1]);
      StepKeepsInv(Run(Initial(), acts[..|acts| - 1]), acts[|acts| - 1]);
    }
  }

  // ---------------------------------------------------------------- what it gives

  /** In every run what was stored is what was dropped followed by what is still buffered. */
  lemma NothingStoredIsLost(acts: seq<Action>)
    ensures var s := Run(Initial(), acts); s.log.stored == s.log.dropped + s.buffer
  {
    RunKeepsInv(acts);
  }

  /** An open flush always sends a prefix of the buffer, and at most one is open. */
  lemma OpenFlushIsPrefix(acts: seq<Action>)
    ensures var s := Run(Initial(), acts);
            Live(s.worker) ==>
              s.worker.batch.value.events <= s.buffer && s.worker.flushInProgress && FlushOps(s.worker.queue) == []
  {
    RunKeepsInv(acts);
  }

  /** The flag is never stuck: while it is up a section that will lower it is queued, or a batch is open. */
  lemma FlagIsNeverStuck(acts: seq<Action>)
    ensures var w := Run(Initial(), acts).worker; w.flushInProgress <==> FlushOps(w.queue) != [] || Live(w)
  {
    RunKeepsInv(acts);
  }

  /** Every dropped event was answered ok on some connection that carried it. */
  lemma DropsAreAcked(acts: seq<Action>)
    ensures AllJustified(Run(Initial(), acts).log)
  {
    RunKeepsInv(acts);
  }

  /** Events taken in and not yet stored, in arrival order. */
  function Waiting(q: seq<Op>): seq<Event>
    decreases |q|
  {
    if q == [] then [] else Waiting(q[..|q| - 1]) + if q[|q| - 1].Append? then [q[|q| - 1].event] else []
  }

  function Pastes(acts: seq<Action>): seq<Event>
    decreases |acts|
  {
    if acts == [] then []
    else Pastes(acts[..|acts| - 1]) + if acts[|acts| - 1].Paste? then [acts[|acts| - 1].event] else []
  }

  /** The queue without a head whose write has already taken effect. */
  function Unwritten(w: Worker): seq<Op> {
    if w.phase.Wrote? && w.queue != [] then w.queue[1..] else w.queue
  }

  lemma {:induction false} WaitingPop(q: seq<Op>)
    requires q != []
    ensures Waiting(q) == (if q[0].Append? then [q[0].event] else []) + Waiting(q[1..])
    decreases |q|
  {
    if |q| > 1 {
      var front := q[..|q| - 1];
      WaitingPop(front);
      assert front[1..] == q[1..][..|q| - 2];
    }
  }

  /** Queueing a section adds its event, if it has one, to those waiting. */
  lemma EnqueueWaits(w: Worker, op: Op)
    requires w.phase.Wrote? ==> w.queue != []
    ensures Waiting(Unwritten(Enqueue(w, op))) == Waiting(Unwritten(w)) + if op.Append? then [op.event] else []
  {
    assert Unwritten(Enqueue(w, op)) == Unwritten(w) + [op];
  }

  lemma SettleWaits(w: Worker, b: Batch)
    requires w.phase.Wrote? ==> w.queue != []
    ensures Waiting(Unwritten(Settle(w, b))) == Waiting(Unwritten(w))
  {
    EnqueueWaits(w.(batch := Some(b.(settled := true))), FlushDrop(b.acked));
  }

  lemma ReplyWaits(w: Worker, b: Batch, ok: bool)
    requires w.phase.Wrote? ==> w.queue != []
    ensures Waiting(Unwritten(OnReply(w, b, ok))) == Waiting(Unwritten(w))
  {
    SettleWaits(w, b.(received := b.received + 1));
    SettleWaits(w, b.(received := b.received + 1, acked := b.acked + 1));
  }

  lemma FlushWaits(w: Worker)
    requires w.phase.Wrote? ==> w.queue != []
    ensures Waiting(Unwritten(Flush(w))) == Waiting(Unwritten(w))
  {
    EnqueueWaits(w.(flushInProgress := true), FlushRead);
  }

  lemma WriteAppendWaits(s: World, e: Event, v: seq<Event>)
    requires s.worker.queue != [] && s.worker.queue[0] == Append(e) && !s.worker.phase.Wrote?
    ensures var t := WriteAppend(s, e, v);
            t.log.stored + Waiting(Unwritten(t.worker)) == s.log.stored + Waiting(Unwritten(s.worker))
  {
    WaitingPop(s.worker.queue);
    var rest := Waiting(s.worker.queue[1..]);
    assert s.log.stored + ([e] + rest) == (s.log.stored + [e]) + rest;
  }

  lemma WriteDropWaits(s: World, n: nat, v: seq<Event>)
    requires s.worker.queue != [] && s.worker.queue[0] == FlushDrop(n) && !s.worker.phase.Wrote?
    ensures var t := WriteDrop(s, n, v);
            t.log.stored == s.log.stored && Waiting(Unwritten(t.worker)) == Waiting(Unwritten(s.worker))
  {
    WaitingPop(s.worker.queue);
    assert [] + Waiting(s.worker.queue[1..]) == Waiting(s.worker.queue[1..]);
  }

  lemma SetWaits(s: World)
    ensures var t := Step(s, Set);
            t.log.stored + Waiting(Unwritten(t.worker)) == s.log.stored + Waiting(Unwritten(s.worker))
  {
    var w := s.worker;
    if w.queue != [] && w.phase.Got? {
      match w.queue[0]
      case Append(e) => WriteAppendWaits(s, e, w.phase.value);
      case FlushRead =>
      case FlushDrop(n) => WriteDropWaits(s, n, w.phase.value);
    }
  }

  lemma PopWaits(w: Worker)
    requires w.queue != [] && (w.phase.Wrote? || !w.queue[0].Append?)
    ensures Waiting(Unwritten(Popped(w))) == Waiting(Unwritten(w))
  {
    if !w.phase.Wrote? { WaitingPop(w.queue); }
  }

  lemma AfterReadWaits(s: World, w: Worker, v: seq<Event>, replies: Option<seq<bool>>)
    requires w.phase.Idle?
    ensures var t := AfterRead(s, w, v, replies);
            t.log.stored == s.log.stored && Waiting(Unwritten(t.worker)) == Waiting(Unwritten(w))
  {
    EnqueueWaits(w, FlushDrop(0));
  }

  lemma FinishWaits(s: World, replies: Option<seq<bool>>)
    ensures var t := Step(s, Finish(replies));
            t.log.stored == s.log.stored && Waiting(Unwritten(t.worker)) == Waiting(Unwritten(s.worker))
  {
    var w := s.worker;
    if w.queue != [] {
      match w.queue[0]
      case Append(_) => if w.phase.Wrote? { PopWaits(w); FlushWaits(Popped(w)); }
      case FlushRead => if w.phase.Got? { PopWaits(w); AfterReadWaits(s, Popped(w), w.phase.value, replies); }
      case FlushDrop(_) => if w.phase.Wrote? { PopWaits(w); }
    }
  }

  /** One step takes in exactly the event it is given and stores waiting events in order. */
  lemma StepTakesIn(s: World, a: Action)
    requires PhaseOk(s) && !a.Restart?
    ensures var t, before := Step(s, a), s.log.stored + Waiting(Unwritten(s.worker));
            t.log.stored + Waiting(Unwritten(t.worker)) == if a.Paste? then before + [a.event] else before
  {
    var w := s.worker;
    match a
    case Paste(e) => EnqueueWaits(w, Append(e));
    case Alarm => FlushWaits(w);
    case Get =>
    case Set => SetWaits(s);
    case Finish(replies) => FinishWaits(s, replies);
    case Reply =>
      if w.batch.Some? && s.log.conns != [] && w.batch.value.received < |Last(s.log.conns).replies| {
        ReplyWaits(w, w.batch.value, Last(s.log.conns).replies[w.batch.value.received]);
      }
    case Disconnect => if w.batch.Some? { SettleWaits(w, w.batch.value); }
    case Timeout => if w.batch.Some? { SettleWaits(w, w.batch.value); }
  }

  /** What a worker takes down with it: the events taken in and not yet stored. */
  function AtRisk(acts: seq<Action>): seq<Event> { Waiting(Unwritten(Run(Initial(), acts).worker)) }

  /** The pastes of a history, without those that were waiting when the worker was restarted. */
  function Survivors(acts: seq<Action>): seq<Event>
    decreases |acts|
  {
    if acts == [] then []
    else
      var front, before := acts[..|acts| - 1], Survivors(acts[..|acts| - 1]);
      match acts[|acts| - 1]
      case Paste(e) => before + [e]
      case Restart => if |AtRisk(front)| <= |before| then before[..|before| - |AtRisk(front)|] else []
      case _ => before
  }

  function Lost(acts: seq<Action>): seq<Event>
    decreases |acts|
  {
    if acts == [] then []
    else Lost(acts[..|acts| - 1]) + if acts[|acts| - 1].Restart? then AtRisk(acts[..|acts| - 1]) else []
  }

  /**
   * In every history, restarts included, what was dropped, then what is buffered, then what waits
   * to be stored, is every paste in arrival order but those waiting at a restart.
   */
  lemma {:induction false} EveryPasteIsKept(acts: seq<Action>)
    ensures var s := Run(Initial(), acts);
            s.log.dropped + s.buffer + AtRisk(acts) == Survivors(acts)
    decreases |acts|
  {
    RunKeepsInv(acts);
    if acts != [] {
      var front, last := acts[..|acts| - 1], acts[|acts| - 1];
      EveryPasteIsKept(front);
      RunKeepsInv(front);
      if !last.Restart? { StepTakesIn(Run(Initial(), front), last); }
    }
  }

  /** A restart loses exactly the pastes then waiting. */
  lemma RestartLosesWaiting(acts: seq<Action>)
    ensures Survivors(acts) == Survivors(acts + [Restart]) + AtRisk(acts)
  {
    EveryPasteIsKept(acts);
    assert (acts + [Restart])[..|acts|] == acts;
  }

  /** Every paste either survives or was waiting at a restart, and is counted once. */
  lemma {:induction false} PastesAreAccountedFor(acts: seq<Action>)
    ensures multiset(Pastes(acts)) == multiset(Survivors(acts)) + multiset(Lost(acts))
    decreases |acts|
  {
    if acts != [] {
      var front, last := acts[..|acts| - 1], acts[|acts| - 1];
      PastesAreAccountedFor(front);
      assert Pastes(front) + [] == Pastes(front) && Lost(front) + [] == Lost(front);
      if last.Restart? {
        assert acts == front + [Restart];
        assert Survivors(front) == Survivors(acts) + AtRisk(front) by { RestartLosesWaiting(front); }
      }
    }
  }

  /** `a` is `b` with some elements left out. */
  predicate Subsequence(a: seq<Event>, b: seq<Event>)
    decreases |b|
  {
    || a == []
    || (&& b != []
        && (|| Subsequence(a, b[..|b| - 1])
            || (a[|a| - 1] == b[|b| - 1] && Subsequence(a[..|a| - 1], b[..|b| - 1]))))
  }

  lemma {:induction false} SubsequencePrefix(a: seq<Event>, b: seq<Event>, n: nat)
    requires Subsequence(a, b) && n <= |a|
    ensures Subsequence(a[..n], b)
    decreases |b|
  {
    if n == |a| {
      assert a[..n] == a;
    } else if Subsequence(a, b[..|b| - 1]) {
      SubsequencePrefix(a, b[..|b| - 1], n);
    } else {
      SubsequencePrefix(a[..|a| - 1], b[..|b| - 1], n);
      assert a[..|a| - 1][..n] == a[..n];
    }
  }

  /** And the survivors keep their arrival order. */
  lemma {:induction false} SurvivorsKeepOrder(acts: seq<Action>)
    ensures Subsequence(Survivors(acts), Pastes(acts))
    decreases |acts|
  {
    if acts != [] {
      var front, last := acts[..|acts| - 1], acts[|acts| - 1];
      SurvivorsKeepOrder(front);
      if !last.Paste? {
        assert Pastes(front) + [] == Pastes(front);
        if last.Restart? && |AtRisk(front)| <= |Survivors(front)| {
          SubsequencePrefix(Survivors(front), Pastes(front), |Survivors(front)| - |AtRisk(front)|);
        }
      }
    }
  }
}
