/**
 * End to end: the extension's buffer on one side, one native host per connection on the other,
 * and the framed bytes between them.
 */
module Delivery {
  import opened Base
  import P = PasteBuffer
  import N = NativeMessaging
  import F = PasteFlush

  /** The two JSON directions: what `postMessage` sends for an event, and the status of a response. */
  datatype Link = Link(codec: N.Codec, post: P.Event -> N.Bytes, status: N.Bytes -> bool)

  function Posted(l: Link, events: seq<P.Event>): seq<N.Bytes> {
    seq(|events|, i requires 0 <= i < |events| => l.post(events[i]))
  }

  function Outbound(e: P.Event): N.PasteEvent { N.PasteEvent(e.domain, e.occurredAt, e.length, e.hash, None) }

  /** What the extension posts parses as that event, and a response's status survives its encoding. */
  ghost predicate Faithful(l: Link) {
    && (forall e :: l.codec.parse(l.post(e)) == Some(N.Message(N.PASTE_EVENT, e.domain, e.occurredAt, e.length,
                                                               e.hash, None)))
    && (forall r :: l.status(l.codec.encode(r)) == r.ok)
  }

  function Statuses(l: Link, rs: seq<N.Read>): seq<bool> {
    seq(|rs|, i requires 0 <= i < |rs| => rs[i].Body? && l.status(rs[i].body))
  }

  /** Host `h` served connection `c`: its replies are what `h` writes for the framed events. */
  predicate Serves(l: Link, h: N.Host, c: P.Conn) {
    c.replies == Statuses(l, N.Reads(N.Served(l.codec, h, 0, N.Frames(Posted(l, c.events)))))
  }

  /** The browser only sends messages the host's cap allows. */
  predicate Sendable(l: Link, c: P.Conn) { N.WithinCap(Posted(l, c.events)) }

  /** Reply number `k` was ok only if sending event number `k` succeeded. */
  lemma OkReplyMeansSent(l: Link, h: N.Host, c: P.Conn, k: nat)
    requires Faithful(l) && Serves(l, h, c) && Sendable(l, c)
    requires k < |c.replies| && c.replies[k]
    ensures k < |c.events| && h.send(k, Outbound(c.events[k])) == N.Sent
  {
    N.SeenIsAnswer(l.codec, h, Posted(l, c.events), k);
    AnswerToPosted(l, h, k, c.events[k]);
  }

  /** Whichever host served connection `c` sent its event number `k` on. */
  ghost predicate WasSent(l: Link, c: P.Conn, k: nat) {
    && k < |c.events| && (exists h :: Serves(l, h, c))
    && forall h | Serves(l, h, c) :: h.send(k, Outbound(c.events[k])) == N.Sent
  }

  /** Every event the extension ever drops had a `Send` that returned success. */
  lemma EveryDropWasSent(l: Link, acts: seq<P.Action>, i: nat)
    requires Faithful(l)
    requires forall c | c in P.Run(P.Initial(), acts).log.conns :: Sendable(l, c) && exists h :: Serves(l, h, c)
    requires i < |P.Run(P.Initial(), acts).log.dropped|
    ensures var log := P.Run(P.Initial(), acts).log;
            exists c, k: nat :: c in log.conns && WasSent(l, c, k) && c.events[k] == log.dropped[i]
  {
    P.DropsAreAcked(acts);
    var log := P.Run(P.Initial(), acts).log;
    assert P.Justified(log, i);
    var c, k := log.conns[log.acks[i].conn], log.acks[i].index;
    assert c in log.conns;
    forall h | Serves(l, h, c) ensures k < |c.events| && h.send(k, Outbound(c.events[k])) == N.Sent {
      OkReplyMeansSent(l, h, c, k);
    }
    assert WasSent(l, c, k);
  }

  /** The event names its domain and a time. */
  predicate Good(l: Link, e: P.Event) { e.domain != "" && e.occurredAt != "" && l.codec.isTime(e.occurredAt) }

  lemma AnswerToPosted(l: Link, h: N.Host, k: nat, e: P.Event)
    requires Faithful(l)
    ensures N.HandleOne(l.codec, h, k, l.post(e)).ok <==> Good(l, e) && h.send(k, Outbound(e)) == N.Sent
    ensures N.HandleOne(l.codec, h, k, l.post(e)).ok ==>
              N.HandleOne(l.codec, h, k, l.post(e)) == N.Response(true, N.Nothing)
  {
    assert l.codec.parse(l.post(e)) == Some(N.Message("paste_event", e.domain, e.occurredAt, e.length, e.hash, None));
    N.OkMeansSent(l.codec, h, k, l.post(e));
  }

  /** The host can write its answer to event number `j`. */
  predicate AnswerGoesOut(l: Link, h: N.Host, c: P.Conn, j: nat)
    requires j < |c.events|
  {
    N.CanWrite(l.codec, h, j, N.HandleOne(l.codec, h, j, l.post(c.events[j])))
  }

  /** While its answers go out, reply number `k` comes, and is ok exactly when event number `k` is good and was sent. */
  lemma ReplyIsOkIff(l: Link, h: N.Host, c: P.Conn, k: nat)
    requires Faithful(l) && Serves(l, h, c) && Sendable(l, c)
    requires k < |c.events| && forall j | 0 <= j <= k :: AnswerGoesOut(l, h, c, j)
    ensures k < |c.replies|
    ensures c.replies[k] <==> Good(l, c.events[k]) && h.send(k, Outbound(c.events[k])) == N.Sent
  {
    var posted := Posted(l, c.events);
    forall j | 0 <= j <= k ensures N.CanWrite(l.codec, h, j, N.HandleOne(l.codec, h, j, posted[j])) {
      assert AnswerGoesOut(l, h, c, j);
    }
    N.AnswerIsSeen(l.codec, h, posted, k);
    N.SeenIsAnswer(l.codec, h, posted, k);
    AnswerToPosted(l, h, k, c.events[k]);
  }

  /** A host whose writes succeed, whose ok answer fits a frame, and that sends on every event of the connection. */
  predicate Healthy(l: Link, h: N.Host, c: P.Conn) {
    && |l.codec.encode(N.Response(true, N.Nothing))| <= 1048576
    && forall j | 0 <= j < |c.events| :: h.cut(j) == None && h.send(j, Outbound(c.events[j])) == N.Sent
  }

  predicate AllGood(l: Link, c: P.Conn) { forall j | 0 <= j < |c.events| :: Good(l, c.events[j]) }

  lemma HealthyHostAcks(l: Link, h: N.Host, c: P.Conn, k: nat)
    requires Faithful(l) && Serves(l, h, c) && Sendable(l, c) && Healthy(l, h, c) && AllGood(l, c) && k < |c.events|
    ensures k < |c.replies| && c.replies[k]
  {
    forall j | 0 <= j <= k ensures AnswerGoesOut(l, h, c, j) { AnswerToPosted(l, h, j, c.events[j]); }
    ReplyIsOkIff(l, h, c, k);
  }

  lemma AllAcked(l: Link, h: N.Host, c: P.Conn)
    requires Faithful(l) && Serves(l, h, c) && Sendable(l, c) && Healthy(l, h, c) && AllGood(l, c)
    ensures |c.events| <= |c.replies| && forall k | 0 <= k < |c.events| :: c.replies[k]
  {
    forall k | 0 <= k < |c.events| ensures k < |c.replies| && c.replies[k] { HealthyHostAcks(l, h, c, k); }
    if c.events != [] { HealthyHostAcks(l, h, c, |c.events| - 1); }
  }

  /**
   * The other direction end to end: good events on a connection to a healthy host are all answered
   * ok, so the flush that posted them goes on to drop the whole batch.
   */
  lemma HealthyHostDelivers(l: Link, h: N.Host, s: P.World) returns (acts: seq<P.Action>, t: P.World)
    requires Faithful(l) && P.Inv(s) && P.Live(s.worker)
    requires var c := P.Last(s.log.conns);
             Serves(l, h, c) && Sendable(l, c) && Healthy(l, h, c) && AllGood(l, c)
    ensures F.Leads(s, acts, t) && t.log.dropped == s.log.dropped + s.worker.batch.value.events
  {
    AllAcked(l, h, P.Last(s.log.conns));
    acts, t := F.AckedBatchIsDropped(s);
  }
}
