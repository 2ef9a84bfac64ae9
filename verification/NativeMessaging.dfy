/**
 * The native-messaging host (nativemsg.go): length-prefixed messages in, one length-prefixed
 * response out for each. JSON, the RFC 3339 parser and the collector's `Send` are parameters.
 */
module NativeMessaging {
  import opened Base

  type Bytes = seq<Byte>

  const MAX_MESSAGE_BYTES := 1048576

  datatype Message = Message(kind: string, domain: string, occurredAt: string, length: Option<int>,
                             hash: Option<string>, user: Option<string>)

  datatype PasteEvent = PasteEvent(domain: string, occurredAt: string, length: Option<int>, hash: Option<string>,
                                   user: Option<string>)

  /** Why a message was not forwarded. */
  datatype Note =
    | Nothing | InvalidJSON | UnknownType(quoted: string) | NoDomain | NoTime | BadTime(error: string)
    | ForwardingFailed | InternalError | MalformedMessage

  datatype Response = Response(ok: bool, note: Note)

  /** The text of a response. */
  function Text(n: Note): string {
    match n
    case Nothing => ""
    case InvalidJSON => "invalid JSON"
    case UnknownType(q) => "unknown message type " + q
    case NoDomain => "destination_domain is required"
    case NoTime => "occurred_at is required"
    case BadTime(e) => "occurred_at must be RFC3339: " + e
    case ForwardingFailed => "forwarding failed"
    case InternalError => "internal error"
    case MalformedMessage => "malformed message"
  }

  datatype Codec = Codec(
    parse: Bytes -> Option<Message>,
    isTime: string -> bool,
    quote: string -> string,
    timeError: string -> string,
    encode: Response -> Bytes)

  /** What `Send` does with an event: its error, if any, or a panic while handling it. */
  datatype Outcome = Sent | Failed | Panicked

  /**
   * One host process: `send` answers for the n-th frame it reads, and `cut` says after how many
   * bytes its n-th write breaks, if it does.
   */
  datatype Host = Host(send: (nat, PasteEvent) -> Outcome, cut: nat -> Option<nat>)

  // ---------------------------------------------------------------- streams

  /**
   * The pipe from the browser: the bytes not read yet. Past them a read finds the end of the
   * stream or, on a broken pipe, an error that is not the end and does not go away.
   */
  class Reader {
    var pending: Bytes
    const broken: bool

    constructor (bytes: Bytes, broken: bool)
      ensures pending == bytes && this.broken == broken
    {
      pending, this.broken := bytes, broken;
    }

    /** `io.ReadFull`: `n` bytes, or an error that has used up the stream. */
    method ReadFull(n: nat) returns (b: Option<Bytes>)
      modifies this`pending
      ensures if n <= |old(pending)| then b == Some(old(pending)[..n]) && pending == old(pending)[n..]
              else b == None && pending == []
    {
      if n <= |pending| {
        b := Some(pending[..n]);
        pending := pending[n..];
      } else {
        b := None;
        pending := [];
      }
    }
  }

  class Writer {
    var written: Bytes

    constructor ()
      ensures written == []
    {
      written := [];
    }
  }

  // ---------------------------------------------------------------- frames

  /** The low `k` octets of a count, least significant first. */
  function LittleEndian(n: nat, k: nat): Bytes
    decreases k
  {
    if k == 0 then [] else [(n % 256) as Byte] + LittleEndian(n / 256, k - 1)
  }

  function Value(b: Bytes): nat
    decreases |b|
  {
    if b == [] then 0 else b[0] as int + 256 * Value(b[1..])
  }

  function Power256(k: nat): nat
    decreases k
  {
    if k == 0 then 1 else 256 * Power256(k - 1)
  }

  /** The buffer a length prefix is read into. */
  const LEN_BUF: Bytes := [0, 0, 0, 0]

  const PREFIX_BYTES: nat := |LEN_BUF|

  function Frame(body: Bytes): Bytes { LittleEndian(|body|, PREFIX_BYTES) + body }

  /** What one `readMessage` finds: the end, a failing read, a refused prefix, or a body. */
  datatype Read = Closed | ReadFailed | TooLong | Body(body: Bytes)

  /** What it finds on a pipe that ends. */
  function ReadAt(s: Bytes): Read {
    if |s| < PREFIX_BYTES then Closed else ReadBody(Value(s[..PREFIX_BYTES]), s[PREFIX_BYTES..])
  }

  function ReadBody(n: nat, s: Bytes): Read {
    if n > MAX_MESSAGE_BYTES then TooLong
    else if |s| < n then Closed
    else Body(s[..n])
  }

  /** What is left of the stream after a read. A refused prefix is skipped alone. */
  function Rest(s: Bytes): Bytes {
    match ReadAt(s)
    case Closed => []
    case ReadFailed => []
    case TooLong => s[PREFIX_BYTES..]
    case Body(b) => s[PREFIX_BYTES..][|b|..]
  }

  /** Everything a host reads from a stream before its end. */
  function Reads(s: Bytes): seq<Read>
    decreases |s|
  {
    if ReadAt(s).Closed? then [] else [ReadAt(s)] + Reads(Rest(s))
  }

  function Joined(frame: Bytes -> Bytes, bodies: seq<Bytes>): Bytes
    decreases |bodies|
  {
    if bodies == [] then [] else frame(bodies[0]) + Joined(frame, bodies[1..])
  }

  function Frames(bodies: seq<Bytes>): Bytes { Joined(Frame, bodies) }

  /** What one `readMessage` finds on any pipe. */
  function ReadOn(s: Bytes, broken: bool): Read { if ReadAt(s).Closed? && broken then ReadFailed else ReadAt(s) }

  /** What the first `n` reads find, up to the end of the stream. */
  function Seen(s: Bytes, broken: bool, n: nat): seq<Read>
    decreases n
  {
    if n == 0 || ReadOn(s, broken).Closed? then [] else [ReadOn(s, broken)] + Seen(Rest(s), broken, n - 1)
  }

  method ReadMessage(r: Reader) returns (res: Read)
    modifies r`pending
    ensures res == ReadOn(old(r.pending), r.broken) && r.pending == Rest(old(r.pending))
  {
    var ended := if r.broken then ReadFailed else Closed;
    var lenBuf := r.ReadFull(PREFIX_BYTES);
    if lenBuf == None {
      return ended;
    }
    var n := Value(lenBuf.value);
    if n > MAX_MESSAGE_BYTES {
      return TooLong;
    }
    var body := r.ReadFull(n);
    if body == None {
      return ended;
    }
    res := Body(body.value);
  }

  // ---------------------------------------------------------------- handling

  const PASTE_EVENT := "paste_event"

  /** `validate`: the event, or why not. */
  datatype Checked = Valid(event: PasteEvent) | Invalid(why: Note)

  function Validate(c: Codec, m: Message): Checked {
    if m.kind != PASTE_EVENT then Invalid(UnknownType(c.quote(m.kind)))
    else if m.domain == "" then Invalid(NoDomain)
    else if m.occurredAt == "" then Invalid(NoTime)
    else if !c.isTime(m.occurredAt) then Invalid(BadTime(c.timeError(m.occurredAt)))
    else Valid(PasteEvent(m.domain, m.occurredAt, m.length, m.hash, m.user))
  }

  /** `handleOne` on the n-th frame. */
  function HandleOne(c: Codec, h: Host, n: nat, body: Bytes): Response {
    match c.parse(body)
    case None => Response(false, InvalidJSON)
    case Some(m) =>
      match Validate(c, m)
      case Invalid(why) => Response(false, why)
      case Valid(e) =>
        match h.send(n, e)
        case Sent => Response(true, Nothing)
        case Failed => Response(false, ForwardingFailed)
        case Panicked => Response(false, InternalError)
  }

  const MALFORMED := Response(false, MalformedMessage)

  function Answer(c: Codec, h: Host, n: nat, r: Read): Response {
    if r.Body? then HandleOne(c, h, n, r.body) else MALFORMED
  }

  /** The answers a host owes for what it reads from the n-th frame on. */
  function Answers(c: Codec, h: Host, n: nat, rs: seq<Read>): seq<Response>
    decreases |rs|
  {
    if rs == [] then [] else [Answer(c, h, n, rs[0])] + Answers(c, h, n + 1, rs[1..])
  }

  predicate CanWrite(c: Codec, h: Host, n: nat, a: Response) {
    |c.encode(a)| <= MAX_MESSAGE_BYTES && h.cut(n) == None
  }

  /** The bytes of a write that fails. */
  function Broken(c: Codec, h: Host, n: nat, a: Response): Bytes {
    if |c.encode(a)| > MAX_MESSAGE_BYTES || h.cut(n) == None then []
    else var f := Frame(c.encode(a)); f[..if h.cut(n).value <= |f| then h.cut(n).value else |f|]
  }

  /** The bytes a host writes for the answers it owes: it stops at the first it cannot write. */
  function Output(c: Codec, h: Host, n: nat, answers: seq<Response>): Bytes
    decreases |answers|
  {
    if answers == [] then []
    else if !CanWrite(c, h, n, answers[0]) then Broken(c, h, n, answers[0])
    else Frame(c.encode(answers[0])) + Output(c, h, n + 1, answers[1..])
  }

  predicate AllWritable(c: Codec, h: Host, n: nat, answers: seq<Response>) {
    forall i | 0 <= i < |answers| :: CanWrite(c, h, n + i, answers[i])
  }

  method WriteMessage(w: Writer, c: Codec, h: Host, n: nat, a: Response) returns (ok: bool)
    modifies w
    ensures ok == CanWrite(c, h, n, a)
    ensures ok ==> w.written == old(w.written) + Frame(c.encode(a))
    ensures !ok ==> w.written == old(w.written) + Broken(c, h, n, a)
  {
    var body := c.encode(a);
    if |body| > MAX_MESSAGE_BYTES {
      return false;
    }
    var f := LittleEndian(|body|, PREFIX_BYTES) + body;
    match h.cut(n)
    case None =>
      w.written := w.written + f;
      return true;
    case Some(k) =>
      w.written := w.written + f[..if k <= |f| then k else |f|];
      return false;
  }

  /** What a host writes for a stream, if the next frame is its n-th. */
  function Served(c: Codec, h: Host, n: nat, s: Bytes): Bytes { Output(c, h, n, Answers(c, h, n, Reads(s))) }

  /** Every answer it owes can be written. */
  predicate Completes(c: Codec, h: Host, n: nat, s: Bytes) { AllWritable(c, h, n, Answers(c, h, n, Reads(s))) }

  /** What it writes for the first `m` of its reads. */
  function ServedFor(c: Codec, h: Host, n: nat, s: Bytes, broken: bool, m: nat): Bytes {
    Output(c, h, n, Answers(c, h, n, Seen(s, broken, m)))
  }

  predicate CompletesFor(c: Codec, h: Host, n: nat, s: Bytes, broken: bool, m: nat) {
    AllWritable(c, h, n, Answers(c, h, n, Seen(s, broken, m)))
  }

  datatype End = PipeClosed | WriteFailed | StillServing

  /** With `n` turns behind it and `m` to go, a host that will have written `all` and end as `how`. */
  ghost predicate OnTrack(c: Codec, h: Host, n: nat, s: Bytes, broken: bool, m: nat, written: Bytes, all: Bytes,
                          how: End) {
    all == written + ServedFor(c, h, n, s, broken, m) && how == EndOf(c, h, n, s, broken, m)
  }

  lemma TurnStaysOnTrack(c: Codec, h: Host, n: nat, s: Bytes, broken: bool, m: nat, written: Bytes, all: Bytes,
                         how: End)
    requires m > 0 && OnTrack(c, h, n, s, broken, m, written, all, how)
    ensures var rd := ReadOn(s, broken);
            var a := Answer(c, h, n, rd);
            if rd.Closed? then all == written && how == PipeClosed && Rest(s) == []
            else if !CanWrite(c, h, n, a) then all == written + Broken(c, h, n, a) && how == WriteFailed
            else OnTrack(c, h, n + 1, Rest(s), broken, m - 1, written + Frame(c.encode(a)), all, how)
  {
    ServeStep(c, h, n, s, broken, m);
    var rd := ReadOn(s, broken);
    var a := Answer(c, h, n, rd);
    if rd.Closed? {
      assert written + [] == written;
    } else if CanWrite(c, h, n, a) {
      Associate(written, Frame(c.encode(a)), ServedFor(c, h, n + 1, Rest(s), broken, m - 1));
    }
  }

  lemma TrackEnds(c: Codec, h: Host, n: nat, s: Bytes, broken: bool, written: Bytes, all: Bytes, how: End)
    requires OnTrack(c, h, n, s, broken, 0, written, all, how)
    ensures all == written && how == StillServing
  {
    assert Seen(s, broken, 0) == [] && Answers(c, h, n, []) == [];
    assert written + [] == written;
  }

  /** `RunHost`, followed for at most `rounds` turns of its loop. */
  method RunHost(c: Codec, h: Host, r: Reader, w: Writer, rounds: nat) returns (end: End)
    modifies r`pending, w
    ensures w.written == old(w.written) + ServedFor(c, h, 0, old(r.pending), r.broken, rounds)
    ensures end == EndOf(c, h, 0, old(r.pending), r.broken, rounds)
    ensures end.PipeClosed? ==> r.pending == []
  {
    ghost var all := w.written + ServedFor(c, h, 0, r.pending, r.broken, rounds);
    ghost var how := EndOf(c, h, 0, r.pending, r.broken, rounds);
    var n := 0;
    while n < rounds
      invariant n <= rounds && OnTrack(c, h, n, r.pending, r.broken, rounds - n, w.written, all, how)
    {
      TurnStaysOnTrack(c, h, n, r.pending, r.broken, rounds - n, w.written, all, how);
      var m := ReadMessage(r);
      if m == Closed {
        return PipeClosed;
      }
      var ok := WriteMessage(w, c, h, n, Answer(c, h, n, m));
      if !ok {
        return WriteFailed;
      }
      n := n + 1;
    }
    TrackEnds(c, h, n, r.pending, r.broken, w.written, all, how);
    return StillServing;
  }

  function EndOf(c: Codec, h: Host, n: nat, s: Bytes, broken: bool, m: nat): End {
    if !CompletesFor(c, h, n, s, broken, m) then WriteFailed
    else if |Seen(s, broken, m)| < m then PipeClosed
    else StillServing
  }

  lemma Associate(a: Bytes, b: Bytes, c: Bytes)
    ensures (a + b) + c == a + (b + c)
  {
  }

  lemma ServeStep(c: Codec, h: Host, n: nat, s: Bytes, broken: bool, m: nat)
    requires m > 0
    ensures var rd := ReadOn(s, broken);
            var a := Answer(c, h, n, rd);
            if rd.Closed? then
              ServedFor(c, h, n, s, broken, m) == [] && EndOf(c, h, n, s, broken, m) == PipeClosed && Rest(s) == []
            else if !CanWrite(c, h, n, a) then
              ServedFor(c, h, n, s, broken, m) == Broken(c, h, n, a) && EndOf(c, h, n, s, broken, m) == WriteFailed
            else
              && ServedFor(c, h, n, s, broken, m) == Frame(c.encode(a)) + ServedFor(c, h, n + 1, Rest(s), broken, m - 1)
              && EndOf(c, h, n, s, broken, m) == EndOf(c, h, n + 1, Rest(s), broken, m - 1)
  {
    if !ReadOn(s, broken).Closed? {
      var rs := Seen(s, broken, m);
      assert rs[0] == ReadOn(s, broken) && rs[1..] == Seen(Rest(s), broken, m - 1);
      AnswersStep(c, h, n, rs);
    }
  }

  /** The first answer decides whether the rest is written at all. */
  lemma AnswersStep(c: Codec, h: Host, n: nat, rs: seq<Read>)
    requires rs != []
    ensures var all, rest := Answers(c, h, n, rs), Answers(c, h, n + 1, rs[1..]);
            var a := Answer(c, h, n, rs[0]);
            && (AllWritable(c, h, n, all) <==> CanWrite(c, h, n, a) && AllWritable(c, h, n + 1, rest))
            && Output(c, h, n, all) == if CanWrite(c, h, n, a) then Frame(c.encode(a)) + Output(c, h, n + 1, rest)
               else Broken(c, h, n, a)
  {
    var all, rest := Answers(c, h, n, rs), Answers(c, h, n + 1, rs[1..]);
    assert all[0] == Answer(c, h, n, rs[0]) && all[1..] == rest;
    if CanWrite(c, h, n, all[0]) && AllWritable(c, h, n + 1, rest) {
      forall i | 0 <= i < |all| ensures CanWrite(c, h, n + i, all[i]) {
        if i > 0 { assert CanWrite(c, h, n + 1 + (i - 1), rest[i - 1]); }
      }
    }
    if AllWritable(c, h, n, all) {
      assert CanWrite(c, h, n + 0, all[0]);
      forall i | 0 <= i < |rest| ensures CanWrite(c, h, n + 1 + i, rest[i]) {
        assert CanWrite(c, h, n + (i + 1), all[i + 1]);
      }
    }
  }

  /** Answer number `i` is the answer to the i-th thing read. */
  lemma {:induction false} AnswersInOrder(c: Codec, h: Host, n: nat, rs: seq<Read>)
    ensures |Answers(c, h, n, rs)| == |rs|
    ensures forall i | 0 <= i < |rs| :: Answers(c, h, n, rs)[i] == Answer(c, h, n + i, rs[i])
    decreases |rs|
  {
    if rs != [] {
      AnswersInOrder(c, h, n + 1, rs[1..]);
      var all := Answers(c, h, n, rs);
      forall i | 0 <= i < |rs| ensures all[i] == Answer(c, h, n + i, rs[i]) {
        if i > 0 { assert all[i] == Answers(c, h, n + 1, rs[1..])[i - 1] && rs[i] == rs[1..][i - 1]; }
      }
    }
  }

  // ---------------------------------------------------------------- round trips

  lemma {:induction false} LittleEndianRoundTrip(n: nat, k: nat)
    requires n < Power256(k)
    ensures |LittleEndian(n, k)| == k && Value(LittleEndian(n, k)) == n
    decreases k
  {
    if k > 0 {
      LittleEndianRoundTrip(n / 256, k - 1);
      assert LittleEndian(n, k)[1..] == LittleEndian(n / 256, k - 1);
    }
  }

  lemma PrefixRoundTrip(n: nat)
    requires n < 0x1_0000_0000
    ensures |LittleEndian(n, PREFIX_BYTES)| == PREFIX_BYTES && Value(LittleEndian(n, PREFIX_BYTES)) == n
  {
    assert Power256(4) == 256 * (256 * (256 * (256 * Power256(0))));
    LittleEndianRoundTrip(n, PREFIX_BYTES);
  }

  /** A frame in front of a stream is read back as one body, exactly when it is within the cap. */
  lemma FrameIsRead(body: Bytes, tail: Bytes)
    requires |body| < 0x1_0000_0000
    ensures ReadAt(Frame(body) + tail) == (if |body| <= 1048576 then Body(body) else TooLong)
    ensures Rest(Frame(body) + tail) == if |body| <= 1048576 then tail else body + tail
  {
    var s := Frame(body) + tail;
    PrefixRoundTrip(|body|);
    assert s[..PREFIX_BYTES] == LittleEndian(|body|, PREFIX_BYTES);
    assert s[PREFIX_BYTES..] == body + tail;
    assert (body + tail)[..|body|] == body && (body + tail)[|body|..] == tail;
  }

  predicate WithinCap(bodies: seq<Bytes>) { forall i | 0 <= i < |bodies| :: |bodies[i]| <= MAX_MESSAGE_BYTES }

  function Bodies(bodies: seq<Bytes>): seq<Read> { seq(|bodies|, i requires 0 <= i < |bodies| => Body(bodies[i])) }

  lemma ReadsStep(body: Bytes, tail: Bytes)
    requires |body| <= MAX_MESSAGE_BYTES
    ensures Reads(Frame(body) + tail) == [Body(body)] + Reads(tail)
  {
    FrameIsRead(body, tail);
  }

  /** Reading frames one by one reads them all, for any framing that reads back one. */
  lemma {:induction false} JoinedAreRead(frame: Bytes -> Bytes, readAll: Bytes -> seq<Read>, bodies: seq<Bytes>,
                                         tail: Bytes)
    requires forall b, t | |b| <= MAX_MESSAGE_BYTES :: readAll(frame(b) + t) == [Body(b)] + readAll(t)
    requires WithinCap(bodies)
    ensures readAll(Joined(frame, bodies) + tail) == Bodies(bodies) + readAll(tail)
    decreases |bodies|
  {
    if bodies == [] {
      assert Joined(frame, bodies) + tail == tail;
    } else {
      var b, rest := bodies[0], bodies[1..];
      JoinedAreRead(frame, readAll, rest, tail);
      Associate(frame(b), Joined(frame, rest), tail);
    }
  }

  /** Framed bodies within the cap are read back as exactly that list, whatever follows them. */
  lemma FramesAreRead(bodies: seq<Bytes>, tail: Bytes)
    requires WithinCap(bodies)
    ensures Reads(Frames(bodies) + tail) == Bodies(bodies) + Reads(tail)
  {
    forall b, t | |b| <= MAX_MESSAGE_BYTES ensures Reads(Frame(b) + t) == [Body(b)] + Reads(t) { ReadsStep(b, t); }
    JoinedAreRead(Frame, Reads, bodies, tail);
  }

  /** An over-long frame is refused, and its body is then read as if it were frames. */
  lemma OverlongIsNotSkipped(bodies: seq<Bytes>, long: Bytes, tail: Bytes)
    requires WithinCap(bodies) && MAX_MESSAGE_BYTES < |long| < 0x1_0000_0000
    ensures Reads(Frames(bodies) + (Frame(long) + tail)) == Bodies(bodies) + [TooLong] + Reads(long + tail)
  {
    FramesAreRead(bodies, Frame(long) + tail);
    FrameIsRead(long, tail);
  }

  // ---------------------------------------------------------------- one response per message

  function Encoded(c: Codec, answers: seq<Response>): seq<Bytes> {
    seq(|answers|, i requires 0 <= i < |answers| => c.encode(answers[i]))
  }

  lemma EncodedStep(c: Codec, answers: seq<Response>)
    requires answers != []
    ensures Bodies(Encoded(c, answers)) == [Body(c.encode(answers[0]))] + Bodies(Encoded(c, answers[1..]))
  {
    assert Encoded(c, answers)[1..] == Encoded(c, answers[1..]);
  }

  /** When every answer can be written, what the browser reads is every answer, in order. */
  lemma {:induction false} AllAnswersArrive(c: Codec, h: Host, n: nat, answers: seq<Response>)
    requires AllWritable(c, h, n, answers)
    ensures Reads(Output(c, h, n, answers)) == Bodies(Encoded(c, answers))
    decreases |answers|
  {
    if answers != [] {
      assert CanWrite(c, h, n + 0, answers[0]);
      WritableRest(c, h, n, answers);
      AllAnswersArrive(c, h, n + 1, answers[1..]);
      ReadsStep(c.encode(answers[0]), Output(c, h, n + 1, answers[1..]));
      EncodedStep(c, answers);
    }
  }

  lemma WritableRest(c: Codec, h: Host, n: nat, answers: seq<Response>)
    requires answers != [] && AllWritable(c, h, n, answers)
    ensures AllWritable(c, h, n + 1, answers[1..])
  {
    forall i | 0 <= i < |answers| - 1 ensures CanWrite(c, h, n + 1 + i, answers[1..][i]) {
      assert CanWrite(c, h, n + (i + 1), answers[i + 1]);
    }
  }

  /** Less than a whole frame reads as nothing. */
  lemma CutFrame(body: Bytes, m: nat)
    requires |body| <= MAX_MESSAGE_BYTES && m < |Frame(body)|
    ensures Reads(Frame(body)[..m]) == []
  {
    var b := Frame(body)[..m];
    PrefixRoundTrip(|body|);
    if m >= PREFIX_BYTES {
      assert b[..PREFIX_BYTES] == LittleEndian(|body|, PREFIX_BYTES);
      assert |b[PREFIX_BYTES..]| < |body|;
    }
  }

  /** A broken write leaves nothing readable, or the whole frame. */
  lemma BrokenTail(c: Codec, h: Host, n: nat, a: Response)
    ensures Reads(Broken(c, h, n, a)) == [] || Reads(Broken(c, h, n, a)) == [Body(c.encode(a))]
  {
    var b, body := Broken(c, h, n, a), c.encode(a);
    if b != [] {
      assert b == Frame(body)[..|b|];
      if |b| < |Frame(body)| {
        CutFrame(body, |b|);
      } else {
        assert b == Frame(body) + [];
        ReadsStep(body, []);
      }
    }
  }

  /** Whatever the host does, the browser reads a prefix of the answers owed. */
  lemma {:induction false} BrowserSeesPrefix(c: Codec, h: Host, n: nat, answers: seq<Response>)
    ensures Reads(Output(c, h, n, answers)) <= Bodies(Encoded(c, answers))
    decreases |answers|
  {
    if answers != [] {
      EncodedStep(c, answers);
      if CanWrite(c, h, n, answers[0]) {
        BrowserSeesPrefix(c, h, n + 1, answers[1..]);
        ReadsStep(c.encode(answers[0]), Output(c, h, n + 1, answers[1..]));
      } else {
        BrokenTail(c, h, n, answers[0]);
      }
    }
  }

  lemma BodiesAreRead(bodies: seq<Bytes>)
    requires WithinCap(bodies)
    ensures Reads(Frames(bodies)) == Bodies(bodies)
  {
    FramesAreRead(bodies, []);
    assert Frames(bodies) + [] == Frames(bodies);
  }

  lemma AnswersToBodies(c: Codec, h: Host, bodies: seq<Bytes>)
    ensures var answers := Answers(c, h, 0, Bodies(bodies));
            |answers| == |bodies| && forall i | 0 <= i < |bodies| :: answers[i] == HandleOne(c, h, i, bodies[i])
  {
    AnswersInOrder(c, h, 0, Bodies(bodies));
  }

  /**
   * For any list of bodies within the cap, a host that can write every answer makes the browser
   * read exactly one response per body, in order.
   */
  lemma OneResponseEach(c: Codec, h: Host, bodies: seq<Bytes>)
    requires WithinCap(bodies)
    ensures var answers := Answers(c, h, 0, Reads(Frames(bodies)));
            && |answers| == |bodies|
            && (forall i | 0 <= i < |bodies| :: answers[i] == HandleOne(c, h, i, bodies[i]))
            && (AllWritable(c, h, 0, answers) ==> Reads(Output(c, h, 0, answers)) == Bodies(Encoded(c, answers)))
  {
    BodiesAreRead(bodies);
    AnswersToBodies(c, h, bodies);
    var answers := Answers(c, h, 0, Bodies(bodies));
    if AllWritable(c, h, 0, answers) { AllAnswersArrive(c, h, 0, answers); }
  }

  // ---------------------------------------------------------------- when the host ends

  lemma {:induction false} SeenOfEnding(s: Bytes, n: nat)
    ensures |Seen(s, false, n)| <= |s|
    ensures n > |s| ==> Seen(s, false, n) == Reads(s)
    decreases n
  {
    if n > 0 && !ReadAt(s).Closed? { SeenOfEnding(Rest(s), n - 1); }
  }

  lemma {:induction false} SeenOfBroken(s: Bytes, n: nat)
    ensures |Seen(s, true, n)| == n
    ensures forall i | 0 <= i < n :: Seen(s, true, n)[i] == if i < |Reads(s)| then Reads(s)[i] else ReadFailed
    decreases n
  {
    if n > 0 {
      SeenOfBroken(Rest(s), n - 1);
      SeenOneMore(s, Seen(Rest(s), true, n - 1), Reads(Rest(s)), n);
    }
  }

  lemma SeenOneMore(s: Bytes, seen: seq<Read>, rest: seq<Read>, n: nat)
    requires |seen| == n - 1 && rest == Reads(Rest(s)) && seen == Seen(Rest(s), true, n - 1)
    requires forall i | 0 <= i < n - 1 :: seen[i] == if i < |rest| then rest[i] else ReadFailed
    ensures |Seen(s, true, n)| == n
    ensures forall i | 0 <= i < n :: Seen(s, true, n)[i] == if i < |Reads(s)| then Reads(s)[i] else ReadFailed
  {
    assert Seen(s, true, n) == [ReadOn(s, true)] + seen;
    if ReadAt(s).Closed? {
      assert rest == [] && Reads(s) == [];
    } else {
      assert Reads(s) == [ReadAt(s)] + rest;
    }
  }

  /** After some number of turns the loop is over. */
  ghost predicate Ends(c: Codec, h: Host, s: Bytes, broken: bool) {
    exists n: nat :: EndsBy(c, h, s, broken, n)
  }

  predicate EndsBy(c: Codec, h: Host, s: Bytes, broken: bool, n: nat) {
    !CompletesFor(c, h, 0, s, broken, n) || |Seen(s, broken, n)| < n
  }

  /** On a pipe that ends the host ends, having served every frame it could. */
  lemma EndingPipeEndsHost(c: Codec, h: Host, s: Bytes, n: nat)
    requires n > |s|
    ensures EndsBy(c, h, s, false, n)
    ensures ServedFor(c, h, 0, s, false, n) == Served(c, h, 0, s)
            && (CompletesFor(c, h, 0, s, false, n) <==> Completes(c, h, 0, s))
  {
    SeenOfEnding(s, n);
  }

  /** On a broken one it answers "malformed message" for ever, unless some answer cannot be written. */
  lemma BrokenPipeEndsIff(c: Codec, h: Host, s: Bytes)
    ensures Ends(c, h, s, true) <==> !Completes(c, h, 0, s) || MalformedFails(c, h, |Reads(s)|)
  {
    if n: nat :| EndsBy(c, h, s, true, n) { EndsBecause(c, h, s, n); }
    if !Completes(c, h, 0, s) { EndsOnFrames(c, h, s); }
    if MalformedFails(c, h, |Reads(s)|) { EndsOnMalformed(c, h, s); }
  }

  /** Some answer from the `from`-th on cannot be written, if they are all "malformed message". */
  ghost predicate MalformedFails(c: Codec, h: Host, from: nat) {
    exists j: nat :: j >= from && !CanWrite(c, h, j, MALFORMED)
  }

  lemma EndsBecause(c: Codec, h: Host, s: Bytes, n: nat)
    requires EndsBy(c, h, s, true, n)
    ensures !Completes(c, h, 0, s) || MalformedFails(c, h, |Reads(s)|)
  {
    SeenOfBroken(s, n);
    BrokenAnswers(c, h, s, n);
    var answers := Answers(c, h, 0, Seen(s, true, n));
    var i :| 0 <= i < n && !CanWrite(c, h, 0 + i, answers[i]);
    if i < |Reads(s)| { assert !CanWrite(c, h, 0 + i, Answers(c, h, 0, Reads(s))[i]); }
  }

  lemma EndsOnFrames(c: Codec, h: Host, s: Bytes)
    requires !Completes(c, h, 0, s)
    ensures Ends(c, h, s, true)
  {
    var n := |Reads(s)|;
    SeenOfBroken(s, n);
    assert Seen(s, true, n) == Reads(s);
    assert EndsBy(c, h, s, true, n);
  }

  lemma EndsOnMalformed(c: Codec, h: Host, s: Bytes)
    requires MalformedFails(c, h, |Reads(s)|)
    ensures Ends(c, h, s, true)
  {
    var j: nat :| j >= |Reads(s)| && !CanWrite(c, h, j, MALFORMED);
    BrokenAnswers(c, h, s, j + 1);
    assert !CanWrite(c, h, 0 + j, Answers(c, h, 0, Seen(s, true, j + 1))[j]);
    assert EndsBy(c, h, s, true, j + 1);
  }

  lemma BrokenAnswers(c: Codec, h: Host, s: Bytes, n: nat)
    ensures var answers := Answers(c, h, 0, Seen(s, true, n));
            && |answers| == n && |Answers(c, h, 0, Reads(s))| == |Reads(s)|
            && forall i | 0 <= i < n :: answers[i] == if i < |Reads(s)| then Answers(c, h, 0, Reads(s))[i]
               else MALFORMED
  {
    SeenOfBroken(s, n);
    AnswersInOrder(c, h, 0, Seen(s, true, n));
    AnswersInOrder(c, h, 0, Reads(s));
  }

  // ---------------------------------------------------------------- answers over the cap

  /** A response over the cap ends the host: nothing is written for that frame or any after it. */
  lemma OversizeAnswerEndsHost(c: Codec, h: Host, n: nat, body: Bytes, tail: Bytes)
    requires |body| <= MAX_MESSAGE_BYTES && |c.encode(HandleOne(c, h, n, body))| > MAX_MESSAGE_BYTES
    ensures Served(c, h, n, Frame(body) + tail) == [] && !Completes(c, h, n, Frame(body) + tail)
  {
    ReadsStep(body, tail);
    AnswersStep(c, h, n, Reads(Frame(body) + tail));
  }

  /** JSON and quoting never shorten, and escape at most sixfold; a time error repeats the text at most twice. */
  ghost predicate Proportionate(c: Codec) {
    && (forall r: Response :: |Text(r.note)| <= |c.encode(r)| <= 6 * |Text(r.note)| + 64)
    && (forall s :: |s| <= |c.quote(s)|)
    && (forall s :: |c.timeError(s)| <= 12 * |s| + 128)
  }

  function Repeated(ch: char, n: nat): string { seq(n, i => ch) }

  /** `{"type":"xx..x"}`: eleven bytes and the type. */
  ghost predicate SaysType(c: Codec, post: string -> Bytes) {
    forall n: nat :: |post(Repeated('x', n))| == n + 11
                     && c.parse(post(Repeated('x', n))) == Some(Message(Repeated('x', n), "", "", None, None, None))
  }

  /** A frame within the cap whose answer is not: a type of nearly 1 MiB is quoted back. */
  lemma LongTypeEndsHost(c: Codec, h: Host, n: nat, post: string -> Bytes, tail: Bytes)
    requires Proportionate(c) && SaysType(c, post)
    ensures var body := post(Repeated('x', MAX_MESSAGE_BYTES - 11));
            && |body| == MAX_MESSAGE_BYTES && |c.encode(HandleOne(c, h, n, body))| > MAX_MESSAGE_BYTES
            && Served(c, h, n, Frame(body) + tail) == []
  {
    var kind := Repeated('x', MAX_MESSAGE_BYTES - 11);
    var body := post(kind);
    OversizeAnswerEndsHost(c, h, n, body, tail);
  }

  /** What a sender can see to: no JSON at all, or a paste event whose time is not absurdly long. */
  predicate Polite(c: Codec, body: Bytes) {
    c.parse(body).Some? ==> c.parse(body).value.kind == PASTE_EVENT && |c.parse(body).value.occurredAt| <= 10000
  }

  /** The answer to such a frame is always within the cap. */
  lemma PoliteAnswerFits(c: Codec, h: Host, n: nat, body: Bytes)
    requires Proportionate(c) && Polite(c, body)
    ensures |c.encode(HandleOne(c, h, n, body))| <= MAX_MESSAGE_BYTES
  {
    var a := HandleOne(c, h, n, body);
    ShortMessage(c, h, n, body);
    assert |c.encode(a)| <= 6 * |Text(a.note)| + 64;
  }

  lemma ShortMessage(c: Codec, h: Host, n: nat, body: Bytes)
    requires Proportionate(c) && Polite(c, body)
    ensures |Text(HandleOne(c, h, n, body).note)| <= 120200
  {
    if c.parse(body).Some? {
      var m := c.parse(body).value;
      assert |c.timeError(m.occurredAt)| <= 12 * |m.occurredAt| + 128;
    }
  }

  /** So polite frames are all answered exactly when every write succeeds. */
  lemma PoliteFramesAreAnswered(c: Codec, h: Host, bodies: seq<Bytes>)
    requires Proportionate(c) && WithinCap(bodies) && forall i | 0 <= i < |bodies| :: Polite(c, bodies[i])
    ensures Completes(c, h, 0, Frames(bodies)) <==> forall i | 0 <= i < |bodies| :: h.cut(i) == None
  {
    OneResponseEach(c, h, bodies);
    var answers := Answers(c, h, 0, Reads(Frames(bodies)));
    forall i | 0 <= i < |bodies| ensures CanWrite(c, h, i, answers[i]) <==> h.cut(i) == None {
      PoliteAnswerFits(c, h, i, bodies[i]);
    }
    if Completes(c, h, 0, Frames(bodies)) {
      forall i | 0 <= i < |bodies| ensures h.cut(i) == None { assert CanWrite(c, h, 0 + i, answers[i]); }
    }
  }

  /** A paste event with a domain and a time that parses. */
  predicate WellFormed(c: Codec, m: Message) {
    m.kind == "paste_event" && m.domain != "" && m.occurredAt != "" && c.isTime(m.occurredAt)
  }

  /** What is sent on for it: every field but the kind. */
  function EventOf(m: Message): PasteEvent { PasteEvent(m.domain, m.occurredAt, m.length, m.hash, m.user) }

  /** Each answer is ok exactly when the frame held a well-formed event and sending that event succeeded. */
  lemma OkMeansSent(c: Codec, h: Host, n: nat, body: Bytes)
    ensures HandleOne(c, h, n, body).ok <==>
              && c.parse(body).Some? && WellFormed(c, c.parse(body).value)
              && h.send(n, EventOf(c.parse(body).value)) == Sent
  {
  }

  /** And any other names what was wrong first. */
  lemma ErrorNamesCause(c: Codec, h: Host, n: nat, body: Bytes)
    ensures var a := HandleOne(c, h, n, body);
            match c.parse(body)
            case None => a == Response(false, InvalidJSON)
            case Some(m) =>
              var sent := h.send(n, EventOf(m));
              && (a == Response(false, UnknownType(c.quote(m.kind))) <==> m.kind != "paste_event")
              && (a == Response(false, NoDomain) <==> m.kind == "paste_event" && m.domain == "")
              && (a == Response(false, NoTime) <==> m.kind == "paste_event" && m.domain != "" && m.occurredAt == "")
              && (a == Response(false, BadTime(c.timeError(m.occurredAt))) <==>
                    m.kind == "paste_event" && m.domain != "" && m.occurredAt != "" && !c.isTime(m.occurredAt))
              && (a == Response(false, ForwardingFailed) <==> WellFormed(c, m) && sent == Failed)
              && (a == Response(false, InternalError) <==> WellFormed(c, m) && sent == Panicked)
              && (a == Response(true, Nothing) <==> WellFormed(c, m) && sent == Sent)
  {
  }

  /** A frame is the body's length in four octets, least significant first, and the body. */
  lemma FrameLayout(body: Bytes)
    requires |body| < 0x1_0000_0000
    ensures var f, n := Frame(body), |body|;
            && |f| == n + 4 && f[4..] == body
            && f[0] as int == n % 256 && f[1] as int == n / 256 % 256
            && f[2] as int == n / 0x1_0000 % 256 && f[3] as int == n / 0x100_0000
  {
    var n := |body|;
    PrefixRoundTrip(n);
    assert n / 256 / 256 == n / 0x1_0000 && n / 0x1_0000 / 256 == n / 0x100_0000;
    var p := LittleEndian(n, 4);
    assert p[0] as int == n % 256;
    assert p[1..] == LittleEndian(n / 256, 3);
    assert p[1..][1..] == LittleEndian(n / 0x1_0000, 2);
    assert p[1..][1..][1..] == LittleEndian(n / 0x100_0000, 1);
    assert p[1] == p[1..][0] && p[2] == p[1..][1..][0] && p[3] == p[1..][1..][1..][0];
  }

  /** How many answers the browser reads. */
  function Arrived(c: Codec, h: Host, n: nat, answers: seq<Response>): nat { |Reads(Output(c, h, n, answers))| }

  lemma OneMoreArrives(c: Codec, h: Host, n: nat, answers: seq<Response>)
    requires answers != [] && CanWrite(c, h, n, answers[0])
    ensures Arrived(c, h, n, answers) == 1 + Arrived(c, h, n + 1, answers[1..])
  {
    ReadsStep(c.encode(answers[0]), Output(c, h, n + 1, answers[1..]));
  }

  /** Each of the first `k + 1` writes succeeds. */
  predicate WritesThrough(c: Codec, h: Host, n: nat, answers: seq<Response>, k: nat)
    requires k < |answers|
    decreases k
  {
    CanWrite(c, h, n, answers[0]) && (k > 0 ==> WritesThrough(c, h, n + 1, answers[1..], k - 1))
  }

  lemma {:induction false} WritesThroughIf(c: Codec, h: Host, n: nat, answers: seq<Response>, k: nat)
    requires k < |answers| && forall i | 0 <= i <= k :: CanWrite(c, h, n + i, answers[i])
    ensures WritesThrough(c, h, n, answers, k)
    decreases k
  {
    assert CanWrite(c, h, n + 0, answers[0]);
    if k > 0 {
      forall i | 0 <= i <= k - 1 ensures CanWrite(c, h, n + 1 + i, answers[1..][i]) {
        assert CanWrite(c, h, n + (i + 1), answers[i + 1]);
      }
      WritesThroughIf(c, h, n + 1, answers[1..], k - 1);
    }
  }

  /** As long as every write so far succeeds, the browser has every answer so far. */
  lemma {:induction false} WrittenArrive(c: Codec, h: Host, n: nat, answers: seq<Response>, k: nat)
    requires k < |answers| && WritesThrough(c, h, n, answers, k)
    ensures k < Arrived(c, h, n, answers)
    decreases k
  {
    OneMoreArrives(c, h, n, answers);
    if k > 0 { WrittenArrive(c, h, n + 1, answers[1..], k - 1); }
  }

  /** The k-th thing the browser reads is the host's answer to the k-th body. */
  lemma SeenIsAnswer(c: Codec, h: Host, bodies: seq<Bytes>, k: nat)
    requires WithinCap(bodies) && k < |Reads(Served(c, h, 0, Frames(bodies)))|
    ensures k < |bodies|
    ensures Reads(Served(c, h, 0, Frames(bodies)))[k] == Body(c.encode(HandleOne(c, h, k, bodies[k])))
  {
    var answers := Answers(c, h, 0, Reads(Frames(bodies)));
    OneResponseEach(c, h, bodies);
    BrowserSeesPrefix(c, h, 0, answers);
    assert Reads(Output(c, h, 0, answers))[k] == Bodies(Encoded(c, answers))[k];
  }

  /** And it is there as long as every answer so far can be written. */
  lemma AnswerIsSeen(c: Codec, h: Host, bodies: seq<Bytes>, k: nat)
    requires WithinCap(bodies) && k < |bodies|
    requires forall j | 0 <= j <= k :: CanWrite(c, h, j, HandleOne(c, h, j, bodies[j]))
    ensures k < |Reads(Served(c, h, 0, Frames(bodies)))|
  {
    var answers := Answers(c, h, 0, Bodies(bodies));
    assert |answers| == |bodies| && WritesThrough(c, h, 0, answers, k) by {
      AnswersToBodies(c, h, bodies);
      forall j | 0 <= j <= k ensures CanWrite(c, h, 0 + j, answers[j]) {
        assert CanWrite(c, h, j, HandleOne(c, h, j, bodies[j]));
      }
      WritesThroughIf(c, h, 0, answers, k);
    }
    WrittenArrive(c, h, 0, answers, k);
    assert Reads(Frames(bodies)) == Bodies(bodies) by { BodiesAreRead(bodies); }
  }
}
