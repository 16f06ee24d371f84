/**
 * The client side of the relay connection (internal/relay/websocket.go): a byte stream
 * over binary messages, with relay control text diverted.
 */
module WebSocket {
  import opened Common
  import opened Wire
  import opened Rfc6455

  const MAX_FRAME_BYTES := 64 * 1024
  const CONTROL_BACKLOG := 8

  datatype Error = EndOfStream | TooLong | MaskedFrame | NoStart | Interleaved | Closed(data: bytes)

  /** `rest` is where the reader stands afterwards, on failure too. */
  datatype Parsed = Parsed(frame: Frame, rest: bytes) | Broken(error: Error, rest: bytes)

  /** One frame off the wire, with the client's own limits. */
  function ParseFrame(b: bytes): (r: Parsed)
    ensures r.Parsed? ==> |r.rest| < |b| && |r.frame.payload| <= MAX_FRAME_BYTES
  {
    match ReadHead(b)
    case None => Broken(EndOfStream, [])
    case Some(h) =>
      // A length with its top bit set is negative as an int64, and refused by the same test.
      if h.length > MAX_FRAME_BYTES then Broken(TooLong, b[h.size..])
      else if h.masked then Broken(MaskedFrame, b[h.size..])
      else if |b| < h.size + h.length then Broken(EndOfStream, [])
      else Parsed(Frame(h.fin, h.op, b[h.size..h.size + h.length]), b[h.size + h.length..])
  }

  /** One frame's part in the message under way, and what is answered to it. */
  datatype Taken =
    | More(state: Partial, replies: seq<Frame>)
    | Whole(op: nat, payload: bytes, replies: seq<Frame>)
    | Refused(error: Error, replies: seq<Frame>)

  function Take(f: Frame, state: Partial): Taken {
    if f.op == PING then More(state, [Frame(true, PONG, f.payload)])
    else if f.op == PONG then More(state, [])
    else if f.op == CLOSE then Refused(Closed(f.payload), [Frame(true, CLOSE, f.payload)])
    else if f.op == CONTINUATION && state.Idle? then Refused(NoStart, [])
    else if f.op != CONTINUATION && state.Open? then Refused(Interleaved, [])
    else
      var op := if state.Open? then state.op else f.op;
      var acc := (if state.Open? then state.acc else []) + f.payload;
      if |acc| > MAX_FRAME_BYTES then Refused(TooLong, [])
      else if f.fin then Whole(op, acc, []) else More(Open(op, acc), [])
  }

  datatype Received =
    | Received(op: nat, payload: bytes, rest: bytes, replies: seq<Frame>)
    | Failed(error: Error, rest: bytes, replies: seq<Frame>)

  function After(replies: seq<Frame>, r: Received): Received {
    r.(replies := replies + r.replies)
  }

  lemma AfterAfter(a: seq<Frame>, b: seq<Frame>, r: Received)
    ensures After(a, After(b, r)) == After(a + b, r)
  {
    assert a + (b + r.replies) == a + b + r.replies;
  }

  /** What `readFrame` returns and answers, `state` being the fragments gathered so far. */
  function ReadMessage(b: bytes, state: Partial): (r: Received)
    ensures r.Received? ==> |r.rest| < |b|
    decreases |b|
  {
    match ParseFrame(b)
    case Broken(e, rest) => Failed(e, rest, [])
    case Parsed(f, rest) =>
      match Take(f, state)
      case More(next, replies) => After(replies, ReadMessage(rest, next))
      case Whole(op, payload, replies) => Received(op, payload, rest, replies)
      case Refused(error, replies) => Failed(error, rest, replies)
  }

  /** The messages an input carries, up to the first error. */
  function Messages(b: bytes): seq<Message>
    decreases |b|
  {
    match ReadMessage(b, Idle)
    case Failed(_, _, _) => []
    case Received(op, payload, rest, _) => [Message(op == TEXT, payload)] + Messages(rest)
  }

  /** Every byte `Read` will ever hand out from an input. */
  function StreamBytes(b: bytes): bytes {
    Binary(Messages(b))
  }

  function Texts(ms: seq<Message>): seq<bytes> {
    if ms == [] then [] else (if ms[0].text then [ms[0].payload] else []) + Texts(ms[1..])
  }

  lemma MessagesStep(b: bytes)
    ensures match ReadMessage(b, Idle)
            case Failed(_, _, _) => StreamBytes(b) == [] && Texts(Messages(b)) == []
            case Received(op, payload, rest, _) =>
              if op == TEXT then
                StreamBytes(b) == StreamBytes(rest) && Texts(Messages(b)) == [payload] + Texts(Messages(rest))
              else StreamBytes(b) == payload + StreamBytes(rest) && Texts(Messages(b)) == Texts(Messages(rest))
  {
    hide ReadMessage;
    match ReadMessage(b, Idle)
    case Failed(_, _, _) =>
    case Received(op, payload, rest, _) =>
      var m := Message(op == TEXT, payload);
      assert Messages(b)[0] == m && Messages(b)[1..] == Messages(rest);
  }

  /** A backlog takes texts while there is room, and drops the others. */
  function Queued(backlog: seq<bytes>, texts: seq<bytes>): seq<bytes> {
    var all := backlog + texts;
    if |all| <= CONTROL_BACKLOG then all else all[..CONTROL_BACKLOG]
  }

  /** The oldest texts are the ones kept, as many as there is room for. */
  lemma BacklogKeepsOldest(backlog: seq<bytes>, texts: seq<bytes>)
    ensures Queued(backlog, texts) <= backlog + texts
    ensures |Queued(backlog, texts)| == CONTROL_BACKLOG || Queued(backlog, texts) == backlog + texts
  {
  }

  lemma QueuedNone(backlog: seq<bytes>)
    requires |backlog| <= CONTROL_BACKLOG
    ensures Queued(backlog, []) == backlog
  {
  }

  lemma QueuedMore(backlog: seq<bytes>, a: seq<bytes>, b: seq<bytes>)
    ensures Queued(Queued(backlog, a), b) == Queued(backlog, a + b)
  {
    assert backlog + (a + b) == backlog + a + b;
  }

  // ---------------------------------------------------------------------------
  // The reader against the reference.

  /** The client's own limits refuse the frame, or the message it would make. */
  predicate Oversize(f: Frame, state: Partial) {
    |f.payload| > MAX_FRAME_BYTES || (Take(f, state).Refused? && Take(f, state).error.TooLong?)
  }

  /** No message is completed by these frames, as the client takes them. */
  predicate Silent(fs: seq<Frame>, state: Partial) {
    fs == [] || |fs[0].payload| > MAX_FRAME_BYTES ||
    match Take(fs[0], state)
    case More(next, _) => Silent(fs[1..], next)
    case Whole(_, _, _) => false
    case Refused(_, _) => true
  }

  /** No message is completed by these frames, by the standard. */
  predicate Unfinished(fs: seq<Frame>, state: Partial) {
    fs == [] || !Regular(fs[0]) || fs[0].op == CLOSE ||
    if IsControl(fs[0].op) then Unfinished(fs[1..], state)
    else
      var held := if state.Open? then state.acc else [];
      || (fs[0].op == CONTINUATION) != state.Open?
      || (!fs[0].fin && Unfinished(fs[1..], Open(if state.Open? then state.op else fs[0].op, held + fs[0].payload)))
  }

  /**
   * Where the client first parts from the standard, if it does, nothing more comes of it: from an irregular frame on,
   * the client completes no message; from one over its limits on, the standard completes none.
   */
  predicate Conforms(fs: seq<Frame>, state: Partial) {
    fs == [] ||
    if !Regular(fs[0]) then Silent(fs, state)
    else if Oversize(fs[0], state) then Unfinished(fs, state)
    else
      match Take(fs[0], state)
      case More(next, _) => Conforms(fs[1..], next)
      case Whole(_, _, _) => Conforms(fs[1..], Idle)
      case Refused(_, _) => true
  }

  /** No frame the client reaches is over its limits. */
  predicate Fits(fs: seq<Frame>, state: Partial) {
    fs == [] || (
      !Oversize(fs[0], state) &&
      match Take(fs[0], state)
      case More(next, _) => Fits(fs[1..], next)
      case Whole(_, _, _) => Fits(fs[1..], Idle)
      case Refused(_, _) => true)
  }

  lemma ServerFrame(f: Frame, rest: bytes)
    requires f.op < 16 && |f.payload| <= MAX_FRAME_BYTES
    ensures ParseFrame(EncodeServer(f) + rest) == Parsed(f, rest)
  {
    var n := |f.payload|;
    var b := EncodeServer(f) + rest;
    HeadWritten(f, 0, f.payload + rest);
    assert b == [First(f)] + (EncodeLength(n, 0) + (f.payload + rest));
    hide ReadHead, EncodeLength;
    var size := 1 + |EncodeLength(n, 0)|;
    assert b[size..size + n] == (f.payload + rest)[..n] == f.payload;
    assert b[size + n..] == (f.payload + rest)[n..] == rest;
  }

  lemma OversizeFrame(f: Frame, rest: bytes)
    requires Sound(f) && |f.payload| > MAX_FRAME_BYTES
    ensures ParseFrame(EncodeServer(f) + rest).Broken? && ParseFrame(EncodeServer(f) + rest).error == TooLong
  {
    HeadWritten(f, 0, f.payload + rest);
    assert EncodeServer(f) + rest == [First(f)] + (EncodeLength(|f.payload|, 0) + (f.payload + rest));
    hide ReadHead, EncodeLength;
  }

  /** A masked frame is refused, whatever it carries. */
  lemma MaskedRefused(f: Frame, key: bytes, rest: bytes)
    requires Sound(f) && |key| == 4
    ensures var p := ParseFrame(EncodeClient(f, key) + rest);
            p.Broken? && p.error == if |f.payload| > MAX_FRAME_BYTES then TooLong else MaskedFrame
  {
    var tail := key + Mask(f.payload, key) + rest;
    HeadWritten(f, 0x80, tail);
    assert EncodeClient(f, key) + rest == [First(f)] + (EncodeLength(|f.payload|, 0x80) + tail);
    hide ReadHead, EncodeLength;
  }

  /** Why a frame is refused where the message stands. */
  lemma RefusalReason(f: Frame, state: Partial)
    ensures Take(f, state).Refused? ==>
            match Take(f, state).error
            case Closed(data) => f.op == CLOSE && data == f.payload
            case NoStart => f.op == CONTINUATION && state.Idle?
            case Interleaved => f.op != CONTINUATION && state.Open?
            case TooLong => |f.payload| + (if state.Open? then |state.acc| else 0) > MAX_FRAME_BYTES
            case _ => false
  {
  }

  function MessagesFrom(b: bytes, state: Partial): seq<Message> {
    match ReadMessage(b, state)
    case Failed(_, _, _) => []
    case Received(op, payload, rest, _) => [Message(op == TEXT, payload)] + Messages(rest)
  }

  lemma FirstFrame(b: bytes, state: Partial)
    ensures MessagesFrom(b, state) ==
            match ParseFrame(b)
            case Broken(_, _) => []
            case Parsed(f, rest) =>
              match Take(f, state)
              case More(next, _) => MessagesFrom(rest, next)
              case Whole(op, payload, _) => [Message(op == TEXT, payload)] + MessagesFrom(rest, Idle)
              case Refused(_, _) => []
    ensures Messages(b) == MessagesFrom(b, Idle)
  {
    hide ParseFrame, Take;
  }

  /** What the client makes of frames, as frames. */
  function Reads(fs: seq<Frame>, state: Partial): seq<Message> {
    if fs == [] || |fs[0].payload| > MAX_FRAME_BYTES then []
    else
      match Take(fs[0], state)
      case More(next, _) => Reads(fs[1..], next)
      case Whole(op, payload, _) => [Message(op == TEXT, payload)] + Reads(fs[1..], Idle)
      case Refused(_, _) => []
  }

  /** Off the wire the client reads the frames that were written, whatever they are. */
  lemma {:induction false} ReadsOffWire(fs: seq<Frame>, state: Partial)
    requires forall i :: 0 <= i < |fs| ==> Sound(fs[i])
    ensures MessagesFrom(EncodeServers(fs), state) == Reads(fs, state)
    ensures state.Idle? ==> Messages(EncodeServers(fs)) == Reads(fs, state)
  {
    var b := EncodeServers(fs);
    FirstFrame(b, state);
    if fs != [] {
      hide ParseFrame, MessagesFrom, Messages, Take;
      var f, rest := fs[0], EncodeServers(fs[1..]);
      if |f.payload| > MAX_FRAME_BYTES {
        OversizeFrame(f, rest);
      } else {
        ServerFrame(f, rest);
        var t := Take(f, state);
        if t.More? {
          ReadsOffWire(fs[1..], t.state);
        } else if t.Whole? {
          ReadsOffWire(fs[1..], Idle);
        }
      }
    }
  }

  lemma {:induction false} SilentReads(fs: seq<Frame>, state: Partial)
    ensures Silent(fs, state) <==> Reads(fs, state) == []
  {
    if fs != [] && Take(fs[0], state).More? {
      SilentReads(fs[1..], Take(fs[0], state).state);
    }
  }

  lemma {:induction false} UnfinishedAssembles(fs: seq<Frame>, state: Partial)
    ensures Unfinished(fs, state) <==> Assemble(fs, state) == []
  {
    if fs != [] {
      var f := fs[0];
      var held := if state.Open? then state.acc else [];
      UnfinishedAssembles(fs[1..], if IsControl(f.op) then state
                                   else Open(if state.Open? then state.op else f.op, held + f.payload));
    }
  }

  /** A regular frame within the limits plays the same part for the client and for the reference. */
  lemma RegularFrame(fs: seq<Frame>, state: Partial)
    requires fs != [] && Regular(fs[0]) && !Oversize(fs[0], state)
    ensures Assemble(fs, state) ==
            match Take(fs[0], state)
            case More(next, _) => Assemble(fs[1..], next)
            case Whole(op, payload, _) => [Message(op == TEXT, payload)] + Assemble(fs[1..], Idle)
            case Refused(_, _) => []
  {
  }

  lemma {:induction false} ReadsAgainstReference(fs: seq<Frame>, state: Partial)
    ensures Fits(fs, state) ==> Assemble(fs, state) <= Reads(fs, state)
    ensures Reads(fs, state) == Assemble(fs, state) <==> Conforms(fs, state)
  {
    if fs != [] {
      SilentReads(fs, state);
      UnfinishedAssembles(fs, state);
      hide Unfinished, Silent;
      if Regular(fs[0]) && !Oversize(fs[0], state) {
        RegularFrame(fs, state);
        var t := Take(fs[0], state);
        hide Take, Assemble;
        if t.More? {
          ReadsAgainstReference(fs[1..], t.state);
        } else if t.Whole? {
          ReadsAgainstReference(fs[1..], Idle);
          assert Reads(fs, state)[1..] == Reads(fs[1..], Idle) && Assemble(fs, state)[1..] == Assemble(fs[1..], Idle);
        }
      }
    }
  }

  /**
   * Off any server frames the client reads exactly the messages RFC 6455 assigns to them if and only if they conform:
   * it meets no frame with a reserved opcode, no fragmented or long control frame and none over its limits, or nothing
   * more comes of the first such one. Within its limits it reads at least those messages.
   */
  lemma ReadsWhatWasFramed(fs: seq<Frame>)
    requires forall i :: 0 <= i < |fs| ==> Sound(fs[i])
    ensures Messages(EncodeServers(fs)) == Assemble(fs, Idle) <==> Conforms(fs, Idle)
    ensures Fits(fs, Idle) ==> Assemble(fs, Idle) <= Messages(EncodeServers(fs))
  {
    ReadsOffWire(fs, Idle);
    ReadsAgainstReference(fs, Idle);
  }

  /**
   * Where a reserved opcode goes unnoticed: amid a message it is refused, and on its own it must start one that never
   * ends.
   */
  lemma ReservedUnnoticed(f: Frame, fs: seq<Frame>, state: Partial)
    requires !Known(f.op) && !Oversize(f, state)
    ensures Conforms([f] + fs, state) <==> state.Open? || (!f.fin && Silent(fs, Open(f.op, f.payload)))
  {
    assert ([f] + fs)[1..] == fs;
    assert [] + f.payload == f.payload;
  }

  /** Regular frames within the limits conform. */
  lemma {:induction false} RegularConforms(fs: seq<Frame>, state: Partial)
    requires Fits(fs, state) && forall i :: 0 <= i < |fs| ==> Regular(fs[i])
    ensures Conforms(fs, state)
  {
    if fs != [] {
      var t := Take(fs[0], state);
      if !t.Refused? {
        RegularConforms(fs[1..], if t.More? then t.state else Idle);
      }
    }
  }

  /** A reserved control frame is handed out as stream bytes, and an unfinished ping is passed over. */
  lemma ReservedFramesRead()
    ensures var fs := [Frame(true, 0xB, [7])];
            StreamBytes(EncodeServers(fs)) == [7] && Assemble(fs, Idle) == []
    ensures var fs := [Frame(false, PING, []), Frame(true, BINARY, [7])];
            StreamBytes(EncodeServers(fs)) == [7] && Assemble(fs, Idle) == []
  {
    var one := [Frame(true, 0xB, [7])];
    var two := [Frame(false, PING, []), Frame(true, BINARY, [7])];
    var last := [Frame(true, BINARY, [7])];
    assert one[1..] == [] && two[1..] == last && last[1..] == [];
    var m := [Message(false, [7])];
    assert [] + [7] == [7] && m[1..] == [];
    assert Reads(last, Idle) == m && Reads(two, Idle) == m && Reads(one, Idle) == m;
    ReadsOffWire(one, Idle);
    ReadsOffWire(two, Idle);
  }

  /**
   * Reserved header bits and lengths in longer forms than needed, both refused by section 5.2, make no difference to
   * the client.
   */
  lemma ReadsLeniently(first: byte, tail: bytes, n: byte, rest: bytes)
    ensures ReadHead([first] + tail) == ReadHead([(if first >= 0x80 then 0x80 else 0) + first % 16] + tail)
    ensures n < 126 ==>
              var short, long := ReadHead([first] + ([n] + rest)), ReadHead([first] + ([126, 0, n] + rest));
              short.Some? && long == Some(short.value.(size := 4))
  {
    var plain := (if first >= 0x80 then 0x80 else 0) + first % 16;
    var a, b := [first] + tail, [plain] + tail;
    assert |a| >= 4 ==> a[2..4] == b[2..4];
    assert |a| >= 10 ==> a[2..6] == b[2..6] && a[6..10] == b[6..10];
    assert ([first] + ([126, 0, n] + rest))[2..4] == [0, n];
  }

  // ---------------------------------------------------------------------------
  // The answers against the reference.

  /** All the client answers while it reads an input to its end. */
  function Replies(b: bytes): seq<Frame>
    decreases |b|
  {
    match ReadMessage(b, Idle)
    case Failed(_, _, replies) => replies
    case Received(_, _, rest, replies) => replies + Replies(rest)
  }

  function RepliesFrom(b: bytes, state: Partial): seq<Frame> {
    match ReadMessage(b, state)
    case Failed(_, _, replies) => replies
    case Received(_, _, rest, replies) => replies + Replies(rest)
  }

  /** The error that ends the reading of an input. */
  function Ending(b: bytes): Error
    decreases |b|
  {
    match ReadMessage(b, Idle)
    case Failed(error, _, _) => error
    case Received(_, _, rest, _) => Ending(rest)
  }

  function EndingFrom(b: bytes, state: Partial): Error {
    match ReadMessage(b, state)
    case Failed(error, _, _) => error
    case Received(_, _, rest, _) => Ending(rest)
  }

  lemma FirstReplies(b: bytes, state: Partial)
    ensures RepliesFrom(b, state) ==
            match ParseFrame(b)
            case Broken(_, _) => []
            case Parsed(f, rest) =>
              match Take(f, state)
              case More(next, replies) => replies + RepliesFrom(rest, next)
              case Whole(_, _, replies) => replies + RepliesFrom(rest, Idle)
              case Refused(_, replies) => replies
    ensures EndingFrom(b, state) ==
            match ParseFrame(b)
            case Broken(error, _) => error
            case Parsed(f, rest) =>
              match Take(f, state)
              case More(next, _) => EndingFrom(rest, next)
              case Whole(_, _, _) => EndingFrom(rest, Idle)
              case Refused(error, _) => error
    ensures Replies(b) == RepliesFrom(b, Idle) && Ending(b) == EndingFrom(b, Idle)
  {
    hide ParseFrame, Take;
    var p := ParseFrame(b);
    if p.Parsed? && Take(p.frame, state).More? {
      var t := Take(p.frame, state);
      var r := ReadMessage(p.rest, t.state);
      if r.Received? {
        assert t.replies + r.replies + Replies(r.rest) == t.replies + (r.replies + Replies(r.rest));
      }
    }
  }

  lemma RepliesStep(b: bytes)
    ensures match ReadMessage(b, Idle)
            case Failed(_, _, replies) => Replies(b) == replies
            case Received(_, _, rest, replies) => Replies(b) == replies + Replies(rest)
  {
    hide ReadMessage;
  }

  /** One frame within the limit: what is answered, and whether reading goes on. */
  lemma OneFrame(fs: seq<Frame>, state: Partial)
    requires fs != [] && |fs[0].payload| <= MAX_FRAME_BYTES
    ensures var t := Take(fs[0], state);
            && t.replies == AnswerTo(fs[0])
            && ReadCount(fs, state, MAX_FRAME_BYTES) ==
               (match t
                case More(next, _) => 1 + ReadCount(fs[1..], next, MAX_FRAME_BYTES)
                case Whole(_, _, _) => 1 + ReadCount(fs[1..], Idle, MAX_FRAME_BYTES)
                case Refused(_, _) => 1)
            && (t.Refused? && t.error.Closed? <==> fs[0].op == CLOSE)
            && (t.Refused? && t.error.Closed? ==> t.error.data == fs[0].payload)
  {
  }

  /** At the end of the frames, or before one too long, nothing is read. */
  lemma NoFrame(fs: seq<Frame>, state: Partial)
    requires forall i :: 0 <= i < |fs| ==> Sound(fs[i])
    requires fs == [] || |fs[0].payload| > MAX_FRAME_BYTES
    ensures var p := ParseFrame(EncodeServers(fs));
            p.Broken? && !p.error.Closed? && ReadCount(fs, state, MAX_FRAME_BYTES) == 0
  {
    if fs != [] {
      OversizeFrame(fs[0], EncodeServers(fs[1..]));
    }
    hide EncodeServer;
  }

  /**
   * Off any server frames the client answers exactly the pings and the close it reads, each with its own data and in
   * order; and the reading ends in a close if and only if the last frame read is one.
   */
  lemma {:induction false} AnswersWhatItReads(fs: seq<Frame>, state: Partial)
    requires forall i :: 0 <= i < |fs| ==> Sound(fs[i])
    ensures var k := ReadCount(fs, state, MAX_FRAME_BYTES);
            var error := EndingFrom(EncodeServers(fs), state);
            && RepliesFrom(EncodeServers(fs), state) == Answers(fs[..k])
            && (error.Closed? <==> k > 0 && fs[k - 1].op == CLOSE)
            && (error.Closed? ==> error.data == fs[k - 1].payload)
  {
    hide Take, ReadMessage, RepliesFrom, EndingFrom, Replies, Ending, ReadCount, ParseFrame, EncodeServer;
    var k := ReadCount(fs, state, MAX_FRAME_BYTES);
    FirstReplies(EncodeServers(fs), state);
    if fs == [] || |fs[0].payload| > MAX_FRAME_BYTES {
      NoFrame(fs, state);
    } else {
      var f := fs[0];
      ServerFrame(f, EncodeServers(fs[1..]));
      OneFrame(fs, state);
      var t := Take(f, state);
      assert fs[..k][1..] == fs[1..][..k - 1];
      if t.Refused? {
        assert AnswerTo(f) + [] == AnswerTo(f);
      } else {
        AnswersWhatItReads(fs[1..], if t.More? then t.state else Idle);
      }
    }
  }

  /** The same from the start of an input. */
  lemma AnswersPings(fs: seq<Frame>)
    requires forall i :: 0 <= i < |fs| ==> Sound(fs[i])
    ensures Replies(EncodeServers(fs)) == Answers(fs[..ReadCount(fs, Idle, MAX_FRAME_BYTES)])
    ensures Ending(EncodeServers(fs)).Closed? <==>
            var k := ReadCount(fs, Idle, MAX_FRAME_BYTES); k > 0 && fs[k - 1].op == CLOSE
  {
    AnswersWhatItReads(fs, Idle);
    FirstReplies(EncodeServers(fs), Idle);
  }

  lemma ParseMore(b: bytes, more: bytes)
    requires ParseFrame(b).Parsed?
    ensures ParseFrame(b + more) == Parsed(ParseFrame(b).frame, ParseFrame(b).rest + more)
  {
    HeadMore(b, more);
    var h := ReadHead(b).value;
    hide ReadHead;
    var k := h.size + h.length;
    assert (b + more)[h.size..k] == b[h.size..k];
    assert (b + more)[k..] == b[k..] + more;
  }

  lemma {:induction false} ReadMore(b: bytes, more: bytes, state: Partial)
    requires ReadMessage(b, state).Received?
    ensures var r := ReadMessage(b, state);
            ReadMessage(b + more, state) == Received(r.op, r.payload, r.rest + more, r.replies)
    decreases |b|
  {
    ParseMore(b, more);
    hide ParseFrame;
    var p := ParseFrame(b);
    var t := Take(p.frame, state);
    hide Take;
    if t.More? {
      ReadMore(p.rest, more, t.state);
    }
  }

  /** A stream cut short yields a prefix of the messages, hence of the bytes. */
  lemma {:induction false} CutIsPrefix(b: bytes, more: bytes)
    ensures Messages(b) <= Messages(b + more) && StreamBytes(b) <= StreamBytes(b + more)
    decreases |b|
  {
    if ReadMessage(b, Idle).Received? {
      ReadMore(b, more, Idle);
      CutIsPrefix(ReadMessage(b, Idle).rest, more);
      MessagesStep(b);
      MessagesStep(b + more);
      hide ReadMessage;
    }
  }

  /** The pieces `Write` cuts a buffer into. */
  function Pieces(p: bytes): seq<bytes>
    decreases |p|
  {
    if p == [] then []
    else if |p| <= MAX_FRAME_BYTES then [p]
    else [p[..MAX_FRAME_BYTES]] + Pieces(p[MAX_FRAME_BYTES..])
  }

  function BinaryFrame(piece: bytes): Frame { Frame(true, BINARY, piece) }

  function BinaryFrames(pieces: seq<bytes>): (fs: seq<Frame>)
    ensures |fs| == |pieces| && forall i :: 0 <= i < |fs| ==> fs[i] == BinaryFrame(pieces[i])
  {
    seq(|pieces|, i requires 0 <= i < |pieces| => BinaryFrame(pieces[i]))
  }

  /** The pieces are non-empty, within the limit, and join to the buffer. */
  lemma {:induction false} PiecesJoin(p: bytes)
    ensures Concat(Pieces(p)) == p
    ensures forall i :: 0 <= i < |Pieces(p)| ==> 0 < |Pieces(p)[i]| <= MAX_FRAME_BYTES
    decreases |p|
  {
    if |p| > MAX_FRAME_BYTES {
      PiecesJoin(p[MAX_FRAME_BYTES..]);
      assert p == p[..MAX_FRAME_BYTES] + p[MAX_FRAME_BYTES..];
      var q := Pieces(p[MAX_FRAME_BYTES..]);
      assert ([p[..MAX_FRAME_BYTES]] + q)[1..] == q;
    } else if p != [] {
      assert [p][1..] == [];
    }
  }

  /** The payloads of the binary frames a client sent; it never fragments. */
  function DataPayloads(fs: seq<Frame>): seq<bytes> {
    if fs == [] then [] else (if fs[0].op == BINARY then [fs[0].payload] else []) + DataPayloads(fs[1..])
  }

  lemma {:induction false} DataAppend(a: seq<Frame>, b: seq<Frame>)
    ensures DataPayloads(a + b) == DataPayloads(a) + DataPayloads(b)
  {
    if a == [] {
      assert a + b == b;
    } else {
      assert (a + b)[1..] == a[1..] + b;
      DataAppend(a[1..], b);
    }
  }

  lemma {:induction false} DataPieces(pieces: seq<bytes>)
    ensures DataPayloads(BinaryFrames(pieces)) == pieces
  {
    if pieces != [] {
      assert BinaryFrames(pieces)[1..] == BinaryFrames(pieces[1..]);
      DataPieces(pieces[1..]);
    }
  }

  lemma {:induction false} NoData(fs: seq<Frame>)
    requires forall i :: 0 <= i < |fs| ==> fs[i].op != BINARY
    ensures DataPayloads(fs) == []
  {
    if fs != [] {
      NoData(fs[1..]);
    }
  }

  lemma {:induction false} RepliesAreControl(b: bytes, state: Partial)
    ensures forall i :: 0 <= i < |ReadMessage(b, state).replies| ==> ReadMessage(b, state).replies[i].op != BINARY
    decreases |b|
  {
    var p := ParseFrame(b);
    hide ParseFrame;
    if p.Parsed? && Take(p.frame, state).More? {
      RepliesAreControl(p.rest, Take(p.frame, state).state);
    }
  }

  /** Everything written to the stream by the frames sent. */
  function Wrote(sent: seq<Frame>): bytes { Concat(DataPayloads(sent)) }

  lemma WroteMore(sent: seq<Frame>, p: bytes)
    ensures Wrote(sent + BinaryFrames(Pieces(p))) == Wrote(sent) + p
  {
    DataAppend(sent, BinaryFrames(Pieces(p)));
    DataPieces(Pieces(p));
    ConcatAppend(DataPayloads(sent), Pieces(p));
    PiecesJoin(p);
  }

  lemma WroteReplies(sent: seq<Frame>, b: bytes)
    ensures Wrote(sent + ReadMessage(b, Idle).replies) == Wrote(sent)
  {
    var replies := ReadMessage(b, Idle).replies;
    DataAppend(sent, replies);
    RepliesAreControl(b, Idle);
    NoData(replies);
    assert DataPayloads(sent) + [] == DataPayloads(sent);
  }

  lemma NextPiece(p: bytes, from: nat, to: nat)
    requires from < |p|
    requires to == if from + MAX_FRAME_BYTES > |p| then |p| else from + MAX_FRAME_BYTES
    ensures BinaryFrames(Pieces(p[from..])) == [BinaryFrame(p[from..to])] + BinaryFrames(Pieces(p[to..]))
  {
    var q := p[from..];
    if |q| > MAX_FRAME_BYTES {
      assert q[..MAX_FRAME_BYTES] == p[from..to] && q[MAX_FRAME_BYTES..] == p[to..];
    } else {
      assert q == p[from..to] && p[to..] == [];
    }
  }

  /** A control text as `awaitPeer` tells them apart; what it cannot read it skips, like `waiting` and `peer_left`. */
  datatype Notice = PeerJoined(id: int) | Failure | Skipped

  class WsConn {
    var input: bytes      // bytes still to come from the server
    var pending: bytes    // undelivered bytes of the current message
    var control: seq<bytes>
    var output: bytes     // bytes written to the server
    ghost var sent: seq<Frame>

    ghost predicate Valid()
      reads this
    {
      DecodeClients(output) == (sent, []) && |control| <= CONTROL_BACKLOG
    }

    /** What is still to be read as a byte stream. */
    ghost function Remaining(): bytes
      reads this
    {
      pending + StreamBytes(input)
    }

    /** The control texts still to be had, in order. */
    ghost function Controls(): seq<bytes>
      reads this
    {
      control + Texts(Messages(input))
    }

    /** What will have been sent once the input is read to its end: nothing a ping or a close is owed is left out. */
    ghost function Owed(): seq<Frame>
      reads this
    {
      sent + Replies(input)
    }

    constructor (input: bytes)
      ensures Owed() == Replies(input)
      ensures Valid() && sent == [] && Remaining() == StreamBytes(input) && Controls() == Texts(Messages(input))
    {
      this.input, pending, control, output, sent := input, [], [], [], [];
    }

    /** Emits one masked frame under some four-byte key. */
    method WriteFrame(op: nat, payload: bytes)
      requires Valid() && op < 16 && |payload| < 0x1_0000_0000
      modifies this`output, this`sent
      ensures Valid() && sent == old(sent) + [Frame(true, op, payload)]
    {
      hide DecodeClients, XorByte;
      var n := |payload|;
      var header: bytes := [0x80 + op];
      if n < 126 {
        header := header + [0x80 + n];
      } else if n <= 0xFFFF {
        header := header + [0x80 + 126, n / 0x100, n % 0x100];
      } else {
        header := header + [0x80 + 127, 0, 0, 0, 0] + PutU32(n);
      }
      var k0: byte, k1: byte, k2: byte, k3: byte := *, *, *, *;
      var key := [k0, k1, k2, k3];
      var masked: bytes := [];
      for i := 0 to n
        invariant masked == Mask(payload, key)[..i]
      {
        masked := masked + [XorByte(payload[i], key[i % 4])];
      }
      ghost var f := Frame(true, op, payload);
      assert header == [First(f)] + EncodeLength(n, 0x80);
      hide EncodeLength;
      assert masked == Mask(payload, key);
      assert header + key + masked == EncodeClient(f, key);
      ClientsAppend(output, f, key);
      output := output + (header + key + masked);
      sent := sent + [f];
    }

    /** Cuts a buffer into binary frames of at most the limit. */
    method Write(p: bytes) returns (written: nat)
      requires Valid()
      modifies this`output, this`sent
      ensures Valid() && written == |p| && sent == old(sent) + BinaryFrames(Pieces(p))
      ensures Wrote(sent) == old(Wrote(sent)) + p
    {
      WroteMore(sent, p);
      assert Pieces([]) == [] && p[|p|..] == [];
      hide Wrote, DecodeClients, Pieces, ReadMessage, EncodeClient, Concat;
      written := 0;
      while written < |p|
        invariant written <= |p| && Valid()
        invariant old(sent) + BinaryFrames(Pieces(p)) == sent + BinaryFrames(Pieces(p[written..]))
      {
        var end := written + MAX_FRAME_BYTES;
        if end > |p| {
          end := |p|;
        }
        NextPiece(p, written, end);
        WriteFrame(BINARY, p[written..end]);
        written := end;
      }
    }

    /** The part of the read loop after a frame is in: answer it, and add it to the message. */
    method TakeFrame(f: Frame, state: Partial) returns (t: Taken)
      requires Valid() && |f.payload| <= MAX_FRAME_BYTES
      modifies this`output, this`sent
      ensures Valid() && t == Take(f, state) && sent == old(sent) + t.replies
    {
      if f.op == PING {
        WriteFrame(PONG, f.payload);
        return More(state, [Frame(true, PONG, f.payload)]);
      } else if f.op == PONG {
        return More(state, []);
      } else if f.op == CLOSE {
        WriteFrame(CLOSE, f.payload);
        return Refused(Closed(f.payload), [Frame(true, CLOSE, f.payload)]);
      }
      var op, assembled := f.op, f.payload;
      if f.op == CONTINUATION {
        if state.Idle? {
          return Refused(NoStart, []);
        }
        op, assembled := state.op, state.acc + f.payload;
      } else if state.Open? {
        return Refused(Interleaved, []);
      }
      assert assembled == (if state.Open? then state.acc else []) + f.payload;
      if |assembled| > MAX_FRAME_BYTES {
        return Refused(TooLong, []);
      }
      t := if f.fin then Whole(op, assembled, []) else More(Open(op, assembled), []);
    }

    /** One whole message; pings and a close are answered on the way. */
    method ReadFrame() returns (r: Received)
      requires Valid()
      modifies this`input, this`output, this`sent
      ensures Valid() && r == ReadMessage(old(input), Idle)
      ensures input == r.rest && sent == old(sent) + r.replies && Wrote(sent) == old(Wrote(sent))
    {
      hide ParseFrame, DecodeClients, Take, Wrote;
      WroteReplies(sent, input);
      var state := Idle;
      var replies: seq<Frame> := [];
      while true
        invariant Valid() && sent == old(sent) + replies
        invariant ReadMessage(old(input), Idle) == After(replies, ReadMessage(input, state))
        decreases |input|
      {
        var next := ParseFrame(input);
        if next.Broken? {
          input := next.rest;
          return Failed(next.error, input, replies);
        }
        var t := TakeFrame(next.frame, state);
        AfterAfter(replies, t.replies, ReadMessage(next.rest, if t.More? then t.state else Idle));
        input := next.rest;
        replies := replies + t.replies;
        match t
        case More(s, _) => state := s;
        case Whole(op, payload, _) => return Received(op, payload, input, replies);
        case Refused(error, _) => return Failed(error, input, replies);
      }
    }

    /** One turn of the read loop: the next message goes to the stream, or to the control backlog. */
    method Pull() returns (ok: bool, ghost texts: seq<bytes>)
      requires Valid() && pending == []
      modifies this
      ensures Valid() && Wrote(sent) == old(Wrote(sent))
      ensures ok ==> |input| < |old(input)| && Remaining() == old(Remaining()) && Owed() == old(Owed())
      ensures !ok ==> sent == old(Owed())
      ensures !ok ==> old(Remaining()) == [] && pending == [] && texts == []
      ensures old(Texts(Messages(input))) == texts + if ok then Texts(Messages(input)) else []
      ensures control == Queued(old(control), texts)
    {
      hide Wrote, ReadMessage, DecodeClients, StreamBytes, Messages, Texts, Replies;
      MessagesStep(input);
      RepliesStep(input);
      QueuedNone(control);
      var m := ReadFrame();
      assert sent + (if m.Received? then Replies(input) else []) == old(Owed());
      ok, texts := m.Received?, [];
      if ok && m.op == TEXT {
        texts := [m.payload];
        if |control| < CONTROL_BACKLOG {
          control := control + [m.payload];
        }
      } else if ok {
        pending := m.payload;
      }
    }

    /** Hands out up to `size` bytes: always the next ones of the stream, and never control text. */
    method Read(size: nat) returns (r: Option<bytes>, ghost texts: seq<bytes>)
      requires Valid()
      modifies this
      ensures Valid() && Wrote(sent) == old(Wrote(sent))
      ensures match r
              case Some(out) =>
                && old(Remaining()) == out + Remaining() && |out| <= size && (size > 0 ==> out != [])
                && Owed() == old(Owed())
              case None => old(Remaining()) == [] && sent == old(Owed())
      ensures old(Texts(Messages(input))) == texts + if r.Some? then Texts(Messages(input)) else []
      ensures control == Queued(old(control), texts)
    {
      hide Wrote, ReadMessage, DecodeClients, StreamBytes, Messages, Texts, Queued, Replies;
      QueuedNone(control);
      texts := [];
      while |pending| == 0
        invariant Valid() && Remaining() == old(Remaining()) && Wrote(sent) == old(Wrote(sent))
        invariant Owed() == old(Owed())
        invariant old(Texts(Messages(input))) == texts + Texts(Messages(input))
        invariant control == Queued(old(control), texts)
        decreases |input|
      {
        ghost var before := texts;
        var ok, more := Pull();
        texts := texts + more;
        QueuedMore(old(control), before, more);
        if !ok {
          return None, texts;
        }
      }
      var n := if size < |pending| then size else |pending|;
      assert pending == pending[..n] + pending[n..];
      r := Some(pending[..n]);
      pending := pending[n..];
    }

    /** The next control text; stream bytes met on the way are kept for `Read`. */
    method NextControl() returns (r: Option<bytes>)
      requires Valid()
      modifies this
      ensures Valid() && Wrote(sent) == old(Wrote(sent))
      ensures r.Some? ==> |control| + |input| < old(|control| + |input|)
      ensures r.Some? ==> Remaining() == old(Remaining()) && [r.value] + Controls() == old(Controls())
      ensures r.None? ==> pending == old(Remaining()) && old(Controls()) == []
      ensures if r.Some? then Owed() == old(Owed()) else sent == old(Owed())
    {
      hide Wrote, ReadMessage, DecodeClients, StreamBytes, Messages, Texts, Replies;
      if control != [] {
        r := Some(control[0]);
        control := control[1..];
        assert old(control) == [r.value] + control;
        return;
      }
      while true
        invariant |input| <= |old(input)| && Owed() == old(Owed())
        invariant Valid() && Wrote(sent) == old(Wrote(sent)) && control == [] && Remaining() == old(Remaining()) &&
                  Controls() == old(Controls())
        decreases |input|
      {
        MessagesStep(input);
        RepliesStep(input);
        var m := ReadFrame();
        assert sent + (if m.Received? then Replies(input) else []) == old(Owed());
        if m.Failed? {
          return None;
        } else if m.op == TEXT {
          return Some(m.payload);
        }
        pending := pending + m.payload;
      }
    }

    /**
     * Waits for the peer (`awaitPeer` in internal/relay/relay.go). It writes nothing to the stream, loses none of it,
     * and ends well only on a pairing notice it has read; `decode` is the JSON of a control text.
     */
    method AwaitPeer(decode: bytes -> Notice) returns (peer: Option<int>, ghost read: seq<bytes>)
      requires Valid()
      modifies this
      ensures Valid() && Wrote(sent) == old(Wrote(sent))
      ensures peer.Some? ==> Remaining() == old(Remaining()) && read + Controls() == old(Controls())
      ensures peer.Some? ==> read != [] && decode(read[|read| - 1]) == PeerJoined(peer.value)
      ensures forall i :: 0 <= i < |read| && (peer.Some? ==> i < |read| - 1) ==>
              decode(read[i]).Skipped? || decode(read[i]).Failure?
    {
      hide Wrote, Valid, Remaining, Controls, Owed;
      read := [];
      while true
        invariant Valid() && Wrote(sent) == old(Wrote(sent)) && Remaining() == old(Remaining())
        invariant read + Controls() == old(Controls())
        invariant forall i :: 0 <= i < |read| ==> decode(read[i]).Skipped?
        decreases |control| + |input|
      {
        var raw := NextControl();
        if raw.None? {
          return None, read;
        }
        read := read + [raw.value];
        match decode(raw.value)
        case PeerJoined(id) => return Some(id), read;
        case Failure => return None, read;
        case Skipped =>
      }
    }
  }

  /** Something was written only if a pairing notice is among the control texts read. */
  ghost predicate WritesWhenTold(sent: seq<Frame>, input: bytes, decode: bytes -> Notice) {
    Wrote(sent) != [] ==> exists t :: t in Texts(Messages(input)) && decode(t).PeerJoined?
  }

  /**
   * A host as the program runs one (`Listen` in internal/relay/relay.go): it waits for its peer, and writes after
   * that.
   */
  method ListenAndWrite(input: bytes, decode: bytes -> Notice, p: bytes) returns (conn: WsConn)
    ensures fresh(conn) && conn.Valid() && WritesWhenTold(conn.sent, input, decode)
    ensures Wrote(conn.sent) == [] || Wrote(conn.sent) == p
  {
    hide WsConn.Valid, WsConn.Remaining, Texts, Messages, StreamBytes;
    conn := new WsConn(input);
    assert Wrote(conn.sent) == [];
    var peer, read := conn.AwaitPeer(decode);
    if peer.Some? {
      var t := read[|read| - 1];
      assert t in read + conn.Controls();
      var _ := conn.Write(p);
      assert [] + p == p;
    }
  }
}
