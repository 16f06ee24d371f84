/** The byte pipe end to end: one client's writes, the relay, the other client's reads. */
module Pipe {
  import opened Common
  import opened Arithmetic
  import Rfc6455
  import WebSocket
  import Relay
  import RelayRuns

  /** The messages the runtime sends for a socket's items, control texts rendered by `render`. */
  function Rendered(items: seq<Relay.Item>, render: Relay.Item -> bytes): (ms: seq<Rfc6455.Message>)
    ensures |ms| == |items|
  {
    seq(|items|, i requires 0 <= i < |items| =>
      if items[i].Binary? then Rfc6455.Message(false, items[i].payload) else Rfc6455.Message(true, render(items[i])))
  }

  lemma {:induction false} RenderedBytes(items: seq<Relay.Item>, render: Relay.Item -> bytes)
    ensures Rfc6455.Binary(Rendered(items, render)) == Concat(Relay.Binaries(items))
  {
    if items != [] {
      var front, last := items[..|items| - 1], items[|items| - 1];
      RenderedBytes(front, render);
      assert items == front + [last];
      assert Rendered(items, render) == Rendered(front, render) + Rendered([last], render);
      BinaryAppend(Rendered(front, render), Rendered([last], render));
      BinaryOne(Rendered([last], render));
      var tail := if last.Binary? then [last.payload] else [];
      ConcatAppend(Relay.Binaries(front), tail);
      assert Concat(tail) == if last.Binary? then last.payload else [];
    }
  }

  lemma BinaryOne(ms: seq<Rfc6455.Message>)
    requires |ms| == 1
    ensures Rfc6455.Binary(ms) == if ms[0].text then [] else ms[0].payload
  {
    assert ms[1..] == [];
  }

  lemma {:induction false} BinaryAppend(a: seq<Rfc6455.Message>, b: seq<Rfc6455.Message>)
    ensures Rfc6455.Binary(a + b) == Rfc6455.Binary(a) + Rfc6455.Binary(b)
  {
    if a == [] {
      assert a + b == b;
    } else {
      assert (a + b)[1..] == a[1..] + b;
      BinaryAppend(a[1..], b);
    }
  }

  lemma BinaryPrefix(a: seq<Rfc6455.Message>, b: seq<Rfc6455.Message>)
    requires a <= b
    ensures Rfc6455.Binary(a) <= Rfc6455.Binary(b)
  {
    assert b == a + b[|a|..];
    BinaryAppend(a, b[|a|..]);
  }

  lemma {:induction false} DataPrefix(a: seq<Rfc6455.Frame>, b: seq<Rfc6455.Frame>)
    requires a <= b
    ensures WebSocket.DataPayloads(a) <= WebSocket.DataPayloads(b)
  {
    assert b == a + b[|a|..];
    WebSocket.DataAppend(a, b[|a|..]);
  }

  // ---------------------------------------------------------------------------
  // Bytes lost at the front.

  function Wrap(i: nat, n: nat): (r: nat)
    requires n > 0
    ensures r < n
  {
    i % n
  }

  lemma WrapAround(i: nat, n: nat)
    requires n > 0
    ensures i < n ==> Wrap(i, n) == i
    ensures i >= n ==> Wrap(i, n) == Wrap(i - n, n)
  {
    if i >= n {
      var q := (i - n) / n;
      RemainderIs(i - n, n);
      NextProduct(q, n);
      QuotientUnique(i, q + 1, n);
    }
  }

  /** `read` goes round and round `lost`. */
  ghost predicate Repeats(read: bytes, lost: bytes)
    requires lost != []
  {
    forall i :: 0 <= i < |read| ==> read[i] == lost[Wrap(i, |lost|)]
  }

  lemma {:induction false} RepeatsAt(read: bytes, lost: bytes, rest: bytes, i: nat)
    requires lost != [] && i < |read| && read <= rest && read <= lost + rest
    ensures read[i] == lost[Wrap(i, |lost|)]
    decreases i
  {
    hide Wrap;
    WrapAround(i, |lost|);
    assert read[i] == (lost + rest)[i];
    if i >= |lost| {
      RepeatsAt(read, lost, rest, i - |lost|);
    }
  }

  lemma PrefixAt(read: bytes, lost: bytes, rest: bytes, i: nat)
    requires lost != [] && i < |read| && read <= rest && Repeats(read, lost)
    ensures i < |lost + rest| && read[i] == (lost + rest)[i]
  {
    hide Wrap;
    WrapAround(i, |lost|);
    if i >= |lost| {
      assert read[i - |lost|] == lost[Wrap(i - |lost|, |lost|)];
    }
  }

  /**
   * With bytes lost at the front, what was read is still a prefix of the whole exactly when none were, or when it
   * repeats them.
   */
  lemma LostAtFront(read: bytes, lost: bytes, rest: bytes)
    requires read <= rest
    ensures read <= lost + rest <==> lost == [] || Repeats(read, lost)
  {
    hide Wrap;
    if lost == [] {
      assert lost + rest == rest;
    } else {
      if read <= lost + rest {
        forall i | 0 <= i < |read|
          ensures read[i] == lost[Wrap(i, |lost|)]
        {
          RepeatsAt(read, lost, rest, i);
        }
      }
      if Repeats(read, lost) {
        forall i | 0 <= i < |read|
          ensures read[i] == (lost + rest)[i]
        {
          PrefixAt(read, lost, rest, i);
        }
      }
    }
  }

  // ---------------------------------------------------------------------------
  // End to end.

  /** What socket `s` had sent before it was joined, and so to nobody. */
  function Lost(w: Relay.World, s: Relay.Socket): bytes { Concat(Relay.At(w.early, s)) }

  /**
   * `output` is what client `a` put on its wire, `received` how much of it reached the relay as binary frames of `a`.
   */
  ghost predicate Uplink(w: Relay.World, a: Relay.Socket, output: bytes, sent: seq<Rfc6455.Frame>, received: bytes) {
    && Rfc6455.DecodeClients(output) == (sent, []) && received <= output
    && Relay.At(w.heard, a) <= WebSocket.DataPayloads(Rfc6455.DecodeClients(received).0)
  }

  /** The runtime frames the items for `b`, in any way, as `fs`; `input` is how much of that reaches `b`. */
  ghost predicate Downlink(
    w: Relay.World, b: Relay.Socket, fs: seq<Rfc6455.Frame>, render: Relay.Item -> bytes, input: bytes) {
    && (forall i :: 0 <= i < |fs| ==> Rfc6455.Sound(fs[i]))
    && WebSocket.Conforms(fs, Rfc6455.Idle)
    && Rfc6455.Assemble(fs, Rfc6455.Idle) <= Rendered(Relay.At(w.outbox, b), render)
    && input <= Rfc6455.EncodeServers(fs)
  }

  /** All of it reaches `b`. */
  ghost predicate Arrived(
    w: Relay.World, b: Relay.Socket, fs: seq<Rfc6455.Frame>, render: Relay.Item -> bytes, input: bytes)
    requires Downlink(w, b, fs, render, input)
  {
    Rfc6455.Assemble(fs, Rfc6455.Idle) == Rendered(Relay.At(w.outbox, b), render) && input == Rfc6455.EncodeServers(fs)
  }

  /**
   * After any run of the relay, what `b` reads is a prefix of what its mate `a` wrote from its pairing on, and all
   * of it with nothing cut off and the pair still up. It is a prefix of all `a` wrote exactly when `a` wrote
   * nothing before its pairing, or when it happens to repeat that.
   */
  lemma EndToEnd(
    run: seq<Relay.Event>, a: Relay.Socket, b: Relay.Socket, output: bytes, sent: seq<Rfc6455.Frame>, received: bytes,
    fs: seq<Rfc6455.Frame>, render: Relay.Item -> bytes, input: bytes)
    requires Relay.CanRun(Relay.START, run)
    requires b in Relay.Run(Relay.START, run).mates && Relay.Run(Relay.START, run).mates[b] == a
    requires Uplink(Relay.Run(Relay.START, run), a, output, sent, received)
    requires Downlink(Relay.Run(Relay.START, run), b, fs, render, input)
    ensures var lost := Lost(Relay.Run(Relay.START, run), a);
            && lost <= WebSocket.Wrote(sent)
            && WebSocket.StreamBytes(input) <= WebSocket.Wrote(sent)[|lost|..]
            && (WebSocket.StreamBytes(input) <= WebSocket.Wrote(sent) <==>
               lost == [] || Repeats(WebSocket.StreamBytes(input), lost))
    ensures var w := Relay.Run(Relay.START, run);
            b in w.relay.partners && Relay.At(w.heard, a) == WebSocket.DataPayloads(sent) &&
                Arrived(w, b, fs, render, input) ==>
              Lost(w, a) + WebSocket.StreamBytes(input) == WebSocket.Wrote(sent)
  {
    hide Relay.Run, Relay.CanRun, Relay.At, WebSocket.DataPayloads, WebSocket.StreamBytes, Concat, Repeats, Uplink,
        Downlink, Arrived;
    var w := Relay.Run(Relay.START, run);
    ReaderSide(run, b, fs, render, input);
    Relay.RelaysPrefix(run, b);
    WriterSide(w, a, output, sent, received);
    Relay.SpokenInTwo(run, a);
    ReadFromPairing(Relay.At(w.early, a), Relay.At(w.inbox, a), WebSocket.DataPayloads(sent),
        WebSocket.StreamBytes(input));
  }

  /** A guest is joined as it is admitted: it loses nothing. */
  lemma GuestLosesNothing(run: seq<Relay.Event>, a: Relay.Socket)
    requires Relay.CanRun(Relay.START, run) && a in Relay.Run(Relay.START, run).mates
    requires var w := Relay.Run(Relay.START, run); a in w.role && w.role[a].Guest?
    ensures Lost(Relay.Run(Relay.START, run), a) == []
  {
    Relay.SpokenInTwo(run, a);
    hide Relay.Run, Relay.CanRun, Relay.At;
  }

  /** What reaches the relay of a client's frames is the first of them. */
  lemma WriterSide(w: Relay.World, a: Relay.Socket, output: bytes, sent: seq<Rfc6455.Frame>, received: bytes)
    requires Uplink(w, a, output, sent, received)
    ensures Relay.At(w.heard, a) <= WebSocket.DataPayloads(sent)
  {
    hide Rfc6455.DecodeClients, WebSocket.DataPayloads, Relay.At;
    assert output == received + output[|received|..];
    Rfc6455.ClientsCut(received, output[|received|..]);
    DataPrefix(Rfc6455.DecodeClients(received).0, sent);
  }

  /** What a client reads is what its mate sent since they were joined, up to where it was cut off. */
  lemma ReaderSide(
    run: seq<Relay.Event>, b: Relay.Socket, fs: seq<Rfc6455.Frame>, render: Relay.Item -> bytes, input: bytes)
    requires Relay.CanRun(Relay.START, run) && b in Relay.Run(Relay.START, run).mates
    requires Downlink(Relay.Run(Relay.START, run), b, fs, render, input)
    ensures var w := Relay.Run(Relay.START, run);
            && WebSocket.StreamBytes(input) <= Concat(Relay.At(w.inbox, w.mates[b]))
            && (b in w.relay.partners && Arrived(w, b, fs, render, input) ==>
                  WebSocket.StreamBytes(input) == Concat(Relay.At(w.inbox, w.mates[b])))
  {
    hide Relay.Run, Relay.CanRun, Relay.Binaries, Relay.At, Rfc6455.Assemble, Rfc6455.EncodeServers;
    hide WebSocket.Conforms, WebSocket.Messages;
    hide Concat, Rfc6455.Binary;
    var items := Relay.At(Relay.Run(Relay.START, run).outbox, b);
    WebSocket.ReadsWhatWasFramed(fs);
    var stream := Rfc6455.EncodeServers(fs);
    assert stream == input + stream[|input|..];
    WebSocket.CutIsPrefix(input, stream[|input|..]);
    BinaryPrefix(Rfc6455.Assemble(fs, Rfc6455.Idle), Rendered(items, render));
    RenderedBytes(items, render);
    Relay.RelaysPrefix(run, b);
  }

  lemma PrefixSplit(a: bytes, b: bytes, whole: bytes)
    requires a + b <= whole
    ensures a <= whole && b <= whole[|a|..] && whole == a + whole[|a|..]
  {
    assert a == (a + b)[..|a|] == whole[..|a|];
    assert b == (a + b)[|a|..] == whole[|a|..][..|b|];
  }

  /** Frames `early` lost, frames `since` forwarded, both at the front of what was written. */
  lemma ReadFromPairing(early: seq<bytes>, since: seq<bytes>, written: seq<bytes>, read: bytes)
    requires early + since <= written && read <= Concat(since)
    ensures var lost := Concat(early);
            && lost <= Concat(written) && read <= Concat(written)[|lost|..]
            && (read <= Concat(written) <==> lost == [] || Repeats(read, lost))
    ensures Concat(early + since) == Concat(early) + Concat(since)
  {
    hide Concat, Repeats;
    ConcatAppend(early, since);
    ConcatPrefix(early + since, written);
    PrefixSplit(Concat(early), Concat(since), Concat(written));
    PrefixTwice(read, Concat(since), Concat(written)[|Concat(early)|..]);
    LostAtFront(read, Concat(early), Concat(written)[|Concat(early)|..]);
  }

  lemma PrefixTwice(a: bytes, b: bytes, c: bytes)
    requires a <= b <= c
    ensures a <= c
  {
  }

  // ---------------------------------------------------------------------------
  // The host's discipline: it writes nothing until it has been told of its peer.

  /** If anything of `a` has reached the relay, `a` has been sent its pairing notice. */
  ghost predicate Prompted(w: Relay.World, a: Relay.Socket) {
    Concat(Relay.At(w.heard, a)) != [] ==>
        exists i :: 0 <= i < |Relay.At(w.outbox, a)| && Relay.At(w.outbox, a)[i].Paired?
  }

  ghost predicate Disciplined(w: Relay.World, run: seq<Relay.Event>, a: Relay.Socket)
    decreases |run|
  {
    Prompted(w, a) && (run != [] ==> Disciplined(Relay.Step(w, run[0]), run[1..], a))
  }

  lemma StepLosesNothing(w: Relay.World, e: Relay.Event, a: Relay.Socket)
    requires Relay.Inv(w) && Relay.Enabled(w, e) && Prompted(w, a) && Lost(w, a) == []
    ensures Lost(Relay.Step(w, e), a) == []
  {
    hide Relay.Inv, Relay.Step, Relay.At, Relay.Registered, Relay.Listed, Relay.StandbyIdle, Relay.Told, Relay.Piped,
        Concat;
    Relay.InvAt(w, a);
    Relay.Speaks(w, e, a);
    if Relay.ChangeOf(w.relay, e).Linked? {
      Relay.Unjoined(w, e);
    }
  }

  /** Such a client loses nothing, so by `EndToEnd` its mate reads a prefix of all it wrote. */
  lemma {:induction false} DisciplinedLosesNothing(w: Relay.World, run: seq<Relay.Event>, a: Relay.Socket)
    requires Relay.Inv(w) && Relay.CanRun(w, run) && Disciplined(w, run, a) && Lost(w, a) == []
    ensures Lost(Relay.Run(w, run), a) == []
    decreases |run|
  {
    hide Relay.Inv, Relay.Step, Lost, Prompted;
    if run != [] {
      StepLosesNothing(w, run[0], a);
      Relay.StepKeeps(w, run[0]);
      DisciplinedLosesNothing(Relay.Step(w, run[0]), run[1..], a);
    }
  }

  /** Among the relay's texts only a pairing notice reads as one. */
  ghost predicate Tells(render: Relay.Item -> bytes, decode: bytes -> WebSocket.Notice) {
    forall item: Relay.Item :: !item.Binary? && decode(render(item)).PeerJoined? ==> item.Paired?
  }

  /**
   * `a` is served by a client that has read some of what it was sent, and has written only if it read its notice
   * there.
   */
  ghost predicate Awaits(
    w: Relay.World, a: Relay.Socket, render: Relay.Item -> bytes, decode: bytes -> WebSocket.Notice) {
    exists output: bytes, sent: seq<Rfc6455.Frame>, received: bytes, fs: seq<Rfc6455.Frame>, input: bytes ::
      Uplink(w, a, output, sent, received) && Downlink(w, a, fs, render, input) &&
      WebSocket.WritesWhenTold(sent, input, decode)
  }

  lemma {:induction false} TextFrom(ms: seq<Rfc6455.Message>, t: bytes) returns (j: nat)
    requires t in WebSocket.Texts(ms)
    ensures j < |ms| && ms[j] == Rfc6455.Message(true, t)
  {
    if ms[0].text && ms[0].payload == t {
      j := 0;
    } else {
      j := TextFrom(ms[1..], t);
      j := j + 1;
    }
  }

  /** A control text that was read is one the relay sent. */
  lemma TextWasSent(
    w: Relay.World, a: Relay.Socket, fs: seq<Rfc6455.Frame>, render: Relay.Item -> bytes, input: bytes, t: bytes)
    returns (i: nat)
    requires Downlink(w, a, fs, render, input) && t in WebSocket.Texts(WebSocket.Messages(input))
    ensures i < |Relay.At(w.outbox, a)| && !Relay.At(w.outbox, a)[i].Binary? && render(Relay.At(w.outbox, a)[i]) == t
  {
    hide Relay.At, Rfc6455.Assemble, Rfc6455.EncodeServers, WebSocket.Conforms, WebSocket.Messages;
    WebSocket.ReadsWhatWasFramed(fs);
    var stream := Rfc6455.EncodeServers(fs);
    assert stream == input + stream[|input|..];
    WebSocket.CutIsPrefix(input, stream[|input|..]);
    i := TextFrom(WebSocket.Messages(input), t);
    assert WebSocket.Messages(input)[i] == Rfc6455.Assemble(fs, Rfc6455.Idle)[i];
  }

  lemma AwaitingIsPrompted(
    w: Relay.World, a: Relay.Socket, render: Relay.Item -> bytes, decode: bytes -> WebSocket.Notice)
    requires Tells(render, decode) && Awaits(w, a, render, decode)
    ensures Prompted(w, a)
  {
    hide Uplink, Downlink, Concat, Relay.At, WebSocket.Messages, WebSocket.Texts, WebSocket.DataPayloads;
    var output: bytes, sent: seq<Rfc6455.Frame>, received: bytes, fs: seq<Rfc6455.Frame>, input: bytes :|
      Uplink(w, a, output, sent, received) && Downlink(w, a, fs, render, input) &&
      WebSocket.WritesWhenTold(sent, input, decode);
    WriterSide(w, a, output, sent, received);
    ConcatPrefix(Relay.At(w.heard, a), WebSocket.DataPayloads(sent));
    if Concat(Relay.At(w.heard, a)) != [] {
      var t :| t in WebSocket.Texts(WebSocket.Messages(input)) && decode(t).PeerJoined?;
      var i := TextWasSent(w, a, fs, render, input, t);
    }
  }

  /** The client waits for its notice in every state of the run. */
  ghost predicate AwaitsThroughout(
    w: Relay.World, run: seq<Relay.Event>, a: Relay.Socket, render: Relay.Item -> bytes,
        decode: bytes -> WebSocket.Notice)
    decreases |run|
  {
    Awaits(w, a, render, decode) &&
    (run != [] ==> AwaitsThroughout(Relay.Step(w, run[0]), run[1..], a, render, decode))
  }

  lemma {:induction false} AwaitingIsDisciplined(
    w: Relay.World, run: seq<Relay.Event>, a: Relay.Socket, render: Relay.Item -> bytes,
        decode: bytes -> WebSocket.Notice)
    requires Tells(render, decode) && AwaitsThroughout(w, run, a, render, decode)
    ensures Disciplined(w, run, a)
    decreases |run|
  {
    hide Tells, Awaits, Prompted, Relay.Step;
    AwaitingIsPrompted(w, a, render, decode);
    if run != [] {
      AwaitingIsDisciplined(Relay.Step(w, run[0]), run[1..], a, render, decode);
    }
  }

  /** A host that waits for its notice before it writes loses nothing in any run. */
  lemma AwaitingLosesNothing(
    run: seq<Relay.Event>, a: Relay.Socket, render: Relay.Item -> bytes, decode: bytes -> WebSocket.Notice)
    requires Relay.CanRun(Relay.START, run) && Tells(render, decode)
    requires AwaitsThroughout(Relay.START, run, a, render, decode)
    ensures Lost(Relay.Run(Relay.START, run), a) == []
  {
    assert Lost(Relay.START, a) == [];
    hide Relay.CanRun, Relay.Run, AwaitsThroughout, Disciplined, Lost, Tells, Relay.Inv;
    Relay.StartHolds();
    AwaitingIsDisciplined(Relay.START, run, a, render, decode);
    DisciplinedLosesNothing(Relay.START, run, a);
  }

  /** A host that writes early: its mate reads [2], of all that was written [1, 2]. */
  lemma EarlyWriteLost()
    ensures var w := Relay.Run(Relay.START, RelayRuns.EARLY);
            && Relay.CanRun(Relay.START, RelayRuns.EARLY) && Lost(w, 0) == [1]
            && Concat(Relay.Binaries(Relay.At(w.outbox, 1))) == [2] && Concat(Relay.At(w.heard, 0)) == [1, 2]
            && !Repeats([2], [1])
  {
    hide Relay.Run, Relay.CanRun, Relay.At, Relay.Binaries, Concat;
    RelayRuns.EarlyFrameLost();
    RelayRuns.TwoBytes();
    var w := Relay.Run(Relay.START, RelayRuns.EARLY);
    Relay.SpokenInTwo(RelayRuns.EARLY, 0);
    Relay.RelaysPrefix(RelayRuns.EARLY, 1);
    assert Relay.At(w.inbox, 0) == [[2]];
    assert Relay.At(w.early, 0) == (Relay.At(w.early, 0) + [[2]])[..1] == [[1]];
    OneFrame([1]);
  }

  lemma OneFrame(p: bytes)
    ensures Concat([p]) == p
  {
    assert [p][1..] == [];
  }
}
