/**
 * The dial race (internal/connect/connect.go): one goroutine per endpoint, a buffered channel, the
 * collecting loop and the drainer, in every interleaving.
 */
module DialRace {
  import opened Common

  type Endpoint = string

  /** What a dialer reports: its number, its endpoint, and whether it connected. Connections are named by dialer. */
  datatype Outcome = Outcome(dialer: int, endpoint: Endpoint, ok: bool)

  /** What one `select` of the collecting loop yields. */
  datatype Pick = Got(outcome: Outcome) | ChannelClosed | Deadline

  /** The collecting loop's variables; `left` is set by its `break`. */
  datatype Main = Main(remaining: int, winner: Option<int>, winnerEndpoint: Endpoint, failed: bool, left: bool)

  predicate Looping(m: Main) { m.remaining > 0 && !m.left }

  /**
   * One turn of the loop, and the connection it closes. A `continue` skips the test at the end of
   * the turn, so taking a winner does not leave the loop.
   */
  function Turn(m: Main, p: Pick): (Main, Option<int>) {
    match p
    case ChannelClosed => (m.(remaining := 0), None)
    case Deadline => (m.(remaining := 0, left := m.winner.Some?), None)
    case Got(out) =>
      var m := m.(remaining := m.remaining - 1);
      if !out.ok then (m.(failed := true), None)
      else if m.winner.None? then (m.(winner := Some(out.dialer), winnerEndpoint := out.endpoint), None)
      else (m.(left := true), Some(out.dialer))
  }

  datatype Dialer = Dialing | Dialed(ok: bool) | Done(ok: bool)

  datatype Drainer = NotStarted | Draining | Finished

  datatype World = World(
    endpoints: seq<Endpoint>,
    dialers: seq<Dialer>,
    channel: seq<Outcome>,
    shut: bool,               // the channel has been closed
    main: Main,
    drainer: Drainer,
    closes: seq<nat>,         // how often each connection was closed
    received: seq<Outcome>,   // what the collecting loop took, in order
    drained: nat              // how many outcomes the drainer took
  )

  datatype Event =
    | DialEnds(dialer: int, ok: bool) | Send(dialer: int) | Shut | Take | SeeShut | TimeOut | Drain | DrainEnds

  function Start(endpoints: seq<Endpoint>): World {
    var n := |endpoints|;
    World(endpoints, seq(n, _ => Dialing), [], false, Main(n, None, "", false, false),
          if n == 0 then Draining else NotStarted, seq(n, _ => 0), [], 0)
  }

  ghost predicate AllDone(w: World) { forall i :: 0 <= i < |w.dialers| ==> w.dialers[i].Done? }

  /**
   * What the Go runtime lets happen: a send needs room in the channel, which holds as many outcomes as there are
   * endpoints.
   */
  ghost predicate Enabled(w: World, e: Event) {
    match e
    case DialEnds(i, _) => 0 <= i < |w.dialers| && w.dialers[i].Dialing?
    case Send(i) => 0 <= i < |w.dialers| && w.dialers[i].Dialed? && |w.channel| < |w.endpoints|
    case Shut => AllDone(w) && !w.shut
    case Take => Looping(w.main) && w.channel != []
    case SeeShut => Looping(w.main) && w.channel == [] && w.shut
    case TimeOut => Looping(w.main)
    case Drain => w.drainer.Draining? && w.channel != []
    case DrainEnds => w.drainer.Draining? && w.channel == [] && w.shut
  }

  function Closing(closes: seq<nat>, c: Option<int>): seq<nat> {
    if c.Some? && 0 <= c.value < |closes| then closes[c.value := closes[c.value] + 1] else closes
  }

  function Collecting(w: World, p: Pick): World {
    var (m, c) := Turn(w.main, p);
    w.(main := m, closes := Closing(w.closes, c), drainer := if Looping(m) then w.drainer else Draining,
       channel := if p.Got? && w.channel != [] then w.channel[1..] else w.channel,
       received := if p.Got? then w.received + [p.outcome] else w.received)
  }

  function Step(w: World, e: Event): World {
    match e
    case DialEnds(i, ok) => if 0 <= i < |w.dialers| then w.(dialers := w.dialers[i := Dialed(ok)]) else w
    case Send(i) =>
      if 0 <= i < |w.dialers| && i < |w.endpoints| && w.dialers[i].Dialed? then
        w.(dialers := w.dialers[i := Done(w.dialers[i].ok)],
            channel := w.channel + [Outcome(i, w.endpoints[i], w.dialers[i].ok)])
      else w
    case Shut => w.(shut := true)
    case Take => if w.channel != [] then Collecting(w, Got(w.channel[0])) else w
    case SeeShut => Collecting(w, ChannelClosed)
    case TimeOut => Collecting(w, Deadline)
    case Drain =>
      if w.channel != [] then
        var out := w.channel[0];
        w.(channel := w.channel[1..], drained := w.drained + 1,
           closes := Closing(w.closes, if out.ok && w.main.winner != Some(out.dialer) then Some(out.dialer) else None))
      else w
    case DrainEnds => w.(drainer := Finished)
  }

  ghost predicate CanRun(w: World, run: seq<Event>)
    decreases |run|
  {
    run == [] || (Enabled(w, run[0]) && CanRun(Step(w, run[0]), run[1..]))
  }

  function Run(w: World, run: seq<Event>): World
    decreases |run|
  {
    if run == [] then w else Run(Step(w, run[0]), run[1..])
  }

  // ---------------------------------------------------------------------------
  // The invariant.

  predicate InChannel(w: World, i: int) { exists k :: 0 <= k < |w.channel| && w.channel[k].dialer == i }

  /** A queued outcome is its dialer's own. */
  ghost predicate Queued(w: World, k: int)
    requires 0 <= k < |w.channel|
  {
    var o := w.channel[k];
    0 <= o.dialer < |w.dialers| == |w.endpoints| && w.dialers[o.dialer] == Done(o.ok) &&
        o.endpoint == w.endpoints[o.dialer]
  }

  /** Where connection `i` is: not made, with its dialer, in the channel, won, or closed once. */
  ghost predicate Placed(w: World, i: int)
    requires 0 <= i < |w.dialers| == |w.closes|
  {
    var won := w.main.winner == Some(i);
    match w.dialers[i]
    case Dialing => w.closes[i] == 0 && !won && !InChannel(w, i)
    case Dialed(_) => w.closes[i] == 0 && !won && !InChannel(w, i)
    case Done(ok) =>
      if !ok then w.closes[i] == 0 && !won
      else if InChannel(w, i) then w.closes[i] == 0 && !won
      else w.closes[i] == if won then 0 else 1
  }

  function Sent(dialers: seq<Dialer>): nat {
    if dialers == [] then 0 else Sent(dialers[..|dialers| - 1]) + if dialers[|dialers| - 1].Done? then 1 else 0
  }

  function FirstOk(outs: seq<Outcome>): Option<int> {
    if outs == [] then None else if outs[0].ok then Some(outs[0].dialer) else FirstOk(outs[1..])
  }

  predicate AnyFailed(outs: seq<Outcome>) { exists k :: 0 <= k < |outs| && !outs[k].ok }

  ghost predicate MainSound(w: World) {
    && (w.main.failed <==> AnyFailed(w.received))
    && (w.main.winner.Some? ==> 0 <= w.main.winner.value < |w.endpoints| == |w.dialers| &&
                                w.dialers[w.main.winner.value] == Done(true) &&
                                    w.main.winnerEndpoint == w.endpoints[w.main.winner.value])
    && w.main.winner == FirstOk(w.received)
    && (w.main.remaining == |w.endpoints| - |w.received| || w.main.remaining == 0)
    && (w.drainer.NotStarted? <==> Looping(w.main))
    && (w.drainer.NotStarted? ==> w.drained == 0 && w.main.remaining == |w.endpoints| - |w.received|)
    && (w.drainer.Finished? ==> w.channel == [] && w.shut)
  }

  ghost predicate Counted(w: World) {
    && |w.dialers| == |w.endpoints| == |w.closes|
    && Sent(w.dialers) == |w.channel| + |w.received| + w.drained
    && (w.shut ==> AllDone(w))
  }

  ghost predicate Distinct(channel: seq<Outcome>) {
    forall a, b :: 0 <= a < b < |channel| ==> channel[a].dialer != channel[b].dialer
  }

  ghost predicate Inv(w: World) {
    && Counted(w)
    && MainSound(w)
    && Distinct(w.channel)
    && (forall k :: 0 <= k < |w.channel| ==> Queued(w, k))
    && (forall i :: 0 <= i < |w.dialers| ==> Placed(w, i))
  }

  // ---------------------------------------------------------------------------
  // Every step keeps it.

  lemma {:induction false} SentAt(dialers: seq<Dialer>, i: int, d: Dialer)
    requires 0 <= i < |dialers|
    ensures Sent(dialers[i := d]) == Sent(dialers) + (if d.Done? then 1 else 0) - (if dialers[i].Done? then 1 else 0)
  {
    var n := |dialers| - 1;
    if i < n {
      SentAt(dialers[..n], i, d);
      assert dialers[i := d][..n] == dialers[..n][i := d];
    } else {
      assert dialers[i := d][..n] == dialers[..n];
    }
  }

  lemma {:induction false} SentBound(dialers: seq<Dialer>)
    ensures Sent(dialers) <= |dialers|
    ensures Sent(dialers) == |dialers| <==> forall i :: 0 <= i < |dialers| ==> dialers[i].Done?
  {
    if dialers != [] {
      var front := dialers[..|dialers| - 1];
      SentBound(front);
      assert forall i :: 0 <= i < |front| ==> front[i] == dialers[i];
    }
  }

  lemma {:induction false} FirstOkPush(outs: seq<Outcome>, o: Outcome)
    ensures FirstOk(outs + [o]) == if FirstOk(outs).Some? then FirstOk(outs) else if o.ok then Some(o.dialer) else None
  {
    if outs == [] {
      assert outs + [o] == [o];
    } else {
      assert (outs + [o])[1..] == outs[1..] + [o];
      FirstOkPush(outs[1..], o);
    }
  }

  lemma AnyFailedPush(outs: seq<Outcome>, o: Outcome)
    ensures AnyFailed(outs + [o]) <==> AnyFailed(outs) || !o.ok
  {
    if AnyFailed(outs) {
      var k :| 0 <= k < |outs| && !outs[k].ok;
      assert (outs + [o])[k] == outs[k];
    }
    assert (outs + [o])[|outs|] == o;
  }

  lemma DialEndsKeeps(w: World, i: int, ok: bool)
    requires Inv(w) && Enabled(w, DialEnds(i, ok))
    ensures Inv(Step(w, DialEnds(i, ok)))
  {
    var v := Step(w, DialEnds(i, ok));
    SentAt(w.dialers, i, Dialed(ok));
    assert !AllDone(w);
    forall k | 0 <= k < |v.channel|
      ensures Queued(v, k)
    {
      assert Queued(w, k);
    }
    forall j | 0 <= j < |v.dialers|
      ensures Placed(v, j)
    {
      assert Placed(w, j);
      assert InChannel(v, j) <==> InChannel(w, j);
    }
  }

  lemma SendKeeps(w: World, i: int)
    requires Inv(w) && Enabled(w, Send(i))
    ensures Inv(Step(w, Send(i)))
  {
    var v := Step(w, Send(i));
    var d := Done(w.dialers[i].ok);
    SentAt(w.dialers, i, d);
    assert Placed(w, i);
    assert v.channel[|w.channel|].dialer == i;
    forall k | 0 <= k < |v.channel|
      ensures Queued(v, k)
    {
      assert k < |w.channel| ==> Queued(w, k) && v.channel[k] == w.channel[k];
    }
    forall j | 0 <= j < |v.dialers|
      ensures Placed(v, j)
    {
      assert Placed(w, j);
      ChannelPush(w, v, j);
    }
  }

  lemma ChannelPush(w: World, v: World, j: int)
    requires |v.channel| == |w.channel| + 1 && v.channel[..|w.channel|] == w.channel
    ensures InChannel(v, j) <==> InChannel(w, j) || v.channel[|w.channel|].dialer == j
  {
    assert forall k :: 0 <= k < |w.channel| ==> v.channel[k] == w.channel[k];
    if InChannel(w, j) {
      var k :| 0 <= k < |w.channel| && w.channel[k].dialer == j;
      assert v.channel[k].dialer == j;
    }
  }

  lemma ChannelPop(w: World, v: World, j: int)
    requires w.channel != [] && v.channel == w.channel[1..] && Distinct(w.channel)
    ensures InChannel(v, j) <==> InChannel(w, j) && w.channel[0].dialer != j
  {
    if InChannel(w, j) {
      var k :| 0 <= k < |w.channel| && w.channel[k].dialer == j;
      if k > 0 {
        assert v.channel[k - 1].dialer == j;
      }
    }
    if InChannel(v, j) {
      var k :| 0 <= k < |v.channel| && v.channel[k].dialer == j;
      assert w.channel[k + 1].dialer == j;
    }
  }

  /** Taking the oldest outcome from the channel, closing its connection exactly if it is a second success. */
  lemma PopKeeps(w: World, v: World)
    requires Inv(w) && w.channel != [] && v.channel == w.channel[1..]
    requires v.dialers == w.dialers && v.endpoints == w.endpoints
    requires var out := w.channel[0];
             var wins := out.ok && w.main.winner.None? && w.drainer.NotStarted?;
             var extra := out.ok && v.main.winner != Some(out.dialer);
             && v.main.winner == (if wins then Some(out.dialer) else w.main.winner)
             && v.closes == Closing(w.closes, if extra then Some(out.dialer) else None)
    ensures Distinct(v.channel)
    ensures forall k :: 0 <= k < |v.channel| ==> Queued(v, k)
    ensures forall i :: 0 <= i < |v.dialers| ==> |v.dialers| == |v.closes| && Placed(v, i)
  {
    assert Queued(w, 0);
    var out := w.channel[0];
    assert InChannel(w, out.dialer);
    assert Placed(w, out.dialer);
    forall k | 0 <= k < |v.channel|
      ensures Queued(v, k)
    {
      assert Queued(w, k + 1) && v.channel[k] == w.channel[k + 1];
    }
    forall i | 0 <= i < |v.dialers|
      ensures Placed(v, i)
    {
      assert Placed(w, i);
      ChannelPop(w, v, i);
    }
  }

  lemma TakeKeeps(w: World)
    requires Inv(w) && Enabled(w, Take)
    ensures Inv(Step(w, Take))
  {
    var v, out := Step(w, Take), w.channel[0];
    assert Queued(w, 0);
    FirstOkPush(w.received, out);
    AnyFailedPush(w.received, out);
    assert InChannel(w, out.dialer) && Placed(w, out.dialer);
    PopKeeps(w, v);
  }

  lemma DrainKeeps(w: World)
    requires Inv(w) && Enabled(w, Drain)
    ensures Inv(Step(w, Drain))
  {
    PopKeeps(w, Step(w, Drain));
  }

  lemma QuietKeeps(w: World, e: Event)
    requires Inv(w) && Enabled(w, e) && (e.Shut? || e.SeeShut? || e.TimeOut? || e.DrainEnds?)
    ensures Inv(Step(w, e))
  {
    var v := Step(w, e);
    assert v.channel == w.channel && v.closes == w.closes && v.dialers == w.dialers && v.main.winner == w.main.winner;
    forall k | 0 <= k < |v.channel|
      ensures Queued(v, k)
    {
      assert Queued(w, k);
    }
    forall i | 0 <= i < |v.dialers|
      ensures Placed(v, i)
    {
      assert Placed(w, i);
      assert InChannel(v, i) <==> InChannel(w, i);
    }
  }

  lemma StepKeeps(w: World, e: Event)
    requires Inv(w) && Enabled(w, e)
    ensures Inv(Step(w, e))
  {
    match e
    case DialEnds(i, ok) => DialEndsKeeps(w, i, ok);
    case Send(i) => SendKeeps(w, i);
    case Take => TakeKeeps(w);
    case Drain => DrainKeeps(w);
    case _ => QuietKeeps(w, e);
  }

  lemma {:induction false} RunKeeps(w: World, run: seq<Event>)
    requires Inv(w) && CanRun(w, run)
    ensures Inv(Run(w, run))
    decreases |run|
  {
    hide Inv, Step;
    if run != [] {
      StepKeeps(w, run[0]);
      RunKeeps(Step(w, run[0]), run[1..]);
    }
  }

  lemma {:induction false} NoneSent(dialers: seq<Dialer>)
    requires forall i :: 0 <= i < |dialers| ==> dialers[i].Dialing?
    ensures Sent(dialers) == 0
  {
    if dialers != [] {
      NoneSent(dialers[..|dialers| - 1]);
    }
  }

  lemma StartHolds(endpoints: seq<Endpoint>)
    ensures Inv(Start(endpoints))
  {
    NoneSent(Start(endpoints).dialers);
  }

  lemma Reached(endpoints: seq<Endpoint>, run: seq<Event>)
    requires CanRun(Start(endpoints), run)
    ensures Inv(Run(Start(endpoints), run)) && Run(Start(endpoints), run).endpoints == endpoints
  {
    StartHolds(endpoints);
    RunKeeps(Start(endpoints), run);
    SameEndpoints(Start(endpoints), run);
  }

  lemma {:induction false} SameEndpoints(w: World, run: seq<Event>)
    ensures Run(w, run).endpoints == w.endpoints
    decreases |run|
  {
    if run != [] {
      SameEndpoints(Step(w, run[0]), run[1..]);
    }
  }

  // ---------------------------------------------------------------------------
  // What it gives.

  ghost predicate AllOver(w: World) { AllDone(w) && w.drainer.Finished? }

  /** When every goroutine has finished, each connection made is the winner, open, or was closed exactly once. */
  lemma NothingLeaks(endpoints: seq<Endpoint>, run: seq<Event>, i: int)
    requires CanRun(Start(endpoints), run) && AllOver(Run(Start(endpoints), run)) && 0 <= i < |endpoints|
    ensures var w := Run(Start(endpoints), run);
            && |w.dialers| == |w.closes| == |endpoints|
            && w.closes[i] == (if w.dialers[i] == Done(true) && w.main.winner != Some(i) then 1 else 0)
            && (w.main.winner == Some(i) ==> w.dialers[i] == Done(true) && w.main.winnerEndpoint == endpoints[i])
  {
    Reached(endpoints, run);
    var w := Run(Start(endpoints), run);
    hide Run, CanRun;
    assert Placed(w, i) && !InChannel(w, i);
  }

  /**
   * The winner is the first success the collecting loop received, at any point of any run, and an error is held
   * exactly when it received a failure.
   */
  lemma FirstSuccessWins(endpoints: seq<Endpoint>, run: seq<Event>)
    requires CanRun(Start(endpoints), run)
    ensures var w := Run(Start(endpoints), run);
            w.main.winner == FirstOk(w.received) && (w.main.failed <==> AnyFailed(w.received))
  {
    Reached(endpoints, run);
    hide Run, CanRun;
  }

  /** The channel has room for every dialer that has yet to report, and the loop never finds it closed. */
  lemma NoSenderBlocks(w: World, i: int)
    requires Inv(w)
    ensures 0 <= i < |w.dialers| && w.dialers[i].Dialed? ==> Enabled(w, Send(i))
    ensures !Enabled(w, SeeShut)
  {
    SentBound(w.dialers);
  }

  /** Until all is over, something other than the deadline can happen. */
  lemma NeverStuck(w: World)
    requires Inv(w) && !AllOver(w)
    ensures exists e: Event :: !e.TimeOut? && Enabled(w, e)
  {
    SentBound(w.dialers);
    if !AllDone(w) {
      var i :| 0 <= i < |w.dialers| && !w.dialers[i].Done?;
      NoSenderBlocks(w, i);
      if w.dialers[i].Dialing? {
        assert Enabled(w, DialEnds(i, true));
      } else {
        assert Enabled(w, Send(i));
      }
    } else if !w.shut {
      assert Enabled(w, Shut);
    } else if Looping(w.main) {
      assert Enabled(w, Take);
    } else if w.channel != [] {
      assert Enabled(w, Drain);
    } else {
      assert Enabled(w, DrainEnds);
    }
  }

  function Work(dialers: seq<Dialer>): nat {
    if dialers == [] then 0
    else
      Work(dialers[..|dialers| - 1]) + Weight(dialers[|dialers| - 1])
  }

  function Weight(d: Dialer): nat { match d case Dialing => 3 case Dialed(_) => 2 case Done(_) => 0 }

  lemma {:induction false} WorkAt(dialers: seq<Dialer>, i: int, d: Dialer)
    requires 0 <= i < |dialers|
    ensures Work(dialers[i := d]) == Work(dialers) + Weight(d) - Weight(dialers[i])
  {
    var n := |dialers| - 1;
    if i < n {
      WorkAt(dialers[..n], i, d);
      assert dialers[i := d][..n] == dialers[..n][i := d];
    } else {
      assert dialers[i := d][..n] == dialers[..n];
    }
  }

  function Left(w: World): nat {
    Work(w.dialers) + |w.channel| + (if w.shut then 0 else 1) + (if Looping(w.main) then 1 else 0) +
        (if w.drainer.Finished? then 0 else 1)
  }

  /** Every step uses something up, so every run ends, and by `NeverStuck` it ends with all over. */
  lemma StepUsesUp(w: World, e: Event)
    requires Inv(w) && Enabled(w, e)
    ensures Left(Step(w, e)) < Left(w)
  {
    match e
    case DialEnds(i, ok) => WorkAt(w.dialers, i, Dialed(ok));
    case Send(i) => WorkAt(w.dialers, i, Done(w.dialers[i].ok));
    case _ =>
  }

  lemma {:induction false} RunsEnd(w: World, run: seq<Event>)
    requires Inv(w) && CanRun(w, run)
    ensures |run| + Left(Run(w, run)) <= Left(w)
    decreases |run|
  {
    hide Inv, Step, Left;
    if run != [] {
      StepUsesUp(w, run[0]);
      StepKeeps(w, run[0]);
      RunsEnd(Step(w, run[0]), run[1..]);
    }
  }

  /** Receiving an outcome ends the loop exactly when it is the last one, or a second success. */
  lemma WhatEndsTheLoop(w: World)
    requires Inv(w) && Enabled(w, Take)
    ensures !Looping(Step(w, Take).main) <==> w.main.remaining == 1 || (w.main.winner.Some? && w.channel[0].ok)
  {
  }

  /** So a winner alone does not end it: with two endpoints and one connected, the loop still waits for the other. */
  lemma WinnerKeepsWaiting(a: Endpoint, b: Endpoint)
    ensures var w := Step(Step(Step(Start([a, b]), DialEnds(0, true)), Send(0)), Take);
            && CanRun(Start([a, b]), [DialEnds(0, true), Send(0), Take])
            && w.main.winner == Some(0) && Looping(w.main) && w.channel == []
  {
    var w0 := Start([a, b]);
    var w1 := Step(w0, DialEnds(0, true));
    var w2 := Step(w1, Send(0));
    var w3 := Step(w2, Take);
    var e1, e2, e3: Event := DialEnds(0, true), Send(0), Take;
    var none: seq<Event> := [];
    assert CanRun(w3, none);
    assert [e3][1..] == none && [e2, e3][1..] == [e3] && [e1, e2, e3][1..] == [e2, e3];
    assert CanRun(w2, [e3]);
    assert CanRun(w1, [e2, e3]);
  }

  // ---------------------------------------------------------------------------
  // The collecting loop itself.

  function Turns(m: Main, picks: seq<Pick>): (Main, seq<int>) {
    if picks == [] then (m, [])
    else
      var n := |picks| - 1;
      var (before, closed) := Turns(m, picks[..n]);
      var (after, c) := Turn(before, picks[n]);
      (after, closed + if c.Some? then [c.value] else [])
  }

  /** Runs the loop over what `select` yields, as far as it asks; returns the connections it closed. */
  method Collect(count: nat, picks: seq<Pick>) returns (m: Main, closed: seq<int>, used: nat)
    ensures used <= |picks| && (Looping(m) ==> used == |picks|)
    ensures Turns(Main(count, None, "", false, false), picks[..used]) == (m, closed)
    ensures forall k :: 0 <= k < used ==> Looping(Turns(Main(count, None, "", false, false), picks[..k]).0)
  {
    ghost var first := Main(count, None, "", false, false);
    var winner: Option<int>, winnerEndpoint: Endpoint, failed, remaining, left := None, "", false, count as int, false;
    closed, used := [], 0;
    while remaining > 0 && !left && used < |picks|
      invariant used <= |picks|
      invariant Turns(first, picks[..used]) == (Main(remaining, winner, winnerEndpoint, failed, left), closed)
      invariant forall k :: 0 <= k < used ==> Looping(Turns(first, picks[..k]).0)
      decreases |picks| - used
    {
      var p := picks[used];
      assert picks[..used + 1][..used] == picks[..used] && closed + [] == closed;
      used := used + 1;
      match p {
        case ChannelClosed =>
          remaining := 0;
          continue;
        case Got(out) =>
          remaining := remaining - 1;
          if !out.ok {
            failed := true;
            continue;
          }
          if winner.None? {
            winner, winnerEndpoint := Some(out.dialer), out.endpoint;
            continue;
          }
          closed := closed + [out.dialer];
        case Deadline =>
          remaining := 0;
      }
      if winner.Some? {
        left := true;
      }
    }
    m := Main(remaining, winner, winnerEndpoint, failed, left);
  }
}
