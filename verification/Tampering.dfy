/**
 * What the two sides of a tampered handshake still share: the tampering theorems of module Handshake carried to
 * the version chosen and to the secrets held, when the runs in a log are runs of the program.
 */
module Tampering {
  import opened Common
  import opened Wire
  import opened Codec
  import opened Handshake

  // ---------------------------------------------------------------------------
  // No downgrade.

  /** The run is one the program makes as responder, with the preferences of `cr`. */
  ghost predicate RanAsResponder(c: Crypto, cr: Config, run: SignedRun) {
    exists e: Sk, kemRandom: nat, random: bytes ::
      var flight := SecondFlight(c, cr.(binding := run.binding), run.m1, e, kemRandom, random);
      flight.Good? && |flight.value.m2| >= M2_HEADER_LEN && flight.value.m2[..M2_HEADER_LEN] == run.header
  }

  /** The initiator's view of a run, from the M1 it sent and the M2 it read. */
  function InitiatorView(ci: Config, m1: bytes, m2: bytes): SignedRun
    requires |m2| >= M2_HEADER_LEN
  {
    AsResponder(ci.binding, m1, m2[..M2_HEADER_LEN])
  }

  /**
   * Whatever happened on the wire: if the initiator accepts, and the identity it accepted signs as responder only
   * in runs with the preferences of `cr`, then the version accepted is the first of those that was offered, or a
   * collision is exhibited.
   */
  lemma NoDowngrade(
    c: Crypto, ci: Config, cr: Config, e: Sk, dk: Sk, random: bytes, m2: bytes, log: seq<SignedRun>) returns (k: nat)
    requires Lawful(c) && |ci.versions| <= 255 && |random| == 32 && |m2| >= M2_HEADER_LEN
    requires FirstFlight(c, ci, e, dk, random).Good? &&
             ThirdFlight(c, ci, e, dk, FirstFlight(c, ci, e, dk, random).value, m2).Good?
    requires var m1 := FirstFlight(c, ci, e, dk, random).value;
             var pub := ThirdFlight(c, ci, e, dk, m1, m2).value.peer.identity;
             Unforged(c, pub, SignedString(c, InitiatorView(ci, m1, m2), pub), log)
    requires forall i :: 0 <= i < |log| && log[i].AsResponder? ==> RanAsResponder(c, cr, log[i])
    ensures k < |log|
    ensures var m1 := FirstFlight(c, ci, e, dk, random).value;
            || SelectVersion(cr.versions, ci.versions) == Some(ThirdFlight(c, ci, e, dk, m1, m2).value.peer.version)
            || Collide(c, InitiatorView(ci, m1, m2), log[k])
  {
    var m1 := FirstFlight(c, ci, e, dk, random).value;
    OffersReadBack(c, ci, e, dk, random);
    hide Lawful, FirstFlight, ThirdFlight, SecondFlight, Unforged, SignedString, Collide, SelectVersion, DecodeHello;
    k := InitiatorAgreesWithResponder(c, ci, e, dk, m1, m2, log);
    if log[k] == InitiatorView(ci, m1, m2) {
      var e', kemRandom, random' :|
        var flight := SecondFlight(c, cr.(binding := log[k].binding), log[k].m1, e', kemRandom, random');
        flight.Good? && |flight.value.m2| >= M2_HEADER_LEN && flight.value.m2[..M2_HEADER_LEN] == log[k].header;
      AcceptedVersionPreferred(c, ci, cr.(binding := log[k].binding), e, dk, m1, m2, e', kemRandom, random');
    }
  }

  lemma OffersReadBack(c: Crypto, ci: Config, e: Sk, dk: Sk, random: bytes)
    requires Lawful(c) && |ci.versions| <= 255 && |random| == 32 && FirstFlight(c, ci, e, dk, random).Good?
    ensures var m1 := FirstFlight(c, ci, e, dk, random).value;
            DecodeHello(m1) == Some(Hello(ci.versions, c.public(e), c.kemKey(dk), random))
  {
    HelloWritten(Hello(ci.versions, c.public(e), c.kemKey(dk), random));
    hide EncodeHello, DecodeHello;
  }

  // ---------------------------------------------------------------------------
  // The same secrets.

  /** One run seen from both ends: the initiator's M1, and the M2 the responder made of it. */
  ghost predicate OneRun(c: Crypto, ci: Config, cr: Config, d: Draws) {
    && Lawful(c) && ci.binding == cr.binding && |ci.versions| <= 255 && |d.random| == 32 && |d.random'| == 32
    && FirstFlight(c, ci, d.e, d.dk, d.random).Good?
    && SecondFlight(c, cr, FirstFlight(c, ci, d.e, d.dk, d.random).value, d.e', d.kemRandom, d.random').Good?
  }

  /** What the responder has derived when it sends M2, in terms of both sides' keys. */
  lemma ResponderDerives(c: Crypto, ci: Config, cr: Config, d: Draws)
    requires OneRun(c, ci, cr, d)
    ensures c.agree(d.e', c.public(d.e)).Some? && c.encapsulate(c.kemKey(d.dk), d.kemRandom).Some?
    ensures var m1 := FirstFlight(c, ci, d.e, d.dk, d.random).value;
            var p := SecondFlight(c, cr, m1, d.e', d.kemRandom, d.random').value;
            var (quantum, ct) := c.encapsulate(c.kemKey(d.dk), d.kemRandom).value;
            var header := ReplyHeader(p.version, c.public(d.e'), ct, d.random');
            var th2 := Th2(c, cr.binding, m1, header);
            var c2 := SealAuth(c, cr, p.prk, th2, ByResponder);
            && p.m2 == EncodeReply(Reply(p.version, c.public(d.e'), ct, d.random', c2))
            && p.prk == Prk(c, th2, quantum, c.agree(d.e', c.public(d.e)).value)
            && p.th3 == Chain(c, th2, c2) && |p.m2| <= MAX_FRAME_SIZE
            && |ct| == KEM_CIPHERTEXT_SIZE && c.decapsulate(d.dk, ct) == quantum && |c.public(d.e')| == 32
  {
    OffersReadBack(c, ci, d.e, d.dk, d.random);
    CommutesAt(c.public, c.agree, d.e', d.e);
    hide FirstFlight, DecodeHello, SealAuth, Prk, Th2, Validate;
  }

  /** An initiator that accepts an M2 shares the responder's handshake secret and its transcript before C3. */
  lemma SameKeys(c: Crypto, ci: Config, cr: Config, d: Draws)
    requires OneRun(c, ci, cr, d)
    requires var m1 := FirstFlight(c, ci, d.e, d.dk, d.random).value;
             ThirdFlight(c, ci, d.e, d.dk, m1, SecondFlight(c, cr, m1, d.e', d.kemRandom, d.random').value.m2).Good?
    ensures var m1 := FirstFlight(c, ci, d.e, d.dk, d.random).value;
            var p := SecondFlight(c, cr, m1, d.e', d.kemRandom, d.random').value;
            var i := ThirdFlight(c, ci, d.e, d.dk, m1, p.m2).value;
            var c3 := SealAuth(c, ci, p.prk, p.th3, ByInitiator);
            i.m3 == EncodeFinish(c3) && i.secrets == Secrets(p.prk, Chain(c, p.th3, c3))
  {
    ResponderDerives(c, ci, cr, d);
    CommutesAt(c.public, c.agree, d.e, d.e');
    var m1 := FirstFlight(c, ci, d.e, d.dk, d.random).value;
    var p := SecondFlight(c, cr, m1, d.e', d.kemRandom, d.random').value;
    var ct := c.encapsulate(c.kemKey(d.dk), d.kemRandom).value.1;
    hide FirstFlight, SecondFlight, Lawful, SealAuth, Prk, Th2, OpenAuth, Chain;
    var c2 := SealAuth(c, cr, p.prk, Th2(c, cr.binding, m1, ReplyHeader(p.version, c.public(d.e'), ct, d.random')),
        ByResponder);
    assert |p.m2| == |ReplyHeader(p.version, c.public(d.e'), ct, d.random')| + 4 + |c2|;
    ReplyWritten(Reply(p.version, c.public(d.e'), ct, d.random', c2));
    hide DecodeReply, EncodeReply, ReplyHeader;
  }

  /** The run is one the program makes as initiator, with the offers of `ci`. */
  ghost predicate RanAsInitiator(c: Crypto, ci: Config, run: SignedRun)
    requires run.AsInitiator?
  {
    exists e: Sk, dk: Sk, random: bytes ::
      && |random| == 32 && FirstFlight(c, ci.(binding := run.binding), e, dk, random) == Good(run.m1)
      && ThirdFlight(c, ci.(binding := run.binding), e, dk, run.m1, run.header + Lp(run.c2)).Good?
  }

  /** Two different last flights hash to one transcript. */
  predicate LastCollides(c: Crypto, th3: bytes, m3: bytes, m3': bytes) {
    DecodeFinish(m3).Some? && DecodeFinish(m3').Some? && m3 != m3' &&
    th3 + Lp(DecodeFinish(m3).value) != th3 + Lp(DecodeFinish(m3').value) &&
    Chain(c, th3, DecodeFinish(m3).value) == Chain(c, th3, DecodeFinish(m3').value)
  }

  /**
   * What an initiator and a responder hold: one handshake secret, and one transcript exactly when M3 came through as
   * sent.
   */
  ghost predicate SecretsMatch(c: Crypto, th3: bytes, i: Initiated, r: Responded, m3: bytes) {
    && i.secrets.prk == r.secrets.prk
    && (i.m3 == m3 ==> i.secrets == r.secrets)
    && (i.secrets == r.secrets ==> i.m3 == m3 || LastCollides(c, th3, i.m3, m3))
  }

  lemma LastFlightHolds(c: Crypto, cr: Config, p: Pending, m3: bytes)
    requires LastFlight(c, cr, p, m3).Good?
    ensures DecodeFinish(m3).Some? &&
            LastFlight(c, cr, p, m3).value.secrets == Secrets(p.prk, Chain(c, p.th3, DecodeFinish(m3).value))
  {
    hide DecodeFinish, OpenAuth, Chain;
  }

  lemma SecretsCompared(c: Crypto, ci: Config, cr: Config, d: Draws, m3: bytes)
    requires OneRun(c, ci, cr, d)
    requires var m1 := FirstFlight(c, ci, d.e, d.dk, d.random).value;
             var p := SecondFlight(c, cr, m1, d.e', d.kemRandom, d.random').value;
             ThirdFlight(c, ci, d.e, d.dk, m1, p.m2).Good? && LastFlight(c, cr, p, m3).Good?
    ensures var m1 := FirstFlight(c, ci, d.e, d.dk, d.random).value;
            var p := SecondFlight(c, cr, m1, d.e', d.kemRandom, d.random').value;
            SecretsMatch(c, p.th3, ThirdFlight(c, ci, d.e, d.dk, m1, p.m2).value, LastFlight(c, cr, p, m3).value, m3)
  {
    hide FirstFlight, SecondFlight, ThirdFlight, LastFlight, Lawful, SealAuth, SecretsMatch, DecodeFinish,
        EncodeFinish, Chain;
    SameKeys(c, ci, cr, d);
    var m1 := FirstFlight(c, ci, d.e, d.dk, d.random).value;
    var p := SecondFlight(c, cr, m1, d.e', d.kemRandom, d.random').value;
    LastFlightHolds(c, cr, p, m3);
    FinishedFits(c, ci, d.e, d.dk, m1, p.m2);
    Compare(c, p.th3, SealAuth(c, ci, p.prk, p.th3, ByInitiator), m3,
            ThirdFlight(c, ci, d.e, d.dk, m1, p.m2).value, LastFlight(c, cr, p, m3).value);
  }

  lemma Compare(c: Crypto, th3: bytes, c3: bytes, m3: bytes, i: Initiated, r: Responded)
    requires DecodeFinish(m3).Some? && i.m3 == EncodeFinish(c3) && |i.m3| <= MAX_FRAME_SIZE &&
             i.secrets.prk == r.secrets.prk
    requires i.secrets.th4 == Chain(c, th3, c3) && r.secrets.th4 == Chain(c, th3, DecodeFinish(m3).value)
    ensures SecretsMatch(c, th3, i, r, m3)
  {
    assert |c3| <= |i.m3|;
    FinishRoundTrip(c3, m3);
    if c3 != DecodeFinish(m3).value {
      StepsApart(th3, c3, DecodeFinish(m3).value);
    }
    hide DecodeFinish, EncodeFinish, Lp;
  }

  lemma StepsApart(th3: bytes, x: bytes, y: bytes)
    requires x != y
    ensures th3 + Lp(x) != th3 + Lp(y)
  {
    if th3 + Lp(x) == th3 + Lp(y) {
      StepBinds(th3, x, th3, y);
    }
  }

  lemma FinishedFits(c: Crypto, ci: Config, e: Sk, dk: Sk, m1: bytes, m2: bytes)
    requires ThirdFlight(c, ci, e, dk, m1, m2).Good?
    ensures |ThirdFlight(c, ci, e, dk, m1, m2).value.m3| <= MAX_FRAME_SIZE
  {
    hide DecodeReply, OpenAuth, SealAuth, Th2, Prk, EncodeFinish;
  }

  /**
   * Whatever happened on the wire: if the responder accepts, and the identity it accepted signs as initiator only
   * in runs with the offers of `ci`, then one of those runs is this one, and the two hold the same handshake
   * secret, and the same session secrets exactly when M3 came through as it was sent; or a collision is exhibited.
   */
  lemma BothHoldTheSecrets(
    c: Crypto, ci: Config, cr: Config, m1: bytes, e': Sk, kemRandom: nat, random': bytes, m3: bytes,
        log: seq<SignedRun>)
    returns (k: nat, e: Sk, dk: Sk)
    requires Lawful(c) && |ci.versions| <= 255 && |random'| == 32 &&
             SecondFlight(c, cr, m1, e', kemRandom, random').Good?
    requires LastFlight(c, cr, SecondFlight(c, cr, m1, e', kemRandom, random').value, m3).Good?
    requires var pub := LastFlight(c, cr, SecondFlight(c, cr, m1, e', kemRandom, random').value,
             m3).value.peer.identity;
             Unforged(c, pub, SignedString(c, ViewOf(c, cr, m1, e', kemRandom, random'), pub), log)
    requires forall i :: 0 <= i < |log| && log[i].AsInitiator? ==> RanAsInitiator(c, ci, log[i])
    ensures k < |log|
    ensures var p := SecondFlight(c, cr, m1, e', kemRandom, random').value;
            || Collide(c, ViewOf(c, cr, m1, e', kemRandom, random'), log[k])
            || (&& ThirdFlight(c, ci.(binding := cr.binding), e, dk, m1, p.m2).Good?
                && SecretsMatch(c, p.th3, ThirdFlight(c, ci.(binding := cr.binding), e, dk, m1, p.m2).value,
                   LastFlight(c, cr, p, m3).value, m3))
  {
    assert HashSize(c);
    hide Lawful, FirstFlight, ThirdFlight, SecondFlight, LastFlight, Unforged, SignedString, Collide, ViewOf,
        SecretsMatch, RanAsInitiator;
    e, dk := 0, 0;
    k := ResponderAgreesWithInitiator(c, cr, m1, e', kemRandom, random', m3, log);
    if log[k] == ViewOf(c, cr, m1, e', kemRandom, random') {
      e, dk := MatchedRun(c, ci, cr, m1, e', kemRandom, random', m3);
    }
  }

  lemma MatchedRun(
    c: Crypto, ci: Config, cr: Config, m1: bytes, e': Sk, kemRandom: nat, random': bytes, m3: bytes)
    returns (e: Sk, dk: Sk)
    requires Lawful(c) && |ci.versions| <= 255 && |random'| == 32 &&
             SecondFlight(c, cr, m1, e', kemRandom, random').Good?
    requires LastFlight(c, cr, SecondFlight(c, cr, m1, e', kemRandom, random').value, m3).Good?
    requires RanAsInitiator(c, ci, ViewOf(c, cr, m1, e', kemRandom, random'))
    ensures var p := SecondFlight(c, cr, m1, e', kemRandom, random').value;
            && ThirdFlight(c, ci.(binding := cr.binding), e, dk, m1, p.m2).Good?
            && SecretsMatch(c, p.th3, ThirdFlight(c, ci.(binding := cr.binding), e, dk, m1, p.m2).value,
               LastFlight(c, cr, p, m3).value, m3)
  {
    ViewIsSent(c, cr, m1, e', kemRandom, random');
    var run := ViewOf(c, cr, m1, e', kemRandom, random');
    assert run.binding == cr.binding && run.m1 == m1;
    hide Lawful, FirstFlight, ThirdFlight, SecondFlight, LastFlight, ViewOf, SecretsMatch, TranscriptOf;
    var e0: Sk, dk0: Sk, random: bytes :|
      && |random| == 32 && FirstFlight(c, ci.(binding := run.binding), e0, dk0, random) == Good(run.m1)
      && ThirdFlight(c, ci.(binding := run.binding), e0, dk0, run.m1, run.header + Lp(run.c2)).Good?;
    e, dk := e0, dk0;
    SecretsCompared(c, ci.(binding := cr.binding), cr, Draws(e, dk, random, e', kemRandom, random'), m3);
  }

  // ---------------------------------------------------------------------------
  // A V2 that is never reached.

  const PLAIN := Config(0, [], [1], SUPPORTED, None, (_, _) => true)
  const DRAWN := Draws(0, 0, Zeros(32), 1, 0, Zeros(32))

  lemma ToyIsWilling(vi: seq<u16>, vr: seq<u16>)
    requires vi != [] && vr != [] && |vi| <= 255
    ensures Willing(Toy(), PLAIN.(versions := vi), PLAIN.(versions := vr), DRAWN)
  {
    LawsConsistent();
    hide Lawful;
  }

  /** Both sides list V2, and the run fails: the responder prefers V1, which was offered and is not accepted. */
  lemma V2BehindV1Fails()
    ensures var ci, cr := PLAIN.(versions := [V2, V1]), PLAIN.(versions := [V1, V2]);
            Willing(Toy(), ci, cr, DRAWN) && !Completes(Toy(), ci, cr, DRAWN)
  {
    var ci, cr := PLAIN.(versions := [V2, V1]), PLAIN.(versions := [V1, V2]);
    ToyIsWilling([V2, V1], [V1, V2]);
    CompletesExactlyOnV2(Toy(), ci, cr, DRAWN);
    hide Completes, Willing;
    assert SelectVersion(cr.versions, ci.versions) == Some(V1);
  }

  /** With the versions the program ships, two willing sides always complete. */
  lemma ShippedVersionsComplete(c: Crypto, ci: Config, cr: Config, d: Draws)
    requires Willing(c, ci, cr, d) && ci.versions == cr.versions == SUPPORTED
    ensures Completes(c, ci, cr, d)
  {
    CompletesExactlyOnV2(c, ci, cr, d);
    hide Completes, Willing;
    assert SelectVersion(SUPPORTED, SUPPORTED) == Some(V2);
  }
}
