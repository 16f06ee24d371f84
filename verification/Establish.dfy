/**
 * The handshake hands over to the record layer: the sessions that come out of an honest
 * run, once the priming record has crossed, satisfy the agreement invariant.
 */
module Establish {
  import opened Common
  import opened Handshake
  import opened Ratchet
  import A = Agreement
  import H = HonestRuns
  import Tampering

  type Records = Suite<bytes, bytes, bytes>

  /** The record layer runs over the handshake's X25519. */
  ghost predicate SameGroup(c: Crypto, S: Records) {
    S.public == c.public && S.agree == c.agree
  }

  /** `newSession` on the initiator's side; none for a low-order peer key. */
  function InitiatorSession(
    c: Crypto, S: Records, secrets: Secrets, remote: bytes, name: nat): Option<Session<bytes, bytes>> {
    match Initiator(S, SessionRoot(c, secrets), remote, name)
    case None => None
    case Some(r) => Some(Open(r, SessionTag(c, secrets)))
  }

  /** `newSession` on the responder's side, which keeps its handshake ephemeral. */
  function ResponderSession(c: Crypto, secrets: Secrets, ephemeral: nat): Session<bytes, bytes> {
    Open(Responder(SessionRoot(c, secrets), ephemeral), SessionTag(c, secrets))
  }

  /** Sessions a and b, once the priming record has crossed from a to b: it decrypted to the
      empty plaintext, both can send, and together they satisfy the agreement invariant. */
  ghost predicate Primed(
    S: Records, a: Session<bytes, bytes>, b: Session<bytes, bytes>, name': nat, ep: seq<A.Epoch<bytes>>)
    requires WellFormed(b.ratchet)
  {
    match Encrypt(S, a, [])
    case Err(_) => false
    case Ok(sent) =>
      match Decrypt(S, b, sent.record, Some(name'))
      case Err(_) => false
      case Ok(got) =>
        && got.plaintext == []
        && sent.next.ratchet.sendChain.Some? && got.next.ratchet.sendChain.Some?
        && A.Inv(S, A.System(sent.next, got.next, [A.Posted(A.A, 1, sent.record, [])]), ep)
  }

  lemma PrimingAgrees(
    S: Records, root: bytes, tag: bytes, ephemeral: nat, name: nat, name': nat) returns (ep: seq<A.Epoch<bytes>>)
    requires A.Agrees(S) && A.Opens(S)
    requires S.public(ephemeral) != S.public(name) && S.public(ephemeral) != S.public(name') &&
             S.public(name) != S.public(name')
    ensures S.agree(name, S.public(ephemeral)).Some?
    ensures var sys0 := A.NewPair(S, root, tag, ephemeral, name);
            Primed(S, sys0.a, sys0.b, name', ep)
    ensures forall i :: 0 <= i < |ep| ==> ep[i].name in [ephemeral, name, name']
  {
    CommutesAt(S.public, S.agree, name, ephemeral);
    var sys0 := A.NewPair(S, root, tag, ephemeral, name);
    var ep0 := A.PairHolds(S, root, tag, ephemeral, name);
    var ep1 := A.PostKeeps(S, sys0, ep0, A.A, []);
    var sys1 := A.Apply(S, sys0, A.Post(A.A, []));
    var p := sys1.log[0];
    assert !A.Known(S, ep1, S.public(name')) by {
      assert ep1[0].name == ephemeral && ep1[1].name == name;
    }
    assert A.Reachable(S, ep1, sys1.Turn(A.B), sys1.b.ratchet, p);
    hide A.Inv, A.Reachable, Decrypt;
    ep := A.DeliverKeeps(S, sys1, ep1, A.B, p, name');
    var sys2 := A.Apply(S, sys1, A.Deliver(A.B, p.record, Some(name')));
    InvCanSend(S, sys2, ep);
  }

  lemma InvCanSend(S: Records, sys: A.System<bytes, bytes, bytes>, ep: seq<A.Epoch<bytes>>)
    requires A.Inv(S, sys, ep)
    ensures sys.a.ratchet.sendChain.Some?
    ensures sys.Turn(A.B) > 0 ==> sys.b.ratchet.sendChain.Some?
  {
  }

  /** Two finished sides with the same secrets. */
  lemma FinishedSidesAgree(
    c: Crypto, S: Records, i: Initiated, r: Responded, e': nat, name: nat, name': nat) returns (ep: seq<A.Epoch<bytes>>)
    requires SameGroup(c, S) && A.Agrees(S) && A.Opens(S) && i.secrets == r.secrets && i.remote == c.public(e')
    requires S.public(e') != S.public(name) && S.public(e') != S.public(name') && S.public(name) != S.public(name')
    ensures InitiatorSession(c, S, i.secrets, i.remote, name).Some?
    ensures Primed(S, InitiatorSession(c, S, i.secrets, i.remote, name).value, ResponderSession(c, r.secrets, e'),
            name', ep)
    ensures forall j :: 0 <= j < |ep| ==> ep[j].name in [e', name, name']
  {
    hide Primed;
    ep := PrimingAgrees(S, SessionRoot(c, i.secrets), SessionTag(c, i.secrets), e', name, name');
  }

  /** An honest handshake followed by the priming record leaves two sessions with one root
      key, one tag and one version; both can send, and together they satisfy the invariant
      on which agreement rests. */
  lemma HandshakeEstablishesAgreement(
    c: Crypto, S: Records, ci: Config, cr: Config, d: Draws, name: nat, name': nat) returns (ep: seq<A.Epoch<bytes>>)
    requires HonestPair(c, ci, cr, d) && SameGroup(c, S) && A.Opens(S)
    requires S.public(d.e') != S.public(name) && S.public(d.e') != S.public(name') && S.public(name) != S.public(name')
    ensures var m1 := FirstFlight(c, ci, d.e, d.dk, d.random);
            && m1.Good?
            && var p := SecondFlight(c, cr, m1.value, d.e', d.kemRandom, d.random');
            && p.Good?
            && var i := ThirdFlight(c, ci, d.e, d.dk, m1.value, p.value.m2);
            && i.Good?
            && var r := LastFlight(c, cr, p.value, i.value.m3);
            && r.Good?
            && i.value.secrets == r.value.secrets
            && i.value.peer == InfoOf(c, cr, Handshake.V2) && r.value.peer == InfoOf(c, ci, Handshake.V2)
            && InitiatorSession(c, S, i.value.secrets, i.value.remote, name).Some?
            && Primed(S, InitiatorSession(c, S, i.value.secrets, i.value.remote, name).value,
               ResponderSession(c, r.value.secrets, d.e'), name', ep)
    ensures forall j :: 0 <= j < |ep| ==> ep[j].name in [d.e', name, name']
  {
    HonestRunCompletes(c, ci, cr, d);
    assert A.Agrees(S);
    hide FirstFlight, SecondFlight, ThirdFlight, LastFlight, HonestPair, Primed, InitiatorSession, ResponderSession;
    var m1 := FirstFlight(c, ci, d.e, d.dk, d.random).value;
    var p := SecondFlight(c, cr, m1, d.e', d.kemRandom, d.random').value;
    var i := ThirdFlight(c, ci, d.e, d.dk, m1, p.m2).value;
    ep := FinishedSidesAgree(c, S, i, LastFlight(c, cr, p, i.m3).value, d.e', name, name');
  }

  /** The pair once the priming record has crossed, with the key pairs drawn by then. */
  function PrimedWorld(
    S: Records, a: Session<bytes, bytes>, b: Session<bytes, bytes>, ephemeral: nat, name: nat, name': nat):
    (w: H.World<bytes, bytes, bytes>)
    requires WellFormed(b.ratchet) && Encrypt(S, a, []).Ok?
    requires Decrypt(S, b, Encrypt(S, a, []).value.record, Some(name')).Ok?
  {
    var sent := Encrypt(S, a, []).value;
    var got := Decrypt(S, b, sent.record, Some(name')).value;
    H.World(A.System(sent.next, got.next, [A.Posted(A.A, 1, sent.record, [])]), [ephemeral, name, name'])
  }

  /**
   * From the handshake to the last record, over byte strings: after an honest handshake and its priming record, in
   * every run of sends and of deliveries within reach, each record taken opens to the plaintext it was made from.
   */
  lemma SessionsDeliver(
    c: Crypto, S: Records, i: Initiated, r: Responded, e': nat, name: nat, name': nat, moves: seq<H.Move>)
    requires SameGroup(c, S) && A.Agrees(S) && A.Opens(S) && i.secrets == r.secrets && i.remote == c.public(e')
    requires S.public(e') != S.public(name) && S.public(e') != S.public(name') && S.public(name) != S.public(name')
    ensures InitiatorSession(c, S, i.secrets, i.remote, name).Some?
    ensures var a, b := InitiatorSession(c, S, i.secrets, i.remote, name).value, ResponderSession(c, r.secrets, e');
            && Encrypt(S, a, []).Ok? && Decrypt(S, b, Encrypt(S, a, []).value.record, Some(name')).Ok?
            && var w := PrimedWorld(S, a, b, e', name, name');
            A.Ready(w.sys) && (H.HonestRun(S, w, moves) ==> H.AllDelivered(S, w, moves))
  {
    var ep := FinishedSidesAgree(c, S, i, r, e', name, name');
    var a, b := InitiatorSession(c, S, i.secrets, i.remote, name).value, ResponderSession(c, r.secrets, e');
    hide InitiatorSession, ResponderSession, A.Agrees, A.Opens, A.Inv, SameGroup;
    var w := PrimedWorld(S, a, b, e', name, name');
    A.InvIsReady(S, w.sys, ep);
    assert H.Good(S, w, ep);
    hide Primed, PrimedWorld, H.Good;
    if H.HonestRun(S, w, moves) {
      H.RunDelivers(S, w, ep, moves);
    }
  }

  /** A record layer over the toy primitives: enough to show that the hypotheses above can be met together. */
  function ToyRecords(): Records {
    Suite(Toy().public, Toy().agree, (_, _) => Zeros(32), (_, _) => Zeros(32), _ => Zeros(32), _ => Zeros(32),
          (_, _, _, m) => m, (_, _, _, box) => Some(box))
  }

  lemma HypothesesMet()
    ensures var c, S, d := Toy(), ToyRecords(), Tampering.DRAWN;
            && HonestPair(c, Tampering.PLAIN, Tampering.PLAIN, d) && SameGroup(c, S) && A.Opens(S)
            && S.public(d.e') != S.public(2) && S.public(d.e') != S.public(3) && S.public(2) != S.public(3)
  {
    Tampering.ToyIsWilling(SUPPORTED, SUPPORTED);
    hide Willing;
    assert SelectVersion(SUPPORTED, SUPPORTED) == Some(Handshake.V2);
    var S := ToyRecords();
    assert S.public(1)[0] == 1 && S.public(2)[0] == 2 && S.public(3)[0] == 3;
  }
}
