/**
 * Runs of an honest pair over any suite whose key agreement commutes and whose boxes open, byte strings included:
 * whatever is sent, and in whatever order records within reach are delivered, each decrypts to its own plaintext.
 */
module HonestRuns {
  import opened Common
  import opened Ratchet
  import opened Agreement

  /** The pair with the names of the key pairs drawn so far. */
  datatype World<!K, !P, !C> = World(sys: System<K, P, C>, names: seq<nat>)

  datatype Move = Says(x: Side, plaintext: bytes) | Takes(x: Side, i: nat, name: nat)

  function ToEvent<K, P, C>(w: World<K, P, C>, m: Move): Event<P, C>
    requires m.Takes? ==> m.i < |w.sys.log|
  {
    match m
    case Says(x, plaintext) => Post(x, plaintext)
    case Takes(x, i, name) => Deliver(x, w.sys.log[i].record, Some(name))
  }

  function Do<K, P(==), C>(S: Suite<K, P, C>, w: World<K, P, C>, m: Move): (w': World<K, P, C>)
    requires Ready(w.sys) && (m.Takes? ==> m.i < |w.sys.log|)
    ensures Ready(w'.sys)
  {
    World(Apply(S, w.sys, ToEvent(w, m)), if m.Takes? then w.names + [m.name] else w.names)
  }

  /** No key pair drawn so far has this public key. */
  predicate Unused<K, P(==), C>(S: Suite<K, P, C>, names: seq<nat>, name: nat) {
    forall j :: 0 <= j < |names| ==> S.public(names[j]) != S.public(name)
  }

  /** A delivery is of a record the peer sent, within reach of an open session, with a new key pair at hand. */
  predicate Honest<K, P(==), C>(S: Suite<K, P, C>, w: World<K, P, C>, m: Move) {
    m.Takes? ==>
      && m.i < |w.sys.log| && w.sys.log[m.i].sender == Peer(m.x) && !w.sys.Get(m.x).closed
      && WithinReach(S, w.sys, m.x, w.sys.log[m.i].record.header) && Unused(S, w.names, m.name)
  }

  predicate HonestRun<K, P(==), C>(S: Suite<K, P, C>, w: World<K, P, C>, moves: seq<Move>)
    requires Ready(w.sys)
    decreases |moves|
  {
    moves == [] || (Honest(S, w, moves[0]) && HonestRun(S, Do(S, w, moves[0]), moves[1..]))
  }

  /** The record opens, to the plaintext it was made from. */
  predicate Delivered<K, P(==), C>(S: Suite<K, P, C>, w: World<K, P, C>, m: Move)
    requires Ready(w.sys) && (m.Takes? ==> m.i < |w.sys.log|)
  {
    m.Takes? ==>
      var res := Decrypt(S, w.sys.Get(m.x), w.sys.log[m.i].record, Some(m.name));
      res.Ok? && res.value.plaintext == w.sys.log[m.i].plaintext
  }

  predicate AllDelivered<K, P(==), C>(S: Suite<K, P, C>, w: World<K, P, C>, moves: seq<Move>)
    requires Ready(w.sys) && HonestRun(S, w, moves)
    decreases |moves|
  {
    moves == [] || (Delivered(S, w, moves[0]) && AllDelivered(S, Do(S, w, moves[0]), moves[1..]))
  }

  predicate Good<K(==), P(==), C(==)>(S: Suite<K, P, C>, w: World<K, P, C>, ep: seq<Epoch<K>>) {
    Inv(S, w.sys, ep) && forall e :: 0 <= e < |ep| ==> ep[e].name in w.names
  }

  lemma NewIsUnknown<K, P, C>(S: Suite<K, P, C>, w: World<K, P, C>, ep: seq<Epoch<K>>, name: nat)
    requires Good(S, w, ep) && Unused(S, w.names, name)
    ensures !Known(S, ep, S.public(name))
  {
    hide Inv;
    forall e | 0 <= e < |ep|
      ensures S.public(ep[e].name) != S.public(name)
    {
      assert ep[e].name in w.names;
    }
  }

  lemma MoveKeeps<K(!new), P(!new), C(!new)>(S: Suite<K, P, C>, w: World<K, P, C>, ep: seq<Epoch<K>>, m: Move)
    returns (ep': seq<Epoch<K>>)
    requires Agrees(S) && Opens(S) && Ready(w.sys) && Good(S, w, ep) && Honest(S, w, m)
    ensures Good(S, Do(S, w, m), ep') && Delivered(S, w, m)
  {
    hide Inv, Apply, Decrypt, Reachable, WithinReach, Agrees, Opens, Unused;
    match m {
      case Says(x, plaintext) =>
        ep' := PostKeeps(S, w.sys, ep, x, plaintext);
        SameNames(ep, ep');
      case Takes(x, i, name) =>
        var p := w.sys.log[i];
        NewIsUnknown(S, w, ep, name);
        ReachAgrees(S, ep, w.sys, x, p);
        ep' := DeliverKeeps(S, w.sys, ep, x, p, name);
        SameNames(ep, ep');
    }
  }

  lemma SameNames<K>(ep: seq<Epoch<K>>, ep': seq<Epoch<K>>)
    requires Continues(ep, ep')
    ensures forall e :: 0 <= e < |ep| ==> e < |ep'| && ep'[e].name == ep[e].name
  {
  }

  /** Over every honest run, every record taken opens to its own plaintext, and the invariant goes on. */
  lemma {:induction false} RunDelivers<K(!new), P(!new), C(!new)>(
    S: Suite<K, P, C>, w: World<K, P, C>, ep: seq<Epoch<K>>, moves: seq<Move>)
    requires Agrees(S) && Opens(S) && Ready(w.sys) && Good(S, w, ep) && HonestRun(S, w, moves)
    ensures AllDelivered(S, w, moves)
    decreases |moves|
  {
    hide Agrees, Opens, Good, Do, Delivered;
    if moves != [] {
      var ep' := MoveKeeps(S, w, ep, moves[0]);
      RunDelivers(S, Do(S, w, moves[0]), ep', moves[1..]);
    }
  }
}
