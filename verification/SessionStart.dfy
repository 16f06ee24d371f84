/** `newSession` (internal/e2ee/session.go): from the handshake's secrets to a session object. */
module SessionStart {
  import opened Common
  import opened Handshake
  import opened Labels
  import opened RatchetHeap
  import opened SessionHeap
  import E = Establish
  import R = Ratchet

  /** Root key and tag are derived under their own labels, and the handshake secret they came from is wiped. */
  method DeriveSession(c: Crypto, prk: array<byte>, th4: bytes) returns (root: array<byte>, tag: bytes)
    modifies prk
    ensures fresh(root) && Zeroed(prk)
    ensures Bytes(root) == SessionRoot(c, Secrets(old(Bytes(prk)), th4)) &&
            tag == SessionTag(c, Secrets(old(Bytes(prk)), th4))
  {
    hide Label;
    root := NewBuffer(c.expand(prk[..], Label(RootKey) + th4));
    tag := c.expand(prk[..], Label(AssociatedData) + th4);
    Wipe(prk);
  }

  /** The dialling side: a ratchet stepped against the peer's ephemeral, or no session for a low-order key. */
  method NewInitiatorSession(
    c: Crypto, S: Suite, prk: array<byte>, th4: bytes, peer: bytes, name: nat) returns (s: Session?)
    modifies prk
    ensures Zeroed(prk)
    ensures match E.InitiatorSession(c, S, Secrets(old(Bytes(prk)), th4), peer, name)
            case None => s == null
            case Some(abs) => s != null && fresh(s) && s.S == S && s.Valid() && !s.closed && s.Abs() == abs
  {
    hide Ratchet.Valid, Ratchet.Abs, Label, Bytes, Zeroed, SessionRoot, SessionTag, R.Initiator;
    var root, tag := DeriveSession(c, prk, th4);
    var r := Ratchet.NewInitiator(S, root, peer, name);
    s := null;
    if r != null {
      s := new Session(S, r, tag);
    }
  }

  /** The accepting side, which keeps its handshake ephemeral and has no chain yet. */
  method NewResponderSession(c: Crypto, S: Suite, prk: array<byte>, th4: bytes, ephemeral: nat) returns (s: Session)
    modifies prk
    ensures Zeroed(prk)
    ensures fresh(s) && s.S == S && s.Valid() && !s.closed &&
            s.Abs() == E.ResponderSession(c, Secrets(old(Bytes(prk)), th4), ephemeral)
  {
    hide Ratchet.Valid, Ratchet.Abs, Label, Zeroed, SessionRoot, SessionTag;
    var root, tag := DeriveSession(c, prk, th4);
    var r := new Ratchet.Responder(S, root[..], ephemeral);
    s := new Session(S, r, tag);
  }
}
