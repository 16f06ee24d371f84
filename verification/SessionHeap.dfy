/**
 * A session as the program holds it (internal/e2ee/session.go): one ratchet object, the
 * associated-data tag, and a trial decryption that runs on a clone.
 */
module SessionHeap {
  import opened Common
  import opened RatchetHeap
  import R = Ratchet
  import Padding
  import Wire

  /** Header and sealed padded plaintext; the message key does not outlive the record. */
  method SealRecord(
    S: Suite, messageKey: array<byte>, tag: array<byte>, h: R.Header<bytes>, plaintext: bytes) returns (record: bytes)
    requires messageKey != tag
    modifies messageKey
    ensures record == Wire.EncodeHeader(h) + S.seal(old(Bytes(messageKey)), Bytes(tag), h, Padding.Pad(plaintext))
    ensures Zeroed(messageKey)
  {
    var padded := Padding.PadMessage(plaintext);
    record := Wire.EncodeHeader(h) + S.seal(messageKey[..], tag[..], h, padded[..]);
    Wipe(padded);
    Wipe(messageKey);
  }

  /** What a message key makes of a ciphertext: the unpadded plaintext, or nothing. */
  function OpenWith(S: Suite, key: bytes, tag: bytes, h: R.Header<bytes>, box: bytes): Option<bytes> {
    match S.open(key, tag, h, box)
    case None => None
    case Some(padded) => Padding.Unpad(padded)
  }

  method OpenRecord(
    S: Suite, messageKey: array<byte>, tag: array<byte>, h: R.Header<bytes>, box: bytes)
    returns (plaintext: Option<bytes>)
    ensures plaintext == OpenWith(S, Bytes(messageKey), Bytes(tag), h, box)
  {
    var padded := S.open(messageKey[..], tag[..], h, box);
    plaintext := None;
    if padded.Some? {
      plaintext := Padding.UnpadMessage(padded.value);
    }
  }

  class Session {
    const S: Suite
    var ratchet: Ratchet
    var associated: array?<byte>
    var closed: bool
    var sentSinceStep: nat
    var steps: nat

    ghost predicate Valid()
      reads this, ratchet, ratchet.Repr, if associated == null then {} else {associated}
    {
      !closed ==> ratchet.Valid() && ratchet.S == S && associated != null && associated !in ratchet.Repr
    }

    ghost function Abs(): (s: R.Session<bytes, bytes>)
      requires Valid() && !closed
      reads this, ratchet, ratchet.Repr, if associated == null then {} else {associated}
      ensures R.WellFormed(s.ratchet)
    {
      R.Session(ratchet.Abs(), Bytes(associated), false, sentSinceStep, steps)
    }

    constructor (S: Suite, ratchet: Ratchet, tag: bytes)
      requires ratchet.Valid() && ratchet.S == S
      ensures Valid() && !closed && this.ratchet == ratchet && Abs() == R.Open(ratchet.Abs(), tag)
    {
      var buffer := NewBuffer(tag);
      this.S, this.ratchet, this.associated, this.closed := S, ratchet, buffer, false;
      sentSinceStep, steps := 0, 0;
    }

    /** One plaintext into one record. */
    method Encrypt(plaintext: bytes) returns (err: Option<R.Error>, record: bytes)
      requires Valid()
      modifies this`sentSinceStep, ratchet, ratchet.Repr
      ensures Valid() && closed == old(closed)
      ensures closed ==> err == Some(R.SessionClosed)
      ensures !closed ==>
                match R.Encrypt(S, old(Abs()), plaintext)
                case Err(e) => err == Some(e) && Abs() == old(Abs())
                case Ok(sent) =>
                  && err.None? && Abs() == sent.next
                  && record == Wire.EncodeHeader(sent.record.header) + sent.record.box
    {
      hide Ratchet.Valid, Ratchet.Abs, R.Next;
      record := [];
      if closed {
        return Some(R.SessionClosed), [];
      }
      var h, messageKey;
      err, h, messageKey := ratchet.Next();
      if err.None? {
        record := SealRecord(S, messageKey, associated, h, plaintext);
        sentSinceStep := sentSinceStep + 1;
      }
    }

    /** Destroys the current ratchet and puts another in its place. */
    method Replace(other: Ratchet)
      requires Valid() && !closed
      requires other != ratchet && other.Valid() && other.S == S
      requires other.Repr !! ratchet.Repr && associated !in other.Repr
      modifies this, ratchet, ratchet.Repr
      ensures Valid() && !closed && ratchet == other && associated == old(associated)
      ensures Abs() == R.Install(old(Abs()), old(other.Abs()))
      ensures AllZeroed(old(ratchet.Held()))
    {
      hide Ratchet.Valid, Ratchet.Abs, Ratchet.Held, AllZeroed, Bytes;
      ratchet.Fields();
      other.Fields();
      var stepped := other.steps != ratchet.steps;
      ratchet.Destroy();
      ratchet := other;
      if stepped {
        steps := other.steps;
        sentSinceStep := 0;
      }
    }

    /** Adopts the speculative ratchet: the used key and the old state are destroyed, and
        nothing behind the new state is touched. */
    method Adopt(speculative: Ratchet, messageKey: array<byte>, from: Option<Id>)
      requires Valid() && !closed
      requires speculative != ratchet && Ready(speculative, messageKey, from)
      requires speculative.Repr !! ratchet.Repr && associated !in speculative.Repr && messageKey != associated
      modifies this, ratchet, ratchet.Repr, speculative, speculative.Repr, messageKey
      ensures Valid() && !closed && ratchet == speculative && associated == old(associated)
      ensures Abs() == R.Commit(old(Abs()), R.Incoming(old(Bytes(messageKey)), from, old(speculative.Abs())))
      ensures AllZeroed(old(ratchet.Held())) && Zeroed(messageKey) && ratchet.work == old(speculative.work)
    {
      hide Ratchet.Valid, Ratchet.Abs, Ratchet.Detached, Ratchet.Held, R.Settle, R.Install, AllZeroed, Zeroed, Bytes;
      ghost var gone := ratchet.Held();
      speculative.Settle(messageKey, from);
      Replace(speculative);
      ratchet.WipeDetached(messageKey, gone);
    }

    /** Trial decryption on a clone, destroyed unless the record opens. It changes nothing the session holds. */
    method Try(h: R.Header<bytes>, box: bytes, newKey: Option<nat>)
      returns (err: Option<R.Error>, speculative: Ratchet?, messageKey: array?<byte>, from: Option<Id>,
          plaintext: bytes,
               ghost derived: nat)
      requires Valid() && !closed
      ensures derived <= 2 * R.MAX_SKIP + 1 &&
              (err.None? ==> speculative != null && speculative.work == ratchet.work + derived)
      ensures match R.Receive(S, ratchet.Abs(), h, newKey)
              case Err(e) => err == Some(e)
              case Ok(m) =>
                match OpenWith(S, m.key, Bytes(associated), h, box)
                case None => err == Some(R.DecryptFailed)
                case Some(p) => err.None? && plaintext == p && speculative != null && messageKey != null &&
                                Ready(speculative, messageKey, from) &&
                                    R.Incoming(Bytes(messageKey), from, speculative.Abs()) == m
      ensures err.None? ==> speculative != null && fresh(speculative) && fresh(speculative.Repr)
      ensures err.None? ==> messageKey != null && fresh(messageKey)
    {
      hide Ratchet.Valid, Ratchet.Abs, Zeroed, AllZeroed, Ratchet.Held, Bytes, R.Receive;
      plaintext := [];
      speculative := ratchet.Clone();
      err, messageKey, from := speculative.Receive(h, newKey);
      derived := speculative.work - ratchet.work;
      if err.Some? {
        speculative.Destroy();
        return;
      }
      var got := OpenRecord(S, messageKey, associated, h, box);
      if got.None? {
        speculative.Destroy();
        Wipe(messageKey);
        err := Some(R.DecryptFailed);
        return;
      }
      plaintext := got.value;
    }

    /** A speculative ratchet with the key it yielded, as `Receive` leaves them. */
    ghost predicate Ready(speculative: Ratchet, messageKey: array<byte>, from: Option<Id>)
      reads speculative, speculative.Repr
    {
      && speculative.Valid() && speculative.S == S
      && (from.None? ==> messageKey !in speculative.Repr)
      && (from.Some? ==> from.value in speculative.skipped && messageKey == speculative.skipped[from.value])
    }

    /**
     * One record back into one plaintext. A rejected record changes no field and no byte
     * of any buffer the session holds; an accepted one is exactly one abstract step, and
     * leaves no secret of the state before it behind. Either way it takes `derived` chain derivations.
     */
    method Decrypt(
      record: bytes, newKey: Option<nat>) returns (err: Option<R.Error>, plaintext: bytes, ghost derived: nat)
      requires Valid()
      modifies this, ratchet, ratchet.Repr
      ensures Valid() && closed == old(closed)
      ensures err.Some? ==> unchanged(this) && unchanged(ratchet) && forall b :: b in old(ratchet.Repr) ==> unchanged(b)
      ensures closed ==> err == Some(R.SessionClosed)
      ensures derived <= 2 * R.MAX_SKIP + 1 && (err.None? ==> ratchet.work == old(ratchet.work) + derived)
      ensures err.None? ==> AllZeroed(old(ratchet.Held()))
      ensures !closed ==>
                match Wire.DecryptBytes(S, old(Abs()), record, newKey)
                case Err(e) => err == Some(e)
                case Ok(got) => err.None? && plaintext == got.plaintext && Abs() == got.next
    {
      hide Ratchet.Valid, Ratchet.Abs, Ratchet.Held, R.Receive, R.Commit, AllZeroed, Zeroed, Bytes;
      plaintext, derived := [], 0;
      if closed {
        return Some(R.SessionClosed), [], 0;
      }
      if |record| < Wire.HEADER_SIZE + Wire.TAG_SIZE {
        return Some(R.Malformed), [], 0;
      }
      var h := Wire.DecodeHeader(record[..Wire.HEADER_SIZE]).value;
      if h.version != R.V2 {
        return Some(R.Malformed), [], 0;
      }
      var speculative, messageKey, from, got;
      err, speculative, messageKey, from, got, derived := Try(h, record[Wire.HEADER_SIZE..], newKey);
      if err.None? {
        Adopt(speculative, messageKey, from);
        plaintext := got;
      }
    }

    method Close()
      requires Valid()
      modifies this, ratchet, ratchet.Repr, if associated == null then {} else {associated}
      ensures Valid() && closed
      ensures !old(closed) ==> ratchet.rootKey == null && ratchet.sendChain == null && ratchet.receiveChain == null
      ensures !old(closed) ==> ratchet.skipped == map[] && associated == null
      ensures !old(closed) ==> AllZeroed(old(ratchet.Held())) && Zeroed(old(associated))
    {
      hide Ratchet.Valid, Ratchet.Held, AllZeroed, Zeroed;
      if closed {
        return;
      }
      ghost var gone := ratchet.Held();
      closed := true;
      ratchet.Destroy();
      WipeToo(associated, gone);
      associated := null;
    }
  }
}
