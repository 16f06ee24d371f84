/**
 * The CMDC2 record layer: the Double Ratchet of internal/e2ee/ratchet.go and the
 * commit rule of internal/e2ee/session.go, as total functions on values.
 *
 * The functions are generic in the key type K, the public-key type P and the
 * ciphertext type C, and take the primitives as a `Suite`. The heap-level class
 * instantiates them with byte strings and the protocol proofs instantiate them with
 * free terms, so both speak about one definition.
 */
module Ratchet {
  import opened Common
  import Padding

  const MAX_SKIP := 1000
  const MAX_SKIP_STORE := 2000
  const V2: byte := 2

  datatype Error =
    | SkipTooLarge | Stale | DecryptFailed | Malformed
    | CannotSend | ChainExhausted | NoRandomness | SessionClosed

  datatype Result<+T> = Ok(value: T) | Err(error: Error)

  datatype Header<P> = Header(version: byte, pub: P, pn: u32, n: u32)

  /**
   * The primitives. Private keys are names; `agree` is X25519 and yields nothing for a
   * low-order point; a chain argument of `None` is HMAC under the nil slice; `seal` and
   * `open` include the expansion of a message key into AEAD key and nonce, and take the
   * session tag and the header as associated data.
   */
  datatype Suite<!K, !P, !C> = Suite(
    public: nat -> P,
    agree: (nat, P) -> Option<K>,
    rootKey: (K, K) -> K,
    rootChain: (K, K) -> K,
    chainNext: Option<K> -> K,
    chainMsg: Option<K> -> K,
    seal: (K, K, Header<P>, bytes) -> C,
    open: (K, K, Header<P>, C) -> Option<bytes>)

  datatype SkippedKey<P> = SkippedKey(pub: P, n: u32)

  datatype Entry<K, P> = Entry(id: SkippedKey<P>, key: K)

  datatype State<K, P> = State(
    rootKey: K,
    sendKey: nat,
    receiveKey: Option<P>,
    sendChain: Option<K>,
    receiveChain: Option<K>,
    sendCount: u32,
    receiveCount: u32,
    previousSent: u32,
    store: seq<Entry<K, P>>,
    steps: nat)

  /** A receiving chain never exists without the key it was derived against. */
  predicate WellFormed<K, P>(r: State<K, P>) {
    r.receiveChain.Some? ==> r.receiveKey.Some?
  }

  // ---------------------------------------------------------------------------
  // The skipped-key store: one bounded queue in insertion order.

  function IndexOf<K, P(==)>(store: seq<Entry<K, P>>, id: SkippedKey<P>): (i: nat)
    ensures i <= |store|
    ensures i < |store| ==> store[i].id == id
    ensures forall j :: 0 <= j < i ==> store[j].id != id
  {
    if store == [] then 0
    else if store[0].id == id then 0
    else 1 + IndexOf(store[1..], id)
  }

  predicate Stored<K, P(==)>(store: seq<Entry<K, P>>, id: SkippedKey<P>) {
    IndexOf(store, id) < |store|
  }

  function Insert<K, P(==)>(store: seq<Entry<K, P>>, id: SkippedKey<P>, key: K): seq<Entry<K, P>> {
    var i := IndexOf(store, id);
    if i < |store| then store[i := Entry(id, key)] else store + [Entry(id, key)]
  }

  /** Drops the oldest entries until the bound holds. */
  function Trim<K, P>(store: seq<Entry<K, P>>): seq<Entry<K, P>> {
    if |store| > MAX_SKIP_STORE then store[|store| - MAX_SKIP_STORE..] else store
  }

  function Remember<K, P(==)>(store: seq<Entry<K, P>>, id: SkippedKey<P>, key: K): seq<Entry<K, P>> {
    Trim(Insert(store, id, key))
  }

  function Forget<K, P(==)>(store: seq<Entry<K, P>>, id: SkippedKey<P>): seq<Entry<K, P>> {
    var i := IndexOf(store, id);
    if i < |store| then store[..i] + store[i + 1..] else store
  }

  // ---------------------------------------------------------------------------
  // Ratchet steps.

  function Initiator<K, P, C>(S: Suite<K, P, C>, root: K, peer: P, newKey: nat): Option<State<K, P>> {
    match S.agree(newKey, peer)
    case None => None
    case Some(shared) =>
      Some(State(S.rootKey(root, shared), newKey, Some(peer), Some(S.rootChain(root, shared)), None, 0, 0, 0, [], 0))
  }

  function Responder<K, P>(root: K, ephemeral: nat): State<K, P> {
    State(root, ephemeral, None, None, None, 0, 0, 0, [], 0)
  }

  datatype Outgoing<K, P> = Outgoing(header: Header<P>, key: K, next: State<K, P>)

  function Next<K, P, C>(S: Suite<K, P, C>, r: State<K, P>): Result<Outgoing<K, P>> {
    if r.sendChain.None? then Err(CannotSend)
    else if r.sendCount == U32_MAX then Err(ChainExhausted)
    else
      Ok(Outgoing(
           Header(V2, S.public(r.sendKey), r.previousSent, r.sendCount),
           S.chainMsg(r.sendChain),
           r.(sendChain := Some(S.chainNext(r.sendChain)), sendCount := r.sendCount + 1)))
  }

  /** The DH ratchet step. `newKey` is the newly generated key pair, or nothing when the
      random source fails. */
  function Step<K, P, C>(S: Suite<K, P, C>, r: State<K, P>, peer: P, newKey: Option<nat>): Result<State<K, P>> {
    match S.agree(r.sendKey, peer)
    case None => Err(Malformed)
    case Some(shared) =>
      var root := S.rootKey(r.rootKey, shared);
      if newKey.None? then Err(NoRandomness)
      else
        match S.agree(newKey.value, peer)
        case None => Err(Malformed)
        case Some(shared') =>
          Ok(State(
               S.rootKey(root, shared'), newKey.value, Some(peer),
               Some(S.rootChain(root, shared')), Some(S.rootChain(r.rootKey, shared)),
               0, 0, r.sendCount, r.store, r.steps + 1))
  }

  /** One iteration of the `skipTo` loop. */
  function SkipOne<K, P(==), C>(S: Suite<K, P, C>, r: State<K, P>): State<K, P>
    requires WellFormed(r) && r.receiveChain.Some?
  {
    r.(receiveChain := Some(S.chainNext(r.receiveChain)),
       receiveCount := Inc32(r.receiveCount),
       store := Remember(r.store, SkippedKey(r.receiveKey.value, r.receiveCount), S.chainMsg(r.receiveChain)))
  }

  function SkipLoop<K, P(==), C>(S: Suite<K, P, C>, r: State<K, P>, target: u32): (r': State<K, P>)
    requires WellFormed(r) && r.receiveChain.Some?
    ensures WellFormed(r') && r'.receiveChain.Some? && r'.receiveKey == r.receiveKey
    decreases target - r.receiveCount
  {
    if r.receiveCount >= target then r else SkipLoop(S, SkipOne(S, r), target)
  }

  function SkipTo<K, P(==), C>(S: Suite<K, P, C>, r: State<K, P>, target: u32): (res: Result<State<K, P>>)
    requires WellFormed(r)
    ensures res.Ok? ==> WellFormed(res.value)
  {
    if r.receiveChain.None? then Ok(r)
    else if target < r.receiveCount then Ok(r)
    else if target - r.receiveCount > MAX_SKIP then Err(SkipTooLarge)
    else Ok(SkipLoop(S, r, target))
  }

  datatype Incoming<K, P> = Incoming(key: K, from: Option<SkippedKey<P>>, next: State<K, P>)

  /** The chain the header belongs to: the current one, or a trial step into a new one. */
  function TurnTo<K, P(==), C>(
    S: Suite<K, P, C>, r: State<K, P>, h: Header<P>, newKey: Option<nat>): (res: Result<State<K, P>>)
    requires WellFormed(r)
    ensures res.Ok? ==> WellFormed(res.value)
  {
    if r.receiveKey == Some(h.pub) then Ok(r)
    else
      match SkipTo(S, r, h.pn)
      case Err(e) => Err(e)
      case Ok(r1) => Step(S, r1, h.pub, newKey)
  }

  /** The key at index n of the current receiving chain, storing those it passes. */
  function Advance<K, P(==), C>(S: Suite<K, P, C>, r: State<K, P>, n: u32): (res: Result<Incoming<K, P>>)
    requires WellFormed(r) && r.receiveKey.Some?
    ensures res.Ok? ==> WellFormed(res.value.next)
  {
    if n < r.receiveCount then Err(Stale)
    else
      match SkipTo(S, r, n)
      case Err(e) => Err(e)
      case Ok(r1) =>
        Ok(Incoming(
             S.chainMsg(r1.receiveChain), None,
             r1.(receiveChain := Some(S.chainNext(r1.receiveChain)), receiveCount := Inc32(r1.receiveCount))))
  }

  function Receive<K, P(==), C>(
    S: Suite<K, P, C>, r: State<K, P>, h: Header<P>, newKey: Option<nat>): (res: Result<Incoming<K, P>>)
    requires WellFormed(r)
    ensures res.Ok? ==> WellFormed(res.value.next)
  {
    var id := SkippedKey(h.pub, h.n);
    var i := IndexOf(r.store, id);
    if i < |r.store| then Ok(Incoming(r.store[i].key, Some(id), r))
    else
      match TurnTo(S, r, h, newKey)
      case Err(e) => Err(e)
      case Ok(r1) => Advance(S, r1, h.n)
  }

  lemma {:induction false} SkipLoopSteps<K, P, C>(S: Suite<K, P, C>, r: State<K, P>, target: u32)
    requires WellFormed(r) && r.receiveChain.Some?
    ensures SkipLoop(S, r, target).steps == r.steps
    decreases target - r.receiveCount
  {
    if r.receiveCount < target {
      SkipLoopSteps(S, SkipOne(S, r), target);
    }
  }

  /**
   * One record turns the DH ratchet at most once, and not at all when its key was stored or its chain is the current
   * one.
   */
  lemma AtMostOneTurn<K, P, C>(S: Suite<K, P, C>, r: State<K, P>, h: Header<P>, newKey: Option<nat>)
    requires WellFormed(r) && Receive(S, r, h, newKey).Ok?
    ensures var next := Receive(S, r, h, newKey).value.next;
            var known := Stored(r.store, SkippedKey(h.pub, h.n)) || r.receiveKey == Some(h.pub);
            next.steps == r.steps + if known then 0 else 1
  {
    if !Stored(r.store, SkippedKey(h.pub, h.n)) {
      if r.receiveChain.Some? {
        SkipLoopSteps(S, r, h.pn);
      }
      var turned := TurnTo(S, r, h, newKey).value;
      if turned.receiveChain.Some? {
        SkipLoopSteps(S, turned, h.n);
      }
    }
  }

  // ---------------------------------------------------------------------------
  // Sessions.

  datatype Session<K, P> = Session(
    ratchet: State<K, P>,
    tag: K,
    closed: bool,
    sentSinceStep: nat,
    steps: nat)

  function Open<K, P>(ratchet: State<K, P>, tag: K): Session<K, P> {
    Session(ratchet, tag, false, 0, 0)
  }

  datatype Record<P, C> = Record(header: Header<P>, box: C)

  datatype Sent<K, P, C> = Sent(record: Record<P, C>, key: K, next: Session<K, P>)

  function Encrypt<K, P, C>(S: Suite<K, P, C>, s: Session<K, P>, plaintext: bytes): Result<Sent<K, P, C>> {
    if s.closed then Err(SessionClosed)
    else
      match Next(S, s.ratchet)
      case Err(e) => Err(e)
      case Ok(Outgoing(h, key, r)) =>
        Ok(Sent(
             Record(h, S.seal(key, s.tag, h, Padding.Pad(plaintext))), key,
             s.(ratchet := r, sentSinceStep := s.sentSinceStep + 1)))
  }

  datatype Accepted<K, P> = Accepted(plaintext: bytes, key: K, next: Session<K, P>)

  /** The speculative ratchet once the consumed key has been destroyed. */
  function Settle<K, P(==)>(m: Incoming<K, P>): State<K, P> {
    if m.from.Some? then m.next.(store := Forget(m.next.store, m.from.value)) else m.next
  }

  /** A ratchet that has stepped starts the count of sent records again. */
  function Install<K, P>(s: Session<K, P>, r: State<K, P>): Session<K, P> {
    if r.steps != s.ratchet.steps
    then s.(ratchet := r, steps := r.steps, sentSinceStep := 0)
    else s.(ratchet := r)
  }

  /** The session after the speculative ratchet is adopted. */
  function Commit<K, P(==)>(s: Session<K, P>, m: Incoming<K, P>): Session<K, P> {
    Install(s, Settle(m))
  }

  function Decrypt<K, P(==), C>(
    S: Suite<K, P, C>, s: Session<K, P>, rec: Record<P, C>, newKey: Option<nat>): (res: Result<Accepted<K, P>>)
    requires WellFormed(s.ratchet)
    ensures res.Ok? ==> WellFormed(res.value.next.ratchet)
  {
    if s.closed then Err(SessionClosed)
    else if rec.header.version != V2 then Err(Malformed)
    else
      match Receive(S, s.ratchet, rec.header, newKey)
      case Err(e) => Err(e)
      case Ok(m) =>
        match S.open(m.key, s.tag, rec.header, rec.box)
        case None => Err(DecryptFailed)
        case Some(padded) =>
          match Padding.Unpad(padded)
          case None => Err(DecryptFailed)
          case Some(plaintext) => Ok(Accepted(plaintext, m.key, Commit(s, m)))
  }

  /** The record asks for more keys to be skipped than one record may: in its chain, or in the one it leaves. */
  predicate SkipsTooFar<K, P(==)>(r: State<K, P>, h: Header<P>) {
    if r.receiveKey == Some(h.pub) then r.receiveChain.Some? && h.n - r.receiveCount > MAX_SKIP
    else (r.receiveChain.Some? && h.pn - r.receiveCount > MAX_SKIP) || h.n > MAX_SKIP
  }

  /** Every refusal names its cause; nothing but a stored key is looked at before the version and the session. */
  lemma RefusalNamesCause<K, P, C>(
    S: Suite<K, P, C>, s: Session<K, P>, rec: Record<P, C>, newKey: Option<nat>)
    requires WellFormed(s.ratchet)
    ensures var r, h := s.ratchet, rec.header;
            var stored := Stored(r.store, SkippedKey(h.pub, h.n));
            match Decrypt(S, s, rec, newKey)
            case Ok(_) => !s.closed && h.version == V2 && (stored || !SkipsTooFar(r, h))
            case Err(SessionClosed) => s.closed
            case Err(Stale) => !stored && r.receiveKey == Some(h.pub) && h.n < r.receiveCount
            case Err(SkipTooLarge) => !stored && SkipsTooFar(r, h)
            case Err(NoRandomness) => !stored && r.receiveKey != Some(h.pub) && newKey.None?
            case Err(Malformed) =>
              h.version != V2 ||
              (!stored && r.receiveKey != Some(h.pub) &&
               (S.agree(r.sendKey, h.pub).None? || (newKey.Some? && S.agree(newKey.value, h.pub).None?)))
            case Err(DecryptFailed) =>
              && Receive(S, r, h, newKey).Ok?
              && var padded := S.open(Receive(S, r, h, newKey).value.key, s.tag, h, rec.box);
                 padded.None? || Padding.Unpad(padded.value).None?
            case Err(_) => false
  {
    hide SkipLoop;
    if s.ratchet.receiveChain.Some? {
      SkipLoopSendKey(S, s.ratchet, rec.header.pn);
    }
  }

  lemma {:induction false} SkipLoopSendKey<K, P, C>(S: Suite<K, P, C>, r: State<K, P>, target: u32)
    requires WellFormed(r) && r.receiveChain.Some?
    ensures SkipLoop(S, r, target).sendKey == r.sendKey
    decreases target - r.receiveCount
  {
    if r.receiveCount < target {
      SkipLoopSendKey(S, SkipOne(S, r), target);
    }
  }

  function Close<K, P>(s: Session<K, P>): Session<K, P> {
    s.(closed := true)
  }

  const REKEY_AFTER_MESSAGES := 64

  predicate NeedsRekey<K, P>(s: Session<K, P>, intervalElapsed: bool) {
    !s.closed && (s.sentSinceStep >= REKEY_AFTER_MESSAGES || intervalElapsed)
  }
}
