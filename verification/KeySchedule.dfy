/**
 * The handshake's key schedule (internal/e2ee/handshake.go:249-286 and the two derivations of newSession): which info
 * string every key is expanded under, that no two uses share one, and what that buys the two sides.
 */
module KeySchedule {
  import opened Common
  import opened Codec
  import opened Labels
  import opened Handshake

  /** What the handshake secret is expanded for: two AEAD keys, two MAC keys, the root key and the session tag. */
  datatype Use = SealKey(role: Role) | ConfirmKey(role: Role) | Root | Tag

  function InfoFor(u: Use, th4: bytes): Info {
    match u
    case SealKey(ByResponder) => Bare(KeyResponder)
    case SealKey(ByInitiator) => Bare(KeyInitiator)
    case ConfirmKey(ByResponder) => Bare(MacResponder)
    case ConfirmKey(ByInitiator) => Bare(MacInitiator)
    case Root => WithTranscript(RootKey, th4)
    case Tag => WithTranscript(AssociatedData, th4)
  }

  function KeyFor(c: Crypto, s: Secrets, u: Use): bytes {
    c.expand(s.prk, InfoBytes(InfoFor(u, s.th4)))
  }

  /** Different info strings expand to different keys, whatever the secrets. */
  ghost predicate Separates(c: Crypto) {
    forall prk: bytes, prk': bytes, i: bytes, j: bytes {:trigger c.expand(prk, i), c.expand(prk', j)} ::
      c.expand(prk, i) == c.expand(prk', j) ==> prk == prk' && i == j
  }

  /** Every info string is one in use, and no two uses share one. */
  lemma UsesApart(u: Use, v: Use, th4: bytes, th4': bytes)
    requires |th4| == |th4'| == 32
    ensures InUse(InfoFor(u, th4))
    ensures InfoBytes(InfoFor(u, th4)) == InfoBytes(InfoFor(v, th4')) ==> u == v
  {
    hide InfoBytes;
    if InfoBytes(InfoFor(u, th4)) == InfoBytes(InfoFor(v, th4')) {
      InfosDistinct(InfoFor(u, th4), InfoFor(v, th4'));
    }
  }

  /** The six keys of a run are pairwise different. */
  lemma KeysApart(c: Crypto, s: Secrets, u: Use, v: Use)
    requires Separates(c) && |s.th4| == 32 && u != v
    ensures KeyFor(c, s, u) != KeyFor(c, s, v)
  {
    hide InfoBytes;
    UsesApart(u, v, s.th4, s.th4);
  }

  /** The keys the handshake derives are those of the schedule. */
  lemma DerivesBySchedule(c: Crypto, s: Secrets, r: Role)
    ensures Derive(c, s.prk, KeyPurpose(r)) == KeyFor(c, s, SealKey(r))
    ensures Derive(c, s.prk, MacPurpose(r)) == KeyFor(c, s, ConfirmKey(r))
    ensures SessionRoot(c, s) == KeyFor(c, s, Root) && SessionTag(c, s) == KeyFor(c, s, Tag)
  {
    hide Label;
  }

  // ---------------------------------------------------------------------------
  // Nothing else is expanded.

  /** Two suites alike but for `expand`, which agree on the uses given. */
  ghost predicate AgreeOn(c: Crypto, f: (bytes, bytes) -> bytes, s: Secrets, uses: set<Use>) {
    forall u :: u in uses ==> f(s.prk, InfoBytes(InfoFor(u, s.th4))) == KeyFor(c, s, u)
  }

  /** A side seals, opens and starts a session with the keys of the schedule and no others, each where it belongs. */
  lemma OnlyTheseInfos(
    c: Crypto, f: (bytes, bytes) -> bytes, cfg: Config, s: Secrets, transcript: bytes, r: Role, box: bytes,
    version: u16)
    ensures var c' := c.(expand := f);
            && (AgreeOn(c, f, s, {SealKey(r), ConfirmKey(r)}) ==>
                  && SealAuth(c', cfg, s.prk, transcript, r) == SealAuth(c, cfg, s.prk, transcript, r)
                  && OpenAuth(c', cfg, box, s.prk, transcript, r, version) ==
                     OpenAuth(c, cfg, box, s.prk, transcript, r, version))
            && (AgreeOn(c, f, s, {Root}) ==> SessionRoot(c', s) == SessionRoot(c, s))
            && (AgreeOn(c, f, s, {Tag}) ==> SessionTag(c', s) == SessionTag(c, s))
  {
    hide Label, Context, InfoBytes, EncodePayload, DecodePayload, Derive, SessionRoot, SessionTag, AgreeOn;
    var c' := c.(expand := f);
    DerivesBySchedule(c, s, r);
    DerivesBySchedule(c', s, r);
    if AgreeOn(c, f, s, {SealKey(r), ConfirmKey(r)}) {
      AgreeAt(c, f, s, {SealKey(r), ConfirmKey(r)}, SealKey(r));
      AgreeAt(c, f, s, {SealKey(r), ConfirmKey(r)}, ConfirmKey(r));
    }
    if AgreeOn(c, f, s, {Root}) {
      AgreeAt(c, f, s, {Root}, Root);
    }
    if AgreeOn(c, f, s, {Tag}) {
      AgreeAt(c, f, s, {Tag}, Tag);
    }
  }

  lemma AgreeAt(c: Crypto, f: (bytes, bytes) -> bytes, s: Secrets, uses: set<Use>, u: Use)
    requires AgreeOn(c, f, s, uses) && u in uses
    ensures KeyFor(c.(expand := f), s, u) == KeyFor(c, s, u)
  {
    hide InfoBytes;
  }

  // ---------------------------------------------------------------------------
  // One key, one ciphertext.

  /**
   * C2 and C3 of a run are each sealed under a key of their own, over the transcript so far, and neither key is a MAC
   * key, the root key or the tag: the shared nonce meets no key twice.
   */
  lemma FlightsSealedApart(c: Crypto, ci: Config, cr: Config, d: Draws)
    requires HonestPair(c, ci, cr, d) && Separates(c)
    ensures c.agree(d.e', c.public(d.e)).Some? && c.encapsulate(c.kemKey(d.dk), d.kemRandom).Some?
    ensures var run := ScriptOf(c, ci, cr, d);
            var s := Secrets(run.prk, run.th4);
            && run.c2 == c.seal(KeyFor(c, s, SealKey(ByResponder)), run.th2,
                                EncodePayload(Payload(c, cr, run.prk, run.th2, ByResponder)))
            && run.c3 == c.seal(KeyFor(c, s, SealKey(ByInitiator)), run.th3,
                                EncodePayload(Payload(c, ci, run.prk, run.th3, ByInitiator)))
            && (forall u, v :: u != v ==> KeyFor(c, s, u) != KeyFor(c, s, v))
  {
    hide Label, Context, Th2, Prk, Payload, KeyFor, EncodePayload, Separates, EncodeHello, Derive;
    CommutesAt(c.public, c.agree, d.e', d.e);
    var run := ScriptOf(c, ci, cr, d);
    var s := Secrets(run.prk, run.th4);
    DerivesBySchedule(c, s, ByResponder);
    DerivesBySchedule(c, s, ByInitiator);
    forall u, v | u != v
      ensures KeyFor(c, s, u) != KeyFor(c, s, v)
    {
      KeysApart(c, s, u, v);
    }
  }

  /** A box sealed under one key and transcript opens under another. */
  predicate OpensElsewhere(c: Crypto, k: bytes, ad: bytes, m: bytes, k': bytes, ad': bytes) {
    (k != k' || ad != ad') && c.open(k', ad', c.seal(k, ad, m)).Some?
  }

  /**
   * What a side sealed is accepted only in its own role, on its own transcript and under its own secret, or a box is
   * exhibited that opens under a key or transcript it was not sealed with.
   */
  lemma OpensOnlyItsOwn(
    c: Crypto, cfg: Config, prk: bytes, transcript: bytes, r: Role, version: u16,
    other: Config, prk': bytes, transcript': bytes, r': Role)
    requires Separates(c)
    requires OpenAuth(c, cfg, SealAuth(c, other, prk', transcript', r'), prk, transcript, r, version).Good?
    ensures var k', k := KeyFor(c, Secrets(prk', []), SealKey(r')), KeyFor(c, Secrets(prk, []), SealKey(r));
            || (prk' == prk && transcript' == transcript && r' == r)
            || OpensElsewhere(c, k', transcript', EncodePayload(Payload(c, other, prk', transcript', r')), k,
                transcript)
  {
    hide Label, Context, EncodePayload, DecodePayload, InfoBytes, Derive;
    DerivesBySchedule(c, Secrets(prk, []), r);
    DerivesBySchedule(c, Secrets(prk', []), r');
    UsesApart(SealKey(r), SealKey(r'), Zeros(32), Zeros(32));
  }

  // ---------------------------------------------------------------------------
  // Key confirmation.

  /** The confirmation a side computes over its identity in a run. */
  function Confirmation(c: Crypto, prk: bytes, transcript: bytes, r: Role, pub: bytes, id: bytes): bytes {
    c.mac(KeyFor(c, Secrets(prk, []), ConfirmKey(r)),
          Context(if r == ByResponder then ConfirmResponder else ConfirmInitiator, transcript, pub, id))
  }

  /** What `openAuth` demands of a payload before the trust store is asked. */
  predicate Proven(c: Crypto, prk: bytes, transcript: bytes, r: Role, p: AuthPayload) {
    && 1 <= |p.id| <= MAX_ID_BYTES && |p.nickname| <= MAX_NICKNAME_BYTES
    && c.usable(p.identity) && c.deriveId(p.identity) == p.id
    && c.verify(p.identity,
                Context(if r == ByResponder then SignResponder else SignInitiator, transcript, p.identity, p.id),
                p.signature)
    && p.mac == Confirmation(c, prk, transcript, r, p.identity, p.id)
  }

  /** A peer is accepted exactly when the box opens to a proven payload of the peer wanted and trusted. */
  lemma AcceptsExactly(
    c: Crypto, cfg: Config, box: bytes, prk: bytes, transcript: bytes, r: Role, version: u16, peer: PeerInfo)
    ensures OpenAuth(c, cfg, box, prk, transcript, r, version) == Good(peer) <==>
            exists p: AuthPayload ::
              && c.open(KeyFor(c, Secrets(prk, []), SealKey(r)), transcript, box).Some?
              && DecodePayload(c.open(KeyFor(c, Secrets(prk, []), SealKey(r)), transcript, box).value) == Some(p)
              && Proven(c, prk, transcript, r, p)
              && (cfg.wanted.Some? ==> cfg.wanted.value == p.id) && cfg.trusts(p.id, p.identity)
              && peer == PeerInfo(p.id, p.identity, p.nickname, version)
  {
    DerivesBySchedule(c, Secrets(prk, []), r);
    hide Label, Context, DecodePayload, KeyFor, Derive;
  }

  /** One answer for every fault before the trust store is asked, another only for a peer proven and not trusted. */
  lemma FailuresAlike(
    c: Crypto, cfg: Config, box: bytes, prk: bytes, transcript: bytes, r: Role, version: u16)
    ensures match OpenAuth(c, cfg, box, prk, transcript, r, version)
            case Good(_) => true
            case Bad(f) =>
              && (f == Authentication || f == Untrusted)
              && (f == Untrusted <==>
                  exists p: AuthPayload ::
                    && c.open(KeyFor(c, Secrets(prk, []), SealKey(r)), transcript, box).Some?
                    && DecodePayload(c.open(KeyFor(c, Secrets(prk, []), SealKey(r)), transcript, box).value) == Some(p)
                    && Proven(c, prk, transcript, r, p)
                    && (cfg.wanted.Some? ==> cfg.wanted.value == p.id) && !cfg.trusts(p.id, p.identity))
  {
    DerivesBySchedule(c, Secrets(prk, []), r);
    hide Label, Context, DecodePayload, KeyFor, Derive;
  }

  /** Two different MAC inputs give one value. */
  predicate MacsCollide(c: Crypto, k: bytes, m: bytes, k': bytes, m': bytes) {
    (k != k' || m != m') && c.mac(k, m) == c.mac(k', m')
  }

  /**
   * No unknown key share: the confirmation a proven payload carries was computed by a holder of this very secret, in
   * this role, on this transcript and over this identity, or a collision of the MAC is exhibited.
   */
  lemma ConfirmedByHolder(
    c: Crypto, prk: bytes, transcript: bytes, r: Role, p: AuthPayload,
    holder: Config, prk': bytes, transcript': bytes, r': Role)
    requires Separates(c) && |transcript| == |transcript'| == 32
    requires |p.identity| == |c.identity(holder.key)| == 32
    requires Proven(c, prk, transcript, r, p)
    requires p.mac == Payload(c, holder, prk', transcript', r').mac
    ensures var pub := c.identity(holder.key);
            || (prk' == prk && transcript' == transcript && r' == r && p.identity == pub)
            || MacsCollide(
                 c, KeyFor(c, Secrets(prk, []), ConfirmKey(r)),
                 Context(if r == ByResponder then ConfirmResponder else ConfirmInitiator, transcript, p.identity, p.id),
                 KeyFor(c, Secrets(prk', []), ConfirmKey(r')),
                 Context(if r' == ByResponder then ConfirmResponder else ConfirmInitiator, transcript', pub,
                         c.deriveId(pub)))
  {
    var pub := c.identity(holder.key);
    DerivesBySchedule(c, Secrets(prk', []), r');
    UsesApart(ConfirmKey(r), ConfirmKey(r'), Zeros(32), Zeros(32));
    hide Label, Context, InfoBytes, Derive;
    var p1, p2 := if r == ByResponder then ConfirmResponder else ConfirmInitiator,
                  if r' == ByResponder then ConfirmResponder else ConfirmInitiator;
    if Context(p1, transcript, p.identity, p.id) == Context(p2, transcript', pub, c.deriveId(pub)) {
      ContextInjective(p1, transcript, p.identity, p.id, p2, transcript', pub, c.deriveId(pub));
    }
  }

  // ---------------------------------------------------------------------------
  // The hybrid secret.

  ghost predicate ExtractBinds(c: Crypto) {
    forall salt: bytes, ikm: bytes, salt': bytes, ikm': bytes {:trigger c.extract(salt, ikm), c.extract(salt', ikm')} ::
      c.extract(salt, ikm) == c.extract(salt', ikm') ==> salt == salt' && ikm == ikm'
  }

  /** The handshake secret depends on the transcript and on both shared secrets. */
  lemma HybridBinds(
    c: Crypto, th2: bytes, quantum: bytes, classical: bytes, th2': bytes, quantum': bytes, classical': bytes)
    requires ExtractBinds(c) && |quantum| == |quantum'|
    requires Prk(c, th2, quantum, classical) == Prk(c, th2', quantum', classical')
    ensures th2 == th2' && quantum == quantum' && classical == classical'
  {
    var both, both' := quantum + classical, quantum' + classical';
    assert both[..|quantum|] == quantum && both'[..|quantum|] == quantum';
    assert both[|quantum|..] == classical && both'[|quantum|..] == classical';
  }

  /** Nothing is sent without a usable identity, a channel binding and a version to offer. */
  lemma NothingSentUnbound(c: Crypto, cfg: Config, m1: bytes, e: Sk, dk: Sk, kemRandom: nat, random: bytes)
    ensures FirstFlight(c, cfg, e, dk, random).Good? || SecondFlight(c, cfg, m1, e, kemRandom, random).Good? ==>
              c.usable(c.identity(cfg.key)) && cfg.binding != [] && cfg.versions != []
    ensures c.usable(c.identity(cfg.key)) && cfg.binding == [] ==>
              FirstFlight(c, cfg, e, dk, random) == Bad(NoChannelBinding) &&
              SecondFlight(c, cfg, m1, e, kemRandom, random) == Bad(NoChannelBinding)
  {
    hide DecodeHello, SealAuth, EncodeHello, ReplyHeader, Th2;
  }

  /**
   * An M1 with no common version is refused by name: as a legacy peer's if it offers V1; and an M2 that chose V1 is
   * refused as a legacy peer's too.
   */
  lemma LegacyIsNamed(c: Crypto, cfg: Config, m1: bytes, m2: bytes, e: Sk, dk: Sk, kemRandom: nat, random: bytes)
    ensures Validate(c, cfg).None? && DecodeHello(m1).Some? &&
            (forall v :: v in cfg.versions ==> v !in DecodeHello(m1).value.versions) ==>
              SecondFlight(c, cfg, m1, e, kemRandom, random) ==
                Bad(if V1 in DecodeHello(m1).value.versions then LegacyPeer else NoCommonVersion)
    ensures DecodeReply(m2).Some? && DecodeReply(m2).value.version == V1 ==>
              ThirdFlight(c, cfg, e, dk, m1, m2) == Bad(if V1 in cfg.versions then LegacyPeer else Downgrade)
  {
    hide DecodeHello, DecodeReply, SealAuth, OpenAuth, Validate, ReplyHeader, Th2, Prk;
    if DecodeHello(m1).Some? {
      SelectIsFirstCommon(cfg.versions, DecodeHello(m1).value.versions);
    }
    hide SelectVersion;
  }

  // ---------------------------------------------------------------------------
  // The assumption can be met.

  /** A pairing of byte strings that keeps both. */
  function Paired(a: bytes, b: bytes): bytes {
    if a == [] then [0] + b else [1, a[0]] + Paired(a[1..], b)
  }

  lemma {:induction false} PairedKeepsBoth(a: bytes, b: bytes, a': bytes, b': bytes)
    requires Paired(a, b) == Paired(a', b')
    ensures a == a' && b == b'
  {
    var s, s' := Paired(a, b), Paired(a', b');
    if a == [] {
      assert s[0] == 0 && s[1..] == b;
      assert a' == [] && s'[1..] == b';
    } else {
      assert s[0] == 1 && s[1] == a[0] && s[2..] == Paired(a[1..], b);
      assert a' != [] && s'[1] == a'[0] && s'[2..] == Paired(a'[1..], b');
      PairedKeepsBoth(a[1..], b, a'[1..], b');
      assert a == [a[0]] + a[1..] && a' == [a'[0]] + a'[1..];
    }
  }

  function ToyApart(): Crypto {
    Toy().(expand := (prk, info) => Paired(prk, info))
  }

  lemma SeparationConsistent()
    ensures Lawful(ToyApart()) && Separates(ToyApart())
  {
    LawsConsistent();
    var c := ToyApart();
    forall prk: bytes, prk': bytes, i: bytes, j: bytes | c.expand(prk, i) == c.expand(prk', j)
      ensures prk == prk' && i == j
    {
      PairedKeepsBoth(prk, i, prk', j);
    }
  }
}
