/**
 * The CMDC2 handshake (internal/e2ee/handshake.go): three flights, a hash-chained
 * transcript, and the session keys that come out of it.
 *
 * The primitives are functions in a `Crypto` value. `Lawful` lists the laws used for an
 * honest run; nothing is assumed of the hash but its output length, so agreement under
 * tampering is stated as "equal, or here is a collision".
 */
module Handshake {
  import opened Common
  import opened Codec
  import opened Labels
  import opened Wire

  type Sk = nat

  datatype Crypto = Crypto(
    hash: bytes -> bytes,
    extract: (bytes, bytes) -> bytes,
    expand: (bytes, bytes) -> bytes,
    mac: (bytes, bytes) -> bytes,
    seal: (bytes, bytes, bytes) -> bytes,
    open: (bytes, bytes, bytes) -> Option<bytes>,
    public: Sk -> bytes,
    agree: (Sk, bytes) -> Option<bytes>,
    kemKey: Sk -> bytes,
    encapsulate: (bytes, nat) -> Option<(bytes, bytes)>,
    decapsulate: (Sk, bytes) -> bytes,
    identity: Sk -> bytes,
    usable: bytes -> bool,
    deriveId: bytes -> bytes,
    sign: (Sk, bytes) -> bytes,
    verify: (bytes, bytes, bytes) -> bool)

  ghost predicate Lawful(c: Crypto) {
    && (forall m: bytes :: |c.hash(m)| == 32)
    && (forall k: bytes, m: bytes :: |c.mac(k, m)| == 32)
    && (forall k: bytes, ad: bytes, m: bytes :: c.open(k, ad, c.seal(k, ad, m)) == Some(m))
    && (forall k: bytes, ad: bytes, m: bytes :: |c.seal(k, ad, m)| == |m| + 16)
    && (forall a: Sk :: |c.public(a)| == 32 && |c.kemKey(a)| == KEM_KEY_SIZE && |c.identity(a)| == 32)
    && Commutes(c.public, c.agree)
    && (forall a: Sk, r: nat :: c.encapsulate(c.kemKey(a), r).Some?)
    && (forall a: Sk, r: nat ::
          var (secret, ct) := c.encapsulate(c.kemKey(a), r).value;
          |ct| == KEM_CIPHERTEXT_SIZE && c.decapsulate(a, ct) == secret)
    && (forall pub: bytes :: 1 <= |c.deriveId(pub)| <= MAX_ID_BYTES)
    && (forall a: Sk, m: bytes :: |c.sign(a, m)| == 64 && c.verify(c.identity(a), m, c.sign(a, m)))
  }

  const V1: u16 := 1
  const V2: u16 := 2
  const SUPPORTED: seq<u16> := [V2]
  const MAX_ID_BYTES := 64
  const MAX_NICKNAME_BYTES := 256

  datatype Failure =
    | Malformed | FrameTooLarge | NoCommonVersion | LegacyPeer | Downgrade
    | NoChannelBinding | BadCredentials | Authentication | Untrusted

  datatype Outcome<+T> = Good(value: T) | Bad(failure: Failure)

  /** One side's parameters. `trusts` is the trust store's answer for a proven identity. */
  datatype Config = Config(
    key: Sk, nickname: bytes, binding: bytes, versions: seq<u16>, wanted: Option<bytes>, trusts: (bytes, bytes) -> bool)

  datatype PeerInfo = PeerInfo(id: bytes, identity: bytes, nickname: bytes, version: u16)

  function Validate(c: Crypto, cfg: Config): Option<Failure> {
    if !c.usable(c.identity(cfg.key)) then Some(BadCredentials)
    else if cfg.binding == [] then Some(NoChannelBinding)
    else if cfg.versions == [] then Some(NoCommonVersion)
    else None
  }

  // ---------------------------------------------------------------------------
  // Version choice.

  function SelectVersion(ours: seq<u16>, theirs: seq<u16>): Option<u16> {
    if ours == [] then None
    else if ours[0] in theirs then Some(ours[0])
    else SelectVersion(ours[1..], theirs)
  }

  /** The choice is the first of our preferences that the peer offered, and there is none
      only if the lists are disjoint. */
  lemma {:induction false} SelectIsFirstCommon(ours: seq<u16>, theirs: seq<u16>)
    ensures match SelectVersion(ours, theirs)
            case None => forall v :: v in ours ==> v !in theirs
            case Some(v) =>
              v in theirs && exists i :: 0 <= i < |ours| && ours[i] == v && forall j :: 0 <= j < i ==>
                  ours[j] !in theirs
  {
    if ours != [] && ours[0] !in theirs {
      SelectIsFirstCommon(ours[1..], theirs);
      match SelectVersion(ours, theirs) {
        case None =>
          forall v | v in ours ensures v !in theirs {
            assert v == ours[0] || v in ours[1..];
          }
        case Some(v) =>
          var i :| 0 <= i < |ours[1..]| && ours[1..][i] == v && forall j :: 0 <= j < i ==> ours[1..][j] !in theirs;
          assert ours[i + 1] == v;
          forall j | 0 <= j < i + 1 ensures ours[j] !in theirs {
            assert j > 0 ==> ours[j] == ours[1..][j - 1];
          }
      }
    } else if ours != [] {
      assert ours[0] == SelectVersion(ours, theirs).value;
    }
  }

  // ---------------------------------------------------------------------------
  // Transcript and keys.

  /** H(prev || lp(next)). */
  function Chain(c: Crypto, prev: bytes, next: bytes): bytes {
    c.hash(prev + Lp(next))
  }

  function Th1(c: Crypto, binding: bytes, m1: bytes): bytes {
    Chain(c, Chain(c, Label(Transcript), binding), m1)
  }

  function Th2(c: Crypto, binding: bytes, m1: bytes, header: bytes): bytes {
    Chain(c, Th1(c, binding, m1), header)
  }

  function Prk(c: Crypto, th2: bytes, quantum: bytes, classical: bytes): bytes {
    c.extract(th2, quantum + classical)
  }

  function Derive(c: Crypto, prk: bytes, p: Purpose): bytes {
    c.expand(prk, Label(p))
  }

  datatype Secrets = Secrets(prk: bytes, th4: bytes)

  function SessionRoot(c: Crypto, s: Secrets): bytes {
    c.expand(s.prk, Label(RootKey) + s.th4)
  }

  function SessionTag(c: Crypto, s: Secrets): bytes {
    c.expand(s.prk, Label(AssociatedData) + s.th4)
  }

  /** The labels and keys one role authenticates with. */
  datatype Role = ByResponder | ByInitiator

  function SignPurpose(r: Role): Purpose { if r == ByResponder then SignResponder else SignInitiator }
  function ConfirmPurpose(r: Role): Purpose { if r == ByResponder then ConfirmResponder else ConfirmInitiator }
  function KeyPurpose(r: Role): Purpose { if r == ByResponder then KeyResponder else KeyInitiator }
  function MacPurpose(r: Role): Purpose { if r == ByResponder then MacResponder else MacInitiator }

  function Payload(c: Crypto, cfg: Config, prk: bytes, transcript: bytes, r: Role): AuthPayload {
    var pub := c.identity(cfg.key);
    var id := c.deriveId(pub);
    AuthPayload(
      pub, id,
      c.sign(cfg.key, Context(SignPurpose(r), transcript, pub, id)),
      c.mac(Derive(c, prk, MacPurpose(r)), Context(ConfirmPurpose(r), transcript, pub, id)),
      cfg.nickname)
  }

  function SealAuth(c: Crypto, cfg: Config, prk: bytes, transcript: bytes, r: Role): bytes {
    c.seal(Derive(c, prk, KeyPurpose(r)), transcript, EncodePayload(Payload(c, cfg, prk, transcript, r)))
  }

  function OpenAuth(
    c: Crypto, cfg: Config, ciphertext: bytes, prk: bytes, transcript: bytes, r: Role,
    version: u16): Outcome<PeerInfo> {
    match c.open(Derive(c, prk, KeyPurpose(r)), transcript, ciphertext)
    case None => Bad(Authentication)
    case Some(plaintext) =>
      match DecodePayload(plaintext)
      case None => Bad(Authentication)
      case Some(p) =>
        if p.id == [] || |p.id| > MAX_ID_BYTES || |p.nickname| > MAX_NICKNAME_BYTES then Bad(Authentication)
        else if !c.usable(p.identity) then Bad(Authentication)
        else if c.deriveId(p.identity) != p.id then Bad(Authentication)
        else if !c.verify(p.identity, Context(SignPurpose(r), transcript, p.identity, p.id), p.signature)
            then Bad(Authentication)
        else if c.mac(Derive(c, prk, MacPurpose(r)),
            Context(ConfirmPurpose(r), transcript, p.identity, p.id)) != p.mac then Bad(Authentication)
        else if cfg.wanted.Some? && cfg.wanted.value != p.id then Bad(Authentication)
        else if !cfg.trusts(p.id, p.identity) then Bad(Untrusted)
        else Good(PeerInfo(p.id, p.identity, p.nickname, version))
  }

  // ---------------------------------------------------------------------------
  // The flights.

  function FirstFlight(c: Crypto, cfg: Config, e: Sk, dk: Sk, random: bytes): Outcome<bytes> {
    match Validate(c, cfg)
    case Some(f) => Bad(f)
    case None =>
      var m1 := EncodeHello(Hello(cfg.versions, c.public(e), c.kemKey(dk), random));
      if WriteFrame(m1).None? then Bad(FrameTooLarge) else Good(m1)
  }

  datatype Pending = Pending(m2: bytes, prk: bytes, th3: bytes, version: u16)

  /** The responder's answer to M1. */
  function SecondFlight(c: Crypto, cfg: Config, m1: bytes, e: Sk, kemRandom: nat, random: bytes): Outcome<Pending> {
    match Validate(c, cfg)
    case Some(f) => Bad(f)
    case None =>
      match DecodeHello(m1)
      case None => Bad(Malformed)
      case Some(hello) =>
        if hello.versions == [] then Bad(NoCommonVersion)
        else
          match SelectVersion(cfg.versions, hello.versions)
          case None => Bad(if V1 in hello.versions then LegacyPeer else NoCommonVersion)
          case Some(version) =>
            match c.agree(e, hello.ephemeral)
            case None => Bad(Malformed)
            case Some(classical) =>
              match c.encapsulate(hello.kemKey, kemRandom)
              case None => Bad(Malformed)
              case Some((quantum, ct)) =>
                var header := ReplyHeader(version, c.public(e), ct, random);
                var th2 := Th2(c, cfg.binding, m1, header);
                var prk := Prk(c, th2, quantum, classical);
                var c2 := SealAuth(c, cfg, prk, th2, ByResponder);
                var m2 := header + Lp(c2);
                if WriteFrame(m2).None? then Bad(FrameTooLarge)
                else Good(Pending(m2, prk, Chain(c, th2, c2), version))
  }

  datatype Initiated = Initiated(m3: bytes, secrets: Secrets, peer: PeerInfo, remote: bytes)

  /** The initiator's answer to M2. */
  function ThirdFlight(c: Crypto, cfg: Config, e: Sk, dk: Sk, m1: bytes, m2: bytes): Outcome<Initiated> {
    match DecodeReply(m2)
    case None => Bad(Malformed)
    case Some(reply) =>
      if reply.version !in cfg.versions then Bad(Downgrade)
      else if reply.version !in SUPPORTED then Bad(if reply.version == V1 then LegacyPeer else NoCommonVersion)
      else
        match c.agree(e, reply.ephemeral)
        case None => Bad(Malformed)
        case Some(classical) =>
          var th2 := Th2(c, cfg.binding, m1, m2[..M2_HEADER_LEN]);
          var prk := Prk(c, th2, c.decapsulate(dk, reply.kemCiphertext), classical);
          match OpenAuth(c, cfg, reply.c2, prk, th2, ByResponder, reply.version)
          case Bad(f) => Bad(f)
          case Good(peer) =>
            var th3 := Chain(c, th2, reply.c2);
            var c3 := SealAuth(c, cfg, prk, th3, ByInitiator);
            if WriteFrame(EncodeFinish(c3)).None? then Bad(FrameTooLarge)
            else Good(Initiated(EncodeFinish(c3), Secrets(prk, Chain(c, th3, c3)), peer, reply.ephemeral))
  }

  datatype Responded = Responded(secrets: Secrets, peer: PeerInfo)

  /** The responder's reading of M3. */
  function LastFlight(c: Crypto, cfg: Config, p: Pending, m3: bytes): Outcome<Responded> {
    match DecodeFinish(m3)
    case None => Bad(Malformed)
    case Some(c3) =>
      match OpenAuth(c, cfg, c3, p.prk, p.th3, ByInitiator, p.version)
      case Bad(f) => Bad(f)
      case Good(peer) => Good(Responded(Secrets(p.prk, Chain(c, p.th3, c3)), peer))
  }

  // ---------------------------------------------------------------------------
  // An honest run completes.

  predicate Accepts(c: Crypto, cfg: Config, other: Config) {
    var pub := c.identity(other.key);
    && (cfg.wanted.Some? ==> cfg.wanted.value == c.deriveId(pub))
    && cfg.trusts(c.deriveId(pub), pub)
  }

  ghost predicate Honest(c: Crypto, cfg: Config) {
    Validate(c, cfg).None? && |cfg.nickname| <= MAX_NICKNAME_BYTES
  }

  function InfoOf(c: Crypto, cfg: Config, version: u16): PeerInfo {
    var pub := c.identity(cfg.key);
    PeerInfo(c.deriveId(pub), pub, cfg.nickname, version)
  }

  lemma PayloadBounded(c: Crypto, cfg: Config, prk: bytes, transcript: bytes, r: Role)
    requires Lawful(c) && Honest(c, cfg)
    ensures var p := Payload(c, cfg, prk, transcript, r);
            && PayloadFits(p) && 1 <= |p.id| <= MAX_ID_BYTES
            && |SealAuth(c, cfg, prk, transcript, r)| <= 1000
  {
    var p := Payload(c, cfg, prk, transcript, r);
    hide Context, Label;
    assert |EncodePayload(p)| == 32 + (4 + |p.id|) + 64 + 32 + (4 + |p.nickname|);
  }

  /** What one honest side seals, the other opens and attributes to it. */
  lemma SealedOpens(c: Crypto, cfg: Config, other: Config, prk: bytes, transcript: bytes, r: Role, version: u16)
    requires Lawful(c) && Honest(c, other) && Accepts(c, cfg, other)
    ensures OpenAuth(c, cfg, SealAuth(c, other, prk, transcript, r), prk, transcript, r, version) ==
            Good(InfoOf(c, other, version))
  {
    hide Context, Label;
    PayloadBounded(c, other, prk, transcript, r);
    PayloadWritten(Payload(c, other, prk, transcript, r));
  }

  lemma HelloSize(m: Hello)
    requires HelloFits(m)
    ensures |EncodeHello(m)| == 2 + 2 * |m.versions| + 32 + KEM_KEY_SIZE + 32
  {
    VersionsSize(m.versions);
  }

  lemma {:induction false} VersionsSize(vs: seq<u16>)
    ensures |PutVersions(vs)| == 2 * |vs|
  {
    if vs != [] {
      VersionsSize(vs[1..]);
    }
  }

  /** The randomness of one run. */
  datatype Draws = Draws(e: Sk, dk: Sk, random: bytes, e': Sk, kemRandom: nat, random': bytes)

  function HelloOf(c: Crypto, ci: Config, d: Draws): Hello {
    Hello(ci.versions, c.public(d.e), c.kemKey(d.dk), d.random)
  }

  /** Everything both sides of an honest run compute. */
  datatype Script = Script(m1: bytes, header: bytes, th2: bytes, prk: bytes, c2: bytes, th3: bytes, c3: bytes,
      th4: bytes)

  function ScriptOf(c: Crypto, ci: Config, cr: Config, d: Draws): Script
    requires c.agree(d.e', c.public(d.e)).Some? && c.encapsulate(c.kemKey(d.dk), d.kemRandom).Some?
  {
    var m1 := EncodeHello(HelloOf(c, ci, d));
    var (quantum, ct) := c.encapsulate(c.kemKey(d.dk), d.kemRandom).value;
    var header := ReplyHeader(V2, c.public(d.e'), ct, d.random');
    var th2 := Th2(c, cr.binding, m1, header);
    var prk := Prk(c, th2, quantum, c.agree(d.e', c.public(d.e)).value);
    var c2 := SealAuth(c, cr, prk, th2, ByResponder);
    var th3 := Chain(c, th2, c2);
    var c3 := SealAuth(c, ci, prk, th3, ByInitiator);
    Script(m1, header, th2, prk, c2, th3, c3, Chain(c, th3, c3))
  }

  /** Two honest sides that accept each other, whatever versions they list. */
  ghost predicate Willing(c: Crypto, ci: Config, cr: Config, d: Draws) {
    && Lawful(c) && Honest(c, ci) && Honest(c, cr)
    && ci.binding == cr.binding
    && |ci.versions| <= 255
    && Accepts(c, ci, cr) && Accepts(c, cr, ci)
    && |d.random| == 32 && |d.random'| == 32
  }

  ghost predicate HonestPair(c: Crypto, ci: Config, cr: Config, d: Draws) {
    Willing(c, ci, cr, d) && SelectVersion(cr.versions, ci.versions) == Some(V2)
  }

  lemma SecondFlightHonest(c: Crypto, ci: Config, cr: Config, d: Draws)
    requires HonestPair(c, ci, cr, d)
    ensures c.agree(d.e', c.public(d.e)).Some? && c.encapsulate(c.kemKey(d.dk), d.kemRandom).Some?
    ensures var s := ScriptOf(c, ci, cr, d);
            && FirstFlight(c, ci, d.e, d.dk, d.random) == Good(s.m1)
            && SecondFlight(c, cr, s.m1, d.e', d.kemRandom, d.random') ==
               Good(Pending(s.header + Lp(s.c2), s.prk, s.th3, V2))
  {
    hide Context, Label, SealAuth, Prk, Th2;
    var hello := HelloOf(c, ci, d);
    HelloSize(hello);
    HelloWritten(hello);
    hide EncodeHello, DecodeHello;
    CommutesAt(c.public, c.agree, d.e', d.e);
    assert c.agree(d.e', c.public(d.e)).Some? && c.encapsulate(c.kemKey(d.dk), d.kemRandom).Some?;
    var s := ScriptOf(c, ci, cr, d);
    PayloadBounded(c, cr, s.prk, s.th2, ByResponder);
    assert |s.header + Lp(s.c2)| <= MAX_FRAME_SIZE;
  }

  lemma ThirdFlightHonest(c: Crypto, ci: Config, cr: Config, d: Draws)
    requires HonestPair(c, ci, cr, d)
    requires c.agree(d.e', c.public(d.e)).Some? && c.encapsulate(c.kemKey(d.dk), d.kemRandom).Some?
    ensures var s := ScriptOf(c, ci, cr, d);
            ThirdFlight(c, ci, d.e, d.dk, s.m1, s.header + Lp(s.c2)) ==
              Good(Initiated(EncodeFinish(s.c3), Secrets(s.prk, s.th4), InfoOf(c, cr, V2), c.public(d.e')))
  {
    var s := ScriptOf(c, ci, cr, d);
    var (quantum, ct) := c.encapsulate(c.kemKey(d.dk), d.kemRandom).value;
    var reply := Reply(V2, c.public(d.e'), ct, d.random', s.c2);
    SelectIsFirstCommon(cr.versions, ci.versions);
    PayloadBounded(c, cr, s.prk, s.th2, ByResponder);
    PayloadBounded(c, ci, s.prk, s.th3, ByInitiator);
    ReplyWritten(reply);
    SealedOpens(c, ci, cr, s.prk, s.th2, ByResponder, V2);
    CommutesAt(c.public, c.agree, d.e, d.e');
    assert c.decapsulate(d.dk, ct) == quantum;
    hide Context, Label, SealAuth, OpenAuth, Prk, Th2, DecodeReply, EncodeHello, ReplyHeader, SelectVersion;
  }

  /** With equal bindings and V2 as the responder's first common preference, both sides
      finish with the same secrets, and each names the other. */
  lemma HonestRunCompletes(c: Crypto, ci: Config, cr: Config, d: Draws)
    requires HonestPair(c, ci, cr, d)
    ensures var m1 := FirstFlight(c, ci, d.e, d.dk, d.random);
            && m1.Good?
            && var p := SecondFlight(c, cr, m1.value, d.e', d.kemRandom, d.random');
            && p.Good?
            && var i := ThirdFlight(c, ci, d.e, d.dk, m1.value, p.value.m2);
            && i.Good?
            && var r := LastFlight(c, cr, p.value, i.value.m3);
            && r.Good?
            && i.value.secrets == r.value.secrets
            && i.value.peer == InfoOf(c, cr, V2) && r.value.peer == InfoOf(c, ci, V2)
            && i.value.remote == c.public(d.e')
  {
    SecondFlightHonest(c, ci, cr, d);
    ThirdFlightHonest(c, ci, cr, d);
    var s := ScriptOf(c, ci, cr, d);
    PayloadBounded(c, ci, s.prk, s.th3, ByInitiator);
    FinishRoundTrip(s.c3, []);
    SealedOpens(c, cr, ci, s.prk, s.th3, ByInitiator, V2);
    hide Context, Label, SealAuth, OpenAuth, Prk, Th2, FirstFlight, SecondFlight, ThirdFlight, DecodeFinish;
  }

  /** The laws can be met, so the statements above are about something. */
  function Toy(): Crypto {
    Crypto(
      _ => Zeros(32),
      (_, _) => Zeros(32),
      (_, _) => Zeros(32),
      (_, _) => Zeros(32),
      (_, _, m) => m + Zeros(16),
      (_, _, box) => if |box| < 16 then None else Some(box[..|box| - 16]),
      a => [a % 0x100] + Zeros(31),
      (_, _) => Some(Zeros(32)),
      _ => Zeros(KEM_KEY_SIZE),
      (_, _) => Some((Zeros(32), Zeros(KEM_CIPHERTEXT_SIZE))),
      (_, _) => Zeros(32),
      _ => Zeros(32),
      _ => true,
      _ => Zeros(19),
      (_, _) => Zeros(64),
      (_, _, _) => true)
  }

  lemma LawsConsistent()
    ensures Lawful(Toy())
  {
    var c := Toy();
    forall k: bytes, ad: bytes, m: bytes
      ensures c.open(k, ad, c.seal(k, ad, m)) == Some(m) && |c.seal(k, ad, m)| == |m| + 16
    {
      assert (m + Zeros(16))[..|m|] == m;
    }
  }

  // ---------------------------------------------------------------------------
  // Tampering.

  /** A run of one identity up to the point where it signs: what its signature commits to. */
  datatype SignedRun =
    | AsResponder(binding: bytes, m1: bytes, header: bytes)
    | AsInitiator(binding: bytes, m1: bytes, header: bytes, c2: bytes)

  function RoleOf(run: SignedRun): Role { if run.AsResponder? then ByResponder else ByInitiator }

  function TranscriptOf(c: Crypto, run: SignedRun): bytes {
    var th2 := Th2(c, run.binding, run.m1, run.header);
    if run.AsResponder? then th2 else Chain(c, th2, run.c2)
  }

  /** The strings hashed on the way to a transcript. */
  function Hashed(c: Crypto, run: SignedRun): seq<bytes> {
    var th0 := Chain(c, Label(Transcript), run.binding);
    var th1 := Chain(c, th0, run.m1);
    var common := [Label(Transcript) + Lp(run.binding), th0 + Lp(run.m1), th1 + Lp(run.header)];
    if run.AsResponder? then common else common + [Chain(c, th1, run.header) + Lp(run.c2)]
  }

  /** Two runs hash different strings to one value at the same place. */
  predicate Collide(c: Crypto, r: SignedRun, r': SignedRun) {
    var xs, ys := Hashed(c, r), Hashed(c, r');
    |xs| == |ys| && exists i :: 0 <= i < |xs| && xs[i] != ys[i] && c.hash(xs[i]) == c.hash(ys[i])
  }

  /** What an identity signs in a run. */
  function SignedString(c: Crypto, run: SignedRun, pub: bytes): bytes {
    Context(SignPurpose(RoleOf(run)), TranscriptOf(c, run), pub, c.deriveId(pub))
  }

  /** The string `m` is not forged: if a signature on it verifies, its identity signed it in a run of the log. */
  ghost predicate Unforged(c: Crypto, pub: bytes, m: bytes, log: seq<SignedRun>) {
    (exists sig: bytes :: c.verify(pub, m, sig)) ==> exists k :: 0 <= k < |log| && m == SignedString(c, log[k], pub)
  }

  ghost predicate HashSize(c: Crypto) {
    forall m: bytes :: |c.hash(m)| == 32
  }

  lemma StepBinds(p: bytes, n: bytes, p': bytes, n': bytes)
    requires |p| == |p'| && p + Lp(n) == p' + Lp(n')
    ensures p == p' && n == n'
  {
    assert (p + Lp(n))[..|p|] == p && (p' + Lp(n'))[..|p|] == p';
    assert (p + Lp(n))[|p|..] == Lp(n) && (p' + Lp(n'))[|p|..] == Lp(n');
    LpInjective(n, n');
  }

  /** Equal transcripts come from equal runs, or the two runs exhibit a collision. */
  lemma TranscriptBinds(c: Crypto, r: SignedRun, r': SignedRun)
    requires HashSize(c) && r.AsResponder? == r'.AsResponder?
    requires TranscriptOf(c, r) == TranscriptOf(c, r')
    ensures r == r' || Collide(c, r, r')
  {
    hide Label, Lp;
    var xs, ys := Hashed(c, r), Hashed(c, r');
    if forall i :: 0 <= i < |xs| ==> xs[i] == ys[i] || c.hash(xs[i]) != c.hash(ys[i]) {
      var th0, th0' := Chain(c, Label(Transcript), r.binding), Chain(c, Label(Transcript), r'.binding);
      var th1, th1' := Chain(c, th0, r.m1), Chain(c, th0', r'.m1);
      if r.AsInitiator? {
        assert xs[3] == ys[3];
        StepBinds(Chain(c, th1, r.header), r.c2, Chain(c, th1', r'.header), r'.c2);
      }
      assert xs[2] == ys[2];
      StepBinds(th1, r.header, th1', r'.header);
      assert xs[1] == ys[1];
      StepBinds(th0, r.m1, th0', r'.m1);
      assert xs[0] == ys[0];
      StepBinds(Label(Transcript), r.binding, Label(Transcript), r'.binding);
    }
  }

  lemma AcceptedWasVerified(
    c: Crypto, cfg: Config, box: bytes, prk: bytes, transcript: bytes, r: Role, version: u16) returns (sig: bytes)
    requires OpenAuth(c, cfg, box, prk, transcript, r, version).Good?
    ensures var peer := OpenAuth(c, cfg, box, prk, transcript, r, version).value;
            && peer.id == c.deriveId(peer.identity) && |peer.identity| == 32 && peer.version == version
            && c.verify(peer.identity, Context(SignPurpose(r), transcript, peer.identity, peer.id), sig)
            && (cfg.wanted.Some? ==> cfg.wanted.value == peer.id) && cfg.trusts(peer.id, peer.identity)
  {
    hide Context, Label;
    var plaintext := c.open(Derive(c, prk, KeyPurpose(r)), transcript, box).value;
    PayloadRead(plaintext);
    sig := DecodePayload(plaintext).value.signature;
  }

  /** A string that verifies comes from a run in that very role: the log may hold runs of the identity in both roles. */
  lemma SignedRunMatches(c: Crypto, run: SignedRun, log: seq<SignedRun>, pub: bytes, sig: bytes) returns (k: nat)
    requires HashSize(c) && Unforged(c, pub, SignedString(c, run, pub), log) && |pub| == 32
    requires c.verify(pub, SignedString(c, run, pub), sig)
    ensures k < |log| && RoleOf(log[k]) == RoleOf(run) && (log[k] == run || Collide(c, run, log[k]))
  {
    var j :| 0 <= j < |log| && SignedString(c, run, pub) == SignedString(c, log[j], pub);
    k := j;
    hide Context, Collide, Label;
    ContextInjective(
      SignPurpose(RoleOf(run)), TranscriptOf(c, run), pub, c.deriveId(pub),
      SignPurpose(RoleOf(log[k])), TranscriptOf(c, log[k]), pub, c.deriveId(pub));
    TranscriptBinds(c, run, log[k]);
  }

  /** If the initiator accepts, the identity it accepted ran as responder on the same
      channel binding, the same M1 and the same M2 header, or a collision is exhibited. */
  lemma InitiatorAgreesWithResponder(
    c: Crypto, cfg: Config, e: Sk, dk: Sk, m1: bytes, m2: bytes, log: seq<SignedRun>) returns (k: nat)
    requires HashSize(c) && ThirdFlight(c, cfg, e, dk, m1, m2).Good? && |m2| >= M2_HEADER_LEN
    requires var pub := ThirdFlight(c, cfg, e, dk, m1, m2).value.peer.identity;
             Unforged(c, pub, SignedString(c, AsResponder(cfg.binding, m1, m2[..M2_HEADER_LEN]), pub), log)
    ensures k < |log| && log[k].AsResponder?
    ensures var run := AsResponder(cfg.binding, m1, m2[..M2_HEADER_LEN]);
            log[k] == run || Collide(c, run, log[k])
  {
    ReplyRead(m2);
    var reply := DecodeReply(m2).value;
    var run := AsResponder(cfg.binding, m1, m2[..M2_HEADER_LEN]);
    hide Context, Collide, Label, DecodeReply, OpenAuth, Unforged;
    var th2 := TranscriptOf(c, run);
    var prk := Prk(c, th2, c.decapsulate(dk, reply.kemCiphertext), c.agree(e, reply.ephemeral).value);
    var sig := AcceptedWasVerified(c, cfg, reply.c2, prk, th2, ByResponder, reply.version);
    k := SignedRunMatches(c, run, log, ThirdFlight(c, cfg, e, dk, m1, m2).value.peer.identity, sig);
  }

  /** The run a responder's M2 belongs to: its own binding, the M1 it read, the header and C2 it made. */
  function ViewOf(c: Crypto, cfg: Config, m1: bytes, e: Sk, kemRandom: nat, random: bytes): SignedRun
    requires SecondFlight(c, cfg, m1, e, kemRandom, random).Good?
  {
    var p := SecondFlight(c, cfg, m1, e, kemRandom, random).value;
    var header := ReplyHeader(p.version, c.public(e), c.encapsulate(DecodeHello(m1).value.kemKey, kemRandom).value.1,
        random);
    AsInitiator(cfg.binding, m1, header, SealAuth(c, cfg, p.prk, Th2(c, cfg.binding, m1, header), ByResponder))
  }

  lemma ViewIsSent(c: Crypto, cfg: Config, m1: bytes, e: Sk, kemRandom: nat, random: bytes)
    requires SecondFlight(c, cfg, m1, e, kemRandom, random).Good?
    ensures var p, run := SecondFlight(c, cfg, m1, e, kemRandom, random).value,
            ViewOf(c, cfg, m1, e, kemRandom, random);
            p.m2 == run.header + Lp(run.c2) && p.th3 == TranscriptOf(c, run)
  {
    hide Context, Label, DecodeHello;
  }

  /** If the responder accepts, the identity it accepted ran as initiator on the same
      binding, M1, M2 header and C2, or a collision is exhibited. */
  lemma ResponderAgreesWithInitiator(
    c: Crypto, cfg: Config, m1: bytes, e: Sk, kemRandom: nat, random: bytes, m3: bytes, log: seq<SignedRun>)
    returns (k: nat)
    requires HashSize(c) && SecondFlight(c, cfg, m1, e, kemRandom, random).Good?
    requires LastFlight(c, cfg, SecondFlight(c, cfg, m1, e, kemRandom, random).value, m3).Good?
    requires var pub := LastFlight(c, cfg, SecondFlight(c, cfg, m1, e, kemRandom, random).value,
             m3).value.peer.identity;
             Unforged(c, pub, SignedString(c, ViewOf(c, cfg, m1, e, kemRandom, random), pub), log)
    ensures var run := ViewOf(c, cfg, m1, e, kemRandom, random);
            && run.binding == cfg.binding && run.m1 == m1
            && SecondFlight(c, cfg, m1, e, kemRandom, random).value.m2 == run.header + Lp(run.c2)
            && k < |log| && log[k].AsInitiator? && (log[k] == run || Collide(c, run, log[k]))
  {
    hide Context, Collide, Label, OpenAuth, DecodeFinish, Unforged;
    ViewIsSent(c, cfg, m1, e, kemRandom, random);
    var p, run := SecondFlight(c, cfg, m1, e, kemRandom, random).value, ViewOf(c, cfg, m1, e, kemRandom, random);
    hide SecondFlight;
    var sig := AcceptedWasVerified(c, cfg, DecodeFinish(m3).value, p.prk, p.th3, ByInitiator, p.version);
    k := SignedRunMatches(c, run, log, LastFlight(c, cfg, p, m3).value.peer.identity, sig);
  }

  /** The version the initiator accepts was offered and is supported. */
  lemma AcceptedVersionOffered(c: Crypto, cfg: Config, e: Sk, dk: Sk, m1: bytes, m2: bytes)
    requires ThirdFlight(c, cfg, e, dk, m1, m2).Good?
    ensures var v := ThirdFlight(c, cfg, e, dk, m1, m2).value.peer.version;
            && v in cfg.versions && v == V2
            && DecodeReply(m2).Some? && DecodeReply(m2).value.version == v
  {
    var reply := DecodeReply(m2).value;
    hide Context, Label, DecodeReply, OpenAuth, SealAuth;
    var th2 := Th2(c, cfg.binding, m1, m2[..M2_HEADER_LEN]);
    var prk := Prk(c, th2, c.decapsulate(dk, reply.kemCiphertext), c.agree(e, reply.ephemeral).value);
    var sig := AcceptedWasVerified(c, cfg, reply.c2, prk, th2, ByResponder, reply.version);
  }

  /** On the M1 it sent and the M2 header the responder made, the accepted version is the
      first of the responder's preferences among those offered. */
  lemma AcceptedVersionPreferred(
    c: Crypto, ci: Config, cr: Config, e: Sk, dk: Sk, m1: bytes, m2: bytes, e': Sk, kemRandom: nat, random: bytes)
    requires ThirdFlight(c, ci, e, dk, m1, m2).Good?
    requires DecodeHello(m1).Some? && DecodeHello(m1).value.versions == ci.versions
    requires SecondFlight(c, cr, m1, e', kemRandom, random).Good?
    requires var p := SecondFlight(c, cr, m1, e', kemRandom, random).value;
             |m2| >= M2_HEADER_LEN && |p.m2| >= M2_HEADER_LEN && m2[..M2_HEADER_LEN] == p.m2[..M2_HEADER_LEN]
    ensures SelectVersion(cr.versions, ci.versions) == Some(ThirdFlight(c, ci, e, dk, m1, m2).value.peer.version)
  {
    hide ReplyFits, EncodeReply, PutU16, ReplyHeader, SelectVersion, Lp;
    AcceptedVersionOffered(c, ci, e, dk, m1, m2);
    SecondFlightShape(c, cr, m1, e', kemRandom, random);
    var p := SecondFlight(c, cr, m1, e', kemRandom, random).value;
    ReplyVersion(m2);
    hide DecodeReply, ThirdFlight, SecondFlight, DecodeHello;
    SameVersion(p.m2, m2, p.version, DecodeReply(m2).value.version);
  }

  lemma ReplyVersion(m2: bytes)
    requires DecodeReply(m2).Some?
    ensures |m2| >= 3 && m2[1..3] == PutU16(DecodeReply(m2).value.version)
  {
    ReplyRead(m2);
    var reply := DecodeReply(m2).value;
    HeaderVersion(reply.version, reply.ephemeral, reply.kemCiphertext, reply.random, Lp(reply.c2));
    hide DecodeReply, ReplyHeader, PutU16, Lp;
  }

  lemma SameVersion(a: bytes, b: bytes, v: u16, v': u16)
    requires |a| >= M2_HEADER_LEN && |b| >= M2_HEADER_LEN && a[..M2_HEADER_LEN] == b[..M2_HEADER_LEN]
    requires a[1..3] == PutU16(v) && b[1..3] == PutU16(v')
    ensures v == v'
  {
    assert a[1..3] == a[..M2_HEADER_LEN][1..3] && b[1..3] == b[..M2_HEADER_LEN][1..3];
    U16RoundTrip(v, [0, 0]);
    U16RoundTrip(v', [0, 0]);
  }

  lemma HeaderVersion(v: u16, ephemeral: bytes, ct: bytes, random: bytes, tail: bytes)
    ensures var m2 := ReplyHeader(v, ephemeral, ct, random) + tail;
            |m2| >= 3 && m2[1..3] == PutU16(v)
  {
  }

  lemma SecondFlightShape(c: Crypto, cfg: Config, m1: bytes, e: Sk, kemRandom: nat, random: bytes)
    requires SecondFlight(c, cfg, m1, e, kemRandom, random).Good?
    ensures var p := SecondFlight(c, cfg, m1, e, kemRandom, random).value;
            && DecodeHello(m1).Some? && SelectVersion(cfg.versions, DecodeHello(m1).value.versions) == Some(p.version)
            && |p.m2| >= 3 && p.m2[1..3] == PutU16(p.version)
  {
    hide DecodeHello, SealAuth, ReplyHeader;
    var p := SecondFlight(c, cfg, m1, e, kemRandom, random).value;
    var (quantum, ct) := c.encapsulate(DecodeHello(m1).value.kemKey, kemRandom).value;
    var header := ReplyHeader(p.version, c.public(e), ct, random);
    HeaderVersion(p.version, c.public(e), ct, random, p.m2[|header|..]);
    assert p.m2 == header + p.m2[|header|..];
  }

  /** All four flights go through. */
  predicate Completes(c: Crypto, ci: Config, cr: Config, d: Draws) {
    var m1 := FirstFlight(c, ci, d.e, d.dk, d.random);
    m1.Good? &&
    var p := SecondFlight(c, cr, m1.value, d.e', d.kemRandom, d.random');
    p.Good? &&
    var i := ThirdFlight(c, ci, d.e, d.dk, m1.value, p.value.m2);
    i.Good? && LastFlight(c, cr, p.value, i.value.m3).Good?
  }

  /**
   * Two willing sides complete if and only if the first of the responder's versions that was offered is V2. A common V2
   * is not enough: behind another common version in the responder's list it is never reached.
   */
  lemma CompletesExactlyOnV2(c: Crypto, ci: Config, cr: Config, d: Draws)
    requires Willing(c, ci, cr, d)
    ensures Completes(c, ci, cr, d) <==> SelectVersion(cr.versions, ci.versions) == Some(V2)
  {
    if SelectVersion(cr.versions, ci.versions) == Some(V2) {
      HonestRunCompletes(c, ci, cr, d);
    }
    if Completes(c, ci, cr, d) {
      CompletedOnV2(c, ci, cr, d);
    }
  }

  lemma CompletedOnV2(c: Crypto, ci: Config, cr: Config, d: Draws)
    requires Willing(c, ci, cr, d) && Completes(c, ci, cr, d)
    ensures SelectVersion(cr.versions, ci.versions) == Some(V2)
  {
    var m1 := EncodeHello(HelloOf(c, ci, d));
    HelloWritten(HelloOf(c, ci, d));
    hide Lawful, EncodeHello, DecodeHello, Validate, Context, SealAuth, OpenAuth, Th2, Prk;
    assert FirstFlight(c, ci, d.e, d.dk, d.random) == Good(m1);
    var m2 := SecondFlight(c, cr, m1, d.e', d.kemRandom, d.random').value.m2;
    hide FirstFlight, SecondFlight, LastFlight;
    ReplyRead(m2);
    AcceptedVersionOffered(c, ci, d.e, d.dk, m1, m2);
    AcceptedVersionPreferred(c, ci, cr, d.e, d.dk, m1, m2, d.e', d.kemRandom, d.random');
  }
}
