/**
 * Domain separation (internal/e2ee/labels.go and `context` in internal/e2ee/primitives.go).
 */
module Labels {
  import opened Common
  import opened Codec

  datatype Purpose =
    | Transcript | HybridSecret
    | KeyResponder | KeyInitiator | MacResponder | MacInitiator
    | SignResponder | SignInitiator | ConfirmResponder | ConfirmInitiator
    | RootKey | AssociatedData | RatchetRoot | MessageKeys

  const PROTOCOL := "CMD-CHAT-E2EE v2 "

  function Name(p: Purpose): string {
    match p
    case Transcript => "transcript"
    case HybridSecret => "hybrid secret"
    case KeyResponder => "hs responder key"
    case KeyInitiator => "hs initiator key"
    case MacResponder => "hs responder mac"
    case MacInitiator => "hs initiator mac"
    case SignResponder => "responder signature"
    case SignInitiator => "initiator signature"
    case ConfirmResponder => "responder confirm"
    case ConfirmInitiator => "initiator confirm"
    case RootKey => "root key"
    case AssociatedData => "associated data"
    case RatchetRoot => "ratchet root"
    case MessageKeys => "message keys"
  }

  /** All labels are ASCII; any other character would become a question mark. */
  function Code(c: char): byte {
    if c as int < 0x80 then c as int else 0x3F
  }

  function Ascii(s: string): (b: bytes)
    ensures |b| == |s|
    ensures forall i :: 0 <= i < |s| ==> b[i] == Code(s[i])
  {
    seq(|s|, i requires 0 <= i < |s| => Code(s[i]))
  }

  function Label(p: Purpose): bytes {
    Ascii(PROTOCOL + Name(p))
  }

  /** Reads the purpose back off a name. */
  function PurposeOf(s: bytes): Purpose {
    if |s| == 8 then RootKey
    else if |s| == 10 then Transcript
    else if |s| == 12 then (if s[0] == 'r' as int then RatchetRoot else MessageKeys)
    else if |s| == 13 then HybridSecret
    else if |s| == 15 then AssociatedData
    else if |s| == 16 then
      (if s[3] == 'r' as int
       then (if s[13] == 'k' as int then KeyResponder else MacResponder)
       else (if s[13] == 'k' as int then KeyInitiator else MacInitiator))
    else if |s| == 17 then (if s[0] == 'r' as int then ConfirmResponder else ConfirmInitiator)
    else if |s| == 19 then (if s[0] == 'r' as int then SignResponder else SignInitiator)
    else Transcript
  }

  lemma NameReadsBack(p: Purpose)
    ensures PurposeOf(Ascii(Name(p))) == p
    ensures 8 <= |Name(p)| <= 19
  {
  }

  predicate NulFree(b: bytes) {
    forall i :: 0 <= i < |b| ==> b[i] != 0
  }

  lemma LabelNulFree(p: Purpose)
    ensures NulFree(Label(p))
  {
    assert '\0' !in Name(p);
    assert '\0' !in "CMD-CHAT-E2EE v2 ";
    hide Name;
    var s := PROTOCOL + Name(p);
    forall i | 0 <= i < |s|
      ensures Ascii(s)[i] != 0
    {
      assert s[i] in PROTOCOL || s[i] in Name(p);
    }
  }

  /** One label, one purpose. */
  lemma LabelsDistinct(p: Purpose, q: Purpose)
    ensures Label(p) == Label(q) ==> p == q
    ensures |Label(p)| == 17 + |Name(p)|
  {
    NameReadsBack(p);
    NameReadsBack(q);
    assert Label(p)[17..] == Ascii(Name(p));
    assert Label(q)[17..] == Ascii(Name(q));
  }

  /** The byte string a signature or a confirmation MAC covers. */
  function Context(p: Purpose, transcript: bytes, identity: bytes, id: bytes): bytes {
    Label(p) + ([0] + (transcript + (identity + Lp(id))))
  }

  /** The first NUL ends the label. */
  lemma SplitAtNul(a: bytes, x: bytes, b: bytes, y: bytes)
    requires NulFree(a) && NulFree(b) && a + ([0] + x) == b + ([0] + y)
    ensures a == b && x == y
  {
    var s, t := a + ([0] + x), b + ([0] + y);
    assert s[|a|] == 0 && (forall i :: 0 <= i < |b| ==> t[i] != 0);
    assert t[|b|] == 0 && (forall i :: 0 <= i < |a| ==> s[i] != 0);
    assert s[..|a|] == a && t[..|b|] == b;
    assert s[|a| + 1..] == x && t[|b| + 1..] == y;
  }

  lemma LpInjective(x: bytes, y: bytes)
    requires Lp(x) == Lp(y)
    ensures x == y
  {
    assert Lp(x)[4..] == x && Lp(y)[4..] == y;
  }

  /** `context` is injective in all four parts for 32-byte transcripts and keys, so no
      signature or MAC input of one role or purpose is one of another. */
  lemma ContextInjective(
    p: Purpose, t: bytes, k: bytes, id: bytes, p': Purpose, t': bytes, k': bytes, id': bytes)
    requires |t| == |t'| == 32 && |k| == |k'| == 32
    requires Context(p, t, k, id) == Context(p', t', k', id')
    ensures p == p' && t == t' && k == k' && id == id'
  {
    LabelNulFree(p);
    LabelNulFree(p');
    var x, y := t + (k + Lp(id)), t' + (k' + Lp(id'));
    SplitAtNul(Label(p), x, Label(p'), y);
    LabelsDistinct(p, p');
    assert x[..32] == t && x[32..] == k + Lp(id) && y[..32] == t' && y[32..] == k' + Lp(id');
    assert (k + Lp(id))[..32] == k && (k + Lp(id))[32..] == Lp(id);
    assert (k' + Lp(id'))[..32] == k' && (k' + Lp(id'))[32..] == Lp(id');
    LpInjective(id, id');
  }

  /** The info strings given to HKDF: a bare label, or a label with th4 appended. */
  datatype Info = Bare(p: Purpose) | WithTranscript(p: Purpose, th: bytes)

  predicate InUse(i: Info) {
    match i
    case Bare(p) => p in {KeyResponder, KeyInitiator, MacResponder, MacInitiator, RatchetRoot, MessageKeys}
    case WithTranscript(p, th) => p in {RootKey, AssociatedData} && |th| == 32
  }

  function InfoBytes(i: Info): bytes {
    match i
    case Bare(p) => Label(p)
    case WithTranscript(p, th) => Label(p) + th
  }

  /** No two derivations share an info string. */
  lemma InfosDistinct(i: Info, j: Info)
    requires InUse(i) && InUse(j) && InfoBytes(i) == InfoBytes(j)
    ensures i == j
  {
    LabelsDistinct(i.p, j.p);
    LabelsDistinct(j.p, i.p);
    NameReadsBack(i.p);
    NameReadsBack(j.p);
    if i.WithTranscript? && j.WithTranscript? {
      assert InfoBytes(i)[|Label(i.p)|..] == i.th && InfoBytes(j)[|Label(j.p)|..] == j.th;
    }
  }
}
