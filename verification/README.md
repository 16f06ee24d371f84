# CMD-Chat: a verified model

CMD-Chat is a peer-to-peer terminal chat. Two peers find each other through a
public directory, dial each other directly or meet on a relay, run the CMDC2
handshake, and then exchange Double Ratchet records. This project models the parts
of it that are hard to get right and proves, for all inputs, all runs and all
interleavings, what they promise.

Layout, by component:

| files | component |
|---|---|
| `Common`, `Arithmetic` | shared types, byte strings, quotients and powers of two |
| `Padding`, `Ratchet`, `Wire`, `SkippedKeys` | the record layer as total functions, generic in the key type, and what its store of skipped keys holds |
| `Symbolic`, `OneParty` | free key terms; one session against an arbitrary peer |
| `Agreement`, `HonestRuns`, `TwoParty`, `LateRecords`, `NilChain` | the two-sided invariant; an honest pair over any suite; an honest pair over a hostile network; records that arrive late; what the session tag is for |
| `RatchetHeap`, `SessionHeap`, `SessionStart` | the classes with byte buffers: start, clone, commit, wipe |
| `Codec`, `Layout`, `Labels`, `Handshake`, `KeySchedule`, `Tampering`, `Establish` | the handshake, its encodings and their layout, its key schedule, what a tampered run still agrees on, and its composition with the record layer |
| `Rfc6455`, `WebSocket`, `Relay`, `RelayEnds`, `RelayRuns`, `RelaySession`, `Pipe` | the byte pipe through the relay |
| `Config`, `Ledger`, `Registry`, `Entries`, `RateLimit`, `Base32` | the directory service |
| `DialRace` | the concurrent dial |

`dafny verify dfyconfig.toml` checks everything.

How the parts hang together. `Ratchet` states the record layer once, over a
`Suite` of primitives. The class in `RatchetHeap` is proved to compute those
functions on byte buffers; the protocol theorems instantiate the same functions
with free terms, where equal keys mean equal derivations. `Agreement` carries the
two-sided invariant for any suite whose key agreement commutes and whose boxes
open, so `Establish` can start it from the byte strings the handshake ends with,
and `TwoParty` can run it over free terms. A network that forges nothing is the
only assumption about delivery: records may be dropped, repeated, reordered and
invented, but a box under the session's tag was made by one of the two sides. In the
handshake the counterpart is that a string on which a signature verifies was signed by
that identity in one of its runs, in whichever role; the theorems then say which run.

## What the code does that its comments do not say

- `dialFastest` keeps the first connection that answers but does not return on it:
  the `continue` after taking a winner skips the test that would leave the loop
  (`internal/connect/connect.go:303-315`). It leaves on the last outcome, on a second
  success, or at the deadline (`DialRace.WhatEndsTheLoop`, `DialRace.WinnerKeepsWaiting`).
- A v2 delete is not held to the replay guard (`workers/phonebook/src/lib/entries.js:115-117`),
  although the schema and the comments say every mutating request must be newer. A delete
  stamped before the publish it revokes lets that same publish be accepted again
  (`Entries.ReplayAfterOlderDelete`). `Entries.IncreasingIffDeletesNewer` is the exact condition for
  the order of accepted requests, `Entries.ReplayExactly` the one for a replay.
- The relay's byte limit is described as per direction but counts both directions, and
  frames of sockets that are in no pair too, over the object's life (`workers/relay/src/index.js:206-207`):
  `RelayRuns.MeterIsTotal` and `RelayRuns.LimitExactly` say what it counts and when it strikes,
  and `RelayRuns.OneDirectionCutOff` is a run in which a direction is cut off at half its allowance.
- The client reads frames RFC 6455 tells it to fail the connection for (`internal/relay/websocket.go:236-260`). A reserved
  opcode counts as data, a fragmented or long control frame is taken as it is, and reserved header bits and needlessly long
  length forms make no difference (`WebSocket.ReservedFramesRead`, `WebSocket.ReadsLeniently`).
  `WebSocket.ReadsWhatWasFramed` says exactly when it still reads what the standard assigns, and
  `WebSocket.ReservedUnnoticed` when a reserved opcode goes unnoticed.
- The relay drops what a host sends before its guest arrives (`workers/relay/src/index.js:212-213`). What the
  guest then reads is no prefix of what the host wrote (`Pipe.EarlyWriteLost`); `Pipe.EndToEnd` has the exact
  condition. The program's own host writes nothing until it has read its pairing notice
  (`awaitPeer`, `internal/relay/relay.go:179-212`), and such a host loses nothing: `WebSocket.ListenAndWrite`
  shows that it writes only once told, and `Pipe.AwaitingLosesNothing` draws the conclusion over whole runs.
- When the relay cannot pass a frame on, it closes the receiver and leaves the sender
  open and unpaired (`Relay.WhoStaysOpen`; `RelayRuns.SenderLeftOpen` is a run). Over every run such senders are the
  only sockets the relay lets go of without closing them (`RelayEnds.NoSocketForgotten`).
- Two sides that both support V2 can still fail: the responder answers with the first
  common version of its own list, and only V2 is accepted (`Handshake.CompletesExactlyOnV2`;
  `Tampering.V2BehindV1Fails` is a failing pair of lists). Such lists come from `Config.Versions`, which
  overrides the shipped list and is meant for tests (`internal/e2ee/handshake.go:156-158`); with the shipped list
  every willing pair completes (`Tampering.ShippedVersionsComplete`).
- An initiator that has heard nothing yet derives a public constant as the message key of a header that repeats
  the responder's handshake key (`internal/e2ee/ratchet.go:343`, `internal/e2ee/ratchet.go:364`). Only the session tag, as
  associated data, keeps such a record from being forged (`NilChain.AgreementOffNilChain`, `NilChain.ForgedAtStart`).
- `internal/e2ee/doc.go` gives the labels with the tag `v1`; `labels.go`, which is followed here, has `v2`.

## Model

| member | source | states |
|---|---|---|
| `Ratchet.AtMostOneTurn` | internal/e2ee/ratchet.go:331-369 | one received header turns the DH ratchet exactly once when it opens a new chain, and not at all when its key is stored or its chain is the current one |
| `Ratchet.RefusalNamesCause` | internal/e2ee/session.go:193-252 | every error of `Decrypt` names its cause: closed, stale in the chain in hand, a gap over the limit, a low-order key or a wrong version, no randomness where a step is needed, or a box that does not open |
| `SkippedKeys.SkipToStores` | internal/e2ee/ratchet.go:267-321 | a skip that is not refused leaves exactly the newest MaxSkipStore of what was stored followed by the keys of the positions passed, in order |
| `SkippedKeys.SkipStoresEach` | internal/e2ee/ratchet.go:302-321 | after a skip every position passed is stored, with the message key of that position of the chain |
| `SkippedKeys.ReceiveStores` | internal/e2ee/ratchet.go:331-369 | after a record whose key was not stored the store is exactly the newest MaxSkipStore of what it held followed by the keys passed in the chain left and in the record's own |
| `SkippedKeys.PassedIsStored` | internal/e2ee/ratchet.go:331-369 | no record passes more keys than the store holds, so all of them end the store, in order |
| `OneParty.RunKeeps` | internal/e2ee/ratchet.go:200-369 | over every run of sends and arbitrary deliveries: sending and receiving keys hang off roots of opposite parity per role, stored and used keys never repeat, every used key lies before the current position |
| `OneParty.AtMostOnce` | internal/e2ee/session.go:193-267 | no record is accepted twice in any run, whatever records a peer delivers |
| `OneParty.ReplayRefused` | internal/e2ee/ratchet.go:287-369 | a record once accepted is refused in every later state, also after its chain has been left and a trial step is made for it |
| `OneParty.SendKeysUnique` | internal/e2ee/ratchet.go:200-264 | no two records of a side are sealed under one message key |
| `OneParty.RolesSendApart` | internal/e2ee/ratchet.go:153-194 | initiator and responder of one session never send under the same message key, even against different peers |
| `OneParty.ReceivesNoSendKey` | internal/e2ee/ratchet.go:224-264 | no stored key and no key any header can make a side derive is one it has sent under |
| `OneParty.RekeyCountsCurrentChain` | internal/e2ee/session.go:133-140 | in every reachable state a session asks for a new key if and only if it was never hung up and the interval has elapsed or 64 records were sent in the current sending chain |
| `OneParty.ClosedForGood` | internal/e2ee/session.go:107-185 | once hung up a session refuses every encrypt and decrypt ever after, and asks for no new key |
| `Agreement.PairHolds` | internal/e2ee/ratchet.go:153-194 | the two constructors, on one root key, establish the two-sided invariant |
| `Agreement.PostKeeps` | internal/e2ee/session.go:151-185 | sending keeps the two-sided invariant, with the record logged under its epoch and position |
| `Agreement.SkipLoopOk` | internal/e2ee/ratchet.go:302-321 | skipping ahead reaches its target on the peer's chain, changes nothing else but the store, and every key stored is the one the peer seals that position under (which keys are stored: `SkippedKeys.SkipToStores`) |
| `Agreement.StoredIsRight` | internal/e2ee/ratchet.go:331-336 | a key stored for a header of the peer is the one its record was sealed under |
| `Agreement.ReceiveOkay` | internal/e2ee/ratchet.go:331-369 | a reachable record of the peer yields its own sealing key, and the invariant holds of the state reached |
| `Agreement.DeliverKeeps` | internal/e2ee/session.go:193-267 | a reachable record decrypts to its plaintext and the two-sided invariant goes on |
| `TwoParty.RunKeeps` | internal/e2ee/session.go:151-267 | the invariant over every run of sends, closes and hostile deliveries |
| `TwoParty.RightKeyOnlyIfReachable` | internal/e2ee/ratchet.go:331-369 | the key derived for a header is the sealing key only for records within reach, by the depth of the root it hangs off |
| `TwoParty.OpensOnlyHonest` | internal/e2ee/session.go:193-267 | whatever opens is in the log as the peer's, with that header and plaintext, and was reachable |
| `TwoParty.OnlyPeerPlaintexts` | internal/e2ee/session.go:193-267 | agreement: after any run, every plaintext `Decrypt` returns is one the peer encrypted under that header |
| `TwoParty.DecryptsExactlyWithinReach` | internal/e2ee/ratchet.go:331-369 | delivery: a record of the peer decrypts, to its own plaintext, if and only if the session is open and its key is stored, or it is ahead in the current chain within the skip limit, or it opens the next chain with both gaps within the limit |
| `LateRecords.RunRemembers` | internal/e2ee/ratchet.go:267-369 | over every run, against the headers a side has accepted: every position of the peer behind it was accepted or passed over, stored positions stand in the order of passing, and what was passed over within the last MaxSkipStore and not accepted is stored |
| `LateRecords.LateRecordDecrypts` | internal/e2ee/ratchet.go:267-369 | over every run: a record of the peer not yet accepted and overtaken by an accepted one decrypts to its plaintext, with no new key, if fewer than MaxSkipStore positions were passed over after it; what was passed over is read off the accepted headers alone |
| `LateRecords.CanSendExactly` | internal/e2ee/session.go:125-129 | over every run a side can send if and only if its session is open, its chain is not used up and, for the accepting side, it has accepted a record |
| `NilChain.GuardedRunKeeps` | internal/e2ee/ratchet.go:331-369 | with boxes unforgeable only under keys derived from the handshake's root, and nothing that opens arriving on the nil chain, the two-sided invariant and the derivation of every held key from that root hold over every run |
| `NilChain.AgreementOffNilChain` | internal/e2ee/ratchet.go:338-369 | under that assumption an open session accepts nothing but its peer's records under a header if and only if the header does not reach the nil chain |
| `NilChain.ForgedAtStart` | internal/e2ee/ratchet.go:153-178 | from the start the initiator would accept, under the responder's handshake key, a record nobody sent but whoever knows the tag |
| `Wire.HeaderRoundTrip` | internal/e2ee/ratchet.go:60-76 | header encoding and decoding are inverse both ways |
| `Layout.HeaderLayout` | internal/e2ee/ratchet.go:60-76 | the offset of every header field, counts in big-endian order |
| `Padding.PadRoundTrip` | internal/e2ee/primitives.go:124-153 | `unpad(pad(p)) = p`, and the padded length is the least multiple of 256 above the plaintext's |
| `Padding.UnpadOnlyMarker` | internal/e2ee/primitives.go:144-153 | `unpad` accepts exactly the strings of the form p, 0x80, zeros |
| `Padding.PadMessage` | internal/e2ee/primitives.go:124-133 | the buffer-filling form computes the padding function |
| `Padding.UnpadMessage` | internal/e2ee/primitives.go:144-153 | the index scan computes the unpadding function |
| `RatchetHeap.Wipe` | internal/e2ee/primitives.go:173-178 | every byte is zero afterwards |
| `RatchetHeap.Ratchet.DeriveChain` | internal/e2ee/ratchet.go:128-130 | message key and next chain key in new, distinct buffers, and one more derivation on the count |
| `RatchetHeap.Ratchet.Remember` | internal/e2ee/ratchet.go:267-281 | map and order list stay one queue without duplicates and compute the abstract store, whose contents `SkippedKeys.SkipToStores` characterises |
| `RatchetHeap.Ratchet.Forget` | internal/e2ee/ratchet.go:287-298 | exactly the named entry leaves the queue; its key is zeroed and its buffer is behind nothing any more |
| `RatchetHeap.Ratchet.Next` | internal/e2ee/ratchet.go:200-221 | the abstract next header, key and state, the key in a buffer of its own and the old sending chain zeroed |
| `RatchetHeap.Ratchet.SkipTo` | internal/e2ee/ratchet.go:302-321 | the abstract skip, characterised by `SkippedKeys.SkipToStores`, with at most the skip limit of chain derivations |
| `RatchetHeap.Ratchet.Step` | internal/e2ee/ratchet.go:224-264 | the abstract DH step on every success, with the old root key and both old chains zeroed, and the abstract error otherwise |
| `RatchetHeap.Ratchet.Receive` | internal/e2ee/ratchet.go:331-369 | the abstract receive, with at most 2 * MaxSkip + 1 chain derivations, and whether the key's buffer is shared with the store |
| `RatchetHeap.Ratchet.Responder` | internal/e2ee/ratchet.go:187-194 | a ratchet that owns fresh buffers and has no chain yet |
| `RatchetHeap.Ratchet.NewInitiator` | internal/e2ee/ratchet.go:153-178 | one root step against the peer's key, the caller's root key wiped; nothing at all for a low-order key |
| `RatchetHeap.Ratchet.Clone` | internal/e2ee/ratchet.go:376-395 | equal in value, with no buffer in common |
| `RatchetHeap.Ratchet.Destroy` | internal/e2ee/ratchet.go:398-406 | every secret buffer zeroed and let go of |
| `SessionStart.DeriveSession` | internal/e2ee/session.go:67-78 | root key and tag under their own labels, the handshake secret zeroed |
| `SessionStart.NewInitiatorSession` | internal/e2ee/session.go:67-99 | the dialling side's session is the abstract one of the handshake's secrets; none for a low-order key; the handshake secret zeroed either way |
| `SessionStart.NewResponderSession` | internal/e2ee/session.go:67-99 | the accepting side's session is the abstract one of the handshake's secrets, and the handshake secret is zeroed |
| `SessionHeap.SealRecord` | internal/e2ee/session.go:162-181 | header bytes and sealed padded plaintext, and the message key zeroed |
| `SessionHeap.Session.Encrypt` | internal/e2ee/session.go:151-185 | the abstract encrypt; the record is header bytes followed by the sealed padded plaintext; a refused call changes nothing (the wipe of the message key is `SealRecord`'s) |
| `SessionHeap.Session.Try` | internal/e2ee/session.go:214-251 | the trial on a clone changes nothing the session holds and yields the abstract key and state exactly when the record opens |
| `SessionHeap.Session.Adopt` | internal/e2ee/session.go:253-265 | the commit: every secret of the old state and the used key zeroed, no byte of the surviving state touched, the count of sent records reset exactly on a step |
| `SessionHeap.Session.Decrypt` | internal/e2ee/session.go:193-267 | a rejected record changes no field and no byte the session holds; an accepted one is exactly one abstract step, with every secret of the state before it zeroed; either way at most 2 * MaxSkip + 1 chain derivations |
| `SessionHeap.Session.Close` | internal/e2ee/session.go:107-118 | root key, chains, stored keys and tag zeroed and let go of; closing twice is harmless |
| `Codec.Reader.TakeBytes` | internal/e2ee/wire.go:92-103 | the cursor's abstract move; after a failure it stays failed |
| `Codec.Reader.LpBytes` | internal/e2ee/wire.go:130-142 | the length-prefixed field, refused when it claims more than there is |
| `Codec.ParseHello` | internal/e2ee/handshake.go:554-570 | the M1 parser with its loop over offers computes the M1 decoder |
| `Codec.ParsePayload` | internal/e2ee/handshake.go:230-242 | the auth payload parser computes its decoder |
| `Codec.HelloWritten` | internal/e2ee/handshake.go:408-416 | decoding an encoded M1 gives it back |
| `Codec.HelloRead` | internal/e2ee/handshake.go:554-570 | an M1 that decodes re-encodes to the same bytes |
| `Codec.ReplyWritten` | internal/e2ee/handshake.go:617-636 | decoding an encoded M2 gives it back, and its first bytes are the hashed header |
| `Codec.ReplyRead` | internal/e2ee/handshake.go:435-450 | an M2 that decodes re-encodes to the same bytes |
| `Codec.FinishRoundTrip` | internal/e2ee/handshake.go:511-512 | M3 encoding and decoding are inverse both ways |
| `Layout.HelloLayout` | internal/e2ee/handshake.go:408-416 | the offset of every field of M1, versions in big-endian order |
| `Layout.ReplyLayout` | internal/e2ee/handshake.go:617-636 | the offset of every field of M2 |
| `Layout.FinishLayout` | internal/e2ee/handshake.go:511-512 | the offset of every field of M3 |
| `Layout.PayloadLayout` | internal/e2ee/handshake.go:221-228 | the offset of every field of the sealed payload |
| `Layout.ContextLayout` | internal/e2ee/primitives.go:104-111 | the offset of every field a signature or MAC covers |
| `Layout.FrameLayout` | internal/e2ee/wire.go:46-56 | a frame is its length in four bytes and its payload, and is written exactly up to 64 KiB |
| `Layout.RefusedByLength` | internal/e2ee/wire.go:64-78 | a frame is too large by its announced length alone, and truncated exactly when fewer bytes follow than an allowed length announces |
| `Codec.PayloadWritten` | internal/e2ee/handshake.go:221-228 | decoding an encoded auth payload gives it back |
| `Codec.PayloadRead` | internal/e2ee/handshake.go:230-242 | an auth payload that decodes re-encodes to the same bytes |
| `Codec.FrameRoundTrip` | internal/e2ee/wire.go:46-78 | a frame reads back leaving what follows, and only a written frame reads |
| `Codec.StreamRoundTrip` | internal/e2ee/wire.go:46-78 | a stream of frames comes apart into exactly those written |
| `Codec.StreamRead` | internal/e2ee/wire.go:64-78 | what any stream comes apart into is within the frame limit, is written back to the same bytes with the unread rest, and no frame is left unread |
| `Codec.RecordFitsFrame` | internal/e2ee/session.go:277-283 | a record fits one frame if and only if its plaintext has at most 65279 bytes |
| `Labels.LabelsDistinct` | internal/e2ee/labels.go:15-46 | one label, one purpose |
| `Labels.ContextInjective` | internal/e2ee/primitives.go:104-111 | equal contexts have equal purpose, transcript, key and ID, so no signed or MACed input of one role or purpose equals one of another |
| `Labels.InfosDistinct` | internal/e2ee/session.go:70-74 | no two info strings in use are equal (that the derivations use these: `KeySchedule.DerivesBySchedule`) |
| `KeySchedule.UsesApart` | internal/e2ee/handshake.go:268-286 | the info string of each of the six uses of the handshake secret is one in use, and no two uses share one |
| `KeySchedule.DerivesBySchedule` | internal/e2ee/handshake.go:268-286 | the AEAD and MAC keys of both roles, the root key and the tag are expanded under exactly those info strings |
| `KeySchedule.OnlyTheseInfos` | internal/e2ee/handshake.go:297-380 | sealing and opening in a role depend on `expand` only at that role's two info strings, the root key and the tag only at theirs |
| `KeySchedule.KeysApart` | internal/e2ee/handshake.go:288-294 | for an expansion injective in its inputs the six keys of a run are pairwise different |
| `KeySchedule.FlightsSealedApart` | internal/e2ee/handshake.go:288-294 | in an honest run C2 and C3 are each sealed under a key of their own over the transcript so far, neither key being any other key of the run |
| `KeySchedule.OpensOnlyItsOwn` | internal/e2ee/handshake.go:297-331 | what a side sealed is accepted only under the same secret, transcript and role, or a box opening elsewhere is exhibited |
| `KeySchedule.AcceptsExactly` | internal/e2ee/handshake.go:323-380 | a peer is accepted if and only if the box opens to a payload within bounds, with a usable key that derives its ID, a signature that verifies and the right confirmation MAC, of the peer wanted and trusted |
| `KeySchedule.FailuresAlike` | internal/e2ee/handshake.go:316-380 | every failure before the trust store is the same error, and the trust error comes only for a peer that is proven, wanted and not trusted |
| `KeySchedule.ConfirmedByHolder` | internal/e2ee/handshake.go:362-369 | no unknown key share: a confirmation that is accepted was computed under this secret, in this role, on this transcript and over this identity, or a MAC collision is exhibited |
| `KeySchedule.HybridBinds` | internal/e2ee/handshake.go:723-727 | for an injective extraction, equal handshake secrets come from equal transcripts, equal KEM secrets and equal DH secrets |
| `KeySchedule.NothingSentUnbound` | internal/e2ee/handshake.go:178-192 | no flight leaves without a usable identity, a channel binding and a version, and a missing binding is named |
| `KeySchedule.LegacyIsNamed` | internal/e2ee/handshake.go:573-581 | a peer without a common version is refused by name, as a legacy one exactly if it offers or chose V1 |
| `KeySchedule.SeparationConsistent` | internal/e2ee/handshake.go:268-286 | the assumption on the expansion holds together with the other laws |
| `Handshake.SelectIsFirstCommon` | internal/e2ee/handshake.go:693-700 | the version chosen is the first of ours that was offered; none is chosen exactly when none is common |
| `Handshake.HonestRunCompletes` | internal/e2ee/handshake.go:387-681 | with equal bindings and V2 chosen, both sides finish with the same secrets and each names the other (the keys their flights are sealed under: `KeySchedule.FlightsSealedApart`) |
| `Handshake.CompletesExactlyOnV2` | internal/e2ee/handshake.go:455-463 | two honest sides that accept each other complete if and only if the responder's first common version is V2 |
| `Handshake.LawsConsistent` | internal/e2ee/primitives.go:47-95 | the laws assumed of the primitives can all be met at once |
| `Handshake.TranscriptBinds` | internal/e2ee/primitives.go:47-55 | equal transcript hashes come from equal runs, or an explicit pair of colliding strings is exhibited |
| `Handshake.SignedRunMatches` | internal/e2ee/handshake.go:323-380 | a string that verifies under an identity, which may have signed in both roles, was signed in that very role on the same run, or there is a collision |
| `Handshake.InitiatorAgreesWithResponder` | internal/e2ee/handshake.go:421-500 | an accepted C2 was made by the accepted identity on the same binding, M1 and M2 header, or there is a collision |
| `Handshake.ResponderAgreesWithInitiator` | internal/e2ee/handshake.go:575-660 | an accepted C3 was made by the accepted identity on the same binding, M1, M2 header and C2, or there is a collision |
| `Handshake.AcceptedVersionOffered` | internal/e2ee/handshake.go:455-463 | the version accepted was offered and is supported |
| `Tampering.NoDowngrade` | internal/e2ee/handshake.go:421-463 | whatever happened on the wire, the version an initiator accepts is the first of the responder's preferences among those offered, or a collision is exhibited |
| `Tampering.SameKeys` | internal/e2ee/handshake.go:464-517 | an initiator that accepts a responder's M2 holds its handshake secret and its transcript before C3 |
| `Tampering.BothHoldTheSecrets` | internal/e2ee/handshake.go:575-663 | whatever happened on the wire, a responder that accepts shares the handshake secret with a run of the identity it accepted, and the session secrets exactly when M3 came through as sent, or a collision is exhibited |
| `Tampering.V2BehindV1Fails` | internal/e2ee/handshake.go:575-581 | a pair of version lists that share V2 and do not complete |
| `Tampering.ShippedVersionsComplete` | internal/e2ee/handshake.go:164-169 | with the shipped version list every willing pair completes |
| `Establish.PrimingAgrees` | internal/e2ee/session.go:67-99 | the priming record turns the responder's ratchet and both can send |
| `Establish.HandshakeEstablishesAgreement` | internal/e2ee/handshake.go:517-541 | an honest handshake and its priming record leave two sessions with one root and tag, each naming the other, satisfying the two-sided invariant |
| `HonestRuns.RunDelivers` | internal/e2ee/session.go:151-267 | for any primitives whose key agreement commutes and whose boxes open: in every run of sends and of deliveries within reach, in any order, each record taken opens to its own plaintext |
| `Establish.SessionsDeliver` | internal/e2ee/session.go:67-99 | the same over byte strings, from the sessions two finished sides start and prime |
| `Establish.HypothesesMet` | internal/e2ee/handshake.go:387-541 | the hypotheses of the composition, three distinct public keys among them, can all be met at once |
| `Rfc6455.MaskTwice` | internal/relay/websocket.go:318-321 | masking twice with one key is the identity |
| `Rfc6455.ClientRoundTrip` | internal/relay/websocket.go:295-327 | a masked client frame decodes, by section 5.2 of RFC 6455, to itself and leaves what follows |
| `Rfc6455.ClientsAppend` | internal/relay/websocket.go:295-327 | a stream of whole client frames stays one when a frame is appended |
| `WebSocket.ReadsWhatWasFramed` | internal/relay/websocket.go:192-272 | off any server frames, whatever their opcodes and sizes, the client reads exactly the messages sections 5.2 to 5.5 of RFC 6455 assign to them if and only if it meets no frame with a reserved opcode, no fragmented or long control frame and none over its limits, or nothing more comes of the first such one: no message the client completes after an irregular frame, none the standard completes from an oversized one on; within its limits it reads at least those messages |
| `WebSocket.ReservedUnnoticed` | internal/relay/websocket.go:251-268 | a reserved opcode makes no difference exactly when it falls amid a message, or starts one that never ends |
| `WebSocket.ReservedFramesRead` | internal/relay/websocket.go:236-268 | a reserved control frame handed out as stream bytes, and a fragmented ping passed over |
| `WebSocket.ReadsLeniently` | internal/relay/websocket.go:203-225 | reserved header bits and longer length forms than needed make no difference to the client |
| `WebSocket.AnswersPings` | internal/relay/websocket.go:236-249 | off any server frames the client answers, in order, one pong with its data for each ping it reads and one close with its data if it stops at a close, and nothing else (sections 5.5.1 to 5.5.3 of RFC 6455) |
| `WebSocket.AnswersWhatItReads` | internal/relay/websocket.go:192-272 | the same from any point in a message, and the reading ends in a close error, with the frame's data, if and only if the last frame read is a close |
| `WebSocket.RefusalReason` | internal/relay/websocket.go:252-268 | which fault each refusal of a frame names |
| `WebSocket.MaskedRefused` | internal/relay/websocket.go:223-230 | a masked frame is refused whatever it carries, for its length if that is over the limit and for its mask otherwise |
| `WebSocket.BacklogKeepsOldest` | internal/relay/websocket.go:370-375 | a full backlog keeps the oldest control texts |
| `WebSocket.CutIsPrefix` | internal/relay/websocket.go:192-272 | a stream cut short yields a prefix of the messages and of the bytes |
| `WebSocket.PiecesJoin` | internal/relay/websocket.go:386-399 | the pieces of a write are non-empty, within the limit, and join to the buffer |
| `WebSocket.WsConn.WriteFrame` | internal/relay/websocket.go:295-327 | what is on the wire decodes to the frames sent, this one last |
| `WebSocket.WsConn.Write` | internal/relay/websocket.go:386-399 | the stream written grows by exactly the buffer |
| `WebSocket.WsConn.ReadFrame` | internal/relay/websocket.go:192-272 | one whole message or the error, the reader's place, and the pongs and the close answered on the way, which are those of `WebSocket.AnswersPings` |
| `WebSocket.WsConn.Read` | internal/relay/websocket.go:361-383 | the bytes handed out are the next of the stream, an error comes only at its end, control text goes to the backlog until that is full, and every ping and close read on the way has been answered |
| `WebSocket.WsConn.NextControl` | internal/relay/websocket.go:330-358 | the next control text, with no stream byte lost or moved |
| `WebSocket.WsConn.AwaitPeer` | internal/relay/relay.go:179-212 | waiting for the peer writes nothing to the stream and loses none of it, and succeeds only on a pairing notice it has read |
| `WebSocket.ListenAndWrite` | internal/relay/relay.go:146-158 | a host that listens and then writes has written something only if a pairing notice is among the control texts it read |
| `Relay.StepKeeps` | workers/relay/src/index.js:129-316 | every event keeps the session invariant |
| `Relay.RunKeeps` | workers/relay/src/index.js:129-316 | over every interleaving: `partners` is a fixed-point-free involution of hosts and guests with at most MAX_PAIRS pairs, the standby is unpaired, its timer runs exactly while it waits, the expiry timer runs while there is a standby or a pair, at most MAX_SESSION_BYTES are forwarded, streams match, notices name the authenticated peer |
| `Relay.RelaysPrefix` | workers/relay/src/index.js:191-221 | a joined socket has received a prefix of its mate's frames and nobody else's, all of them while paired |
| `Relay.Sending` | workers/relay/src/index.js:163-221 | every item an event sends: a frame to the sender's partner, `waiting` to a host that joins, `paired` with the authenticated peer to both sides of a new pair, a pong to who pinged, nothing else |
| `Relay.CutTouchesOwnPair` | workers/relay/src/index.js:214-246 | an event that ends one conversation, a disconnect or a failed send, changes nothing about any socket outside it |
| `Relay.SpokenInTwo` | workers/relay/src/index.js:191-221 | what a joined socket sent is what it sent before it was joined, which a guest never does, and what it sent since |
| `RelayRuns.MeterIsTotal` | workers/relay/src/index.js:200-207 | over every run the meter equals the size of all binary frames within the frame limit, from either side, paired or not, across shutdowns |
| `RelayRuns.LimitExactly` | workers/relay/src/index.js:206-210 | a frame within the frame limit that takes the run's total over the session limit closes every live socket with that code, and nothing else does |
| `RelayRuns.OneDirectionCutOff` | workers/relay/src/index.js:206-210 | a run in which a direction is cut off when each has carried half the limit |
| `RelayRuns.SenderLeftOpen` | workers/relay/src/index.js:214-221 | a run in which a failed forward leaves its sender open and unpaired |
| `RelayRuns.EarlyFrameLost` | workers/relay/src/index.js:212-213 | a run in which a frame sent before the pairing reaches nobody |
| `Relay.WhoStaysOpen` | workers/relay/src/index.js:214-246 | of the sockets that leave a pair, exactly the one whose own event ended it is not closed |
| `Relay.WhoIsAdmitted` | workers/relay/src/index.js:141-146 | a guest is refused exactly when no host waits or four conversations are live |
| `RelayEnds.StandbyAfter` | workers/relay/src/index.js:163-300 | who waits after each event |
| `RelayEnds.ClosesExactly` | workers/relay/src/index.js:163-300 | an event closes a socket if and only if the socket is live before it and not after it, unless it has itself gone or is the sender of a frame that could not be passed on |
| `RelayEnds.CodesAt` | workers/relay/src/index.js:163-300 | the code of every close: replaced by a newer host, the limit a frame broke, peer left, expired |
| `RelayEnds.NoSocketForgotten` | workers/relay/src/index.js:129-316 | over every run an admitted socket waits or is paired if and only if it was not closed, has not gone and is not the sender of a frame that could not be passed on |
| `RelayEnds.GoneIsForgotten` | workers/relay/src/index.js:223-232 | over every run no table holds anything of a socket that has gone |
| `RelayEnds.TimersOff` | workers/relay/src/index.js:223-282 | both timers are off after a shutdown and when the last socket has gone |
| `RelaySession.Session.Join` | workers/relay/src/index.js:129-188 | the object after a join, its notices and closes, are those of the event (which closes those are: `RelayEnds.ClosesExactly`) |
| `RelaySession.Session.Message` | workers/relay/src/index.js:192-221 | the object after a binary frame |
| `RelaySession.Session.HandleControl` | workers/relay/src/index.js:248-256 | the object after a control text |
| `RelaySession.Session.Teardown` | workers/relay/src/index.js:223-232 | the object after a close or error event |
| `RelaySession.Session.Expire` | workers/relay/src/index.js:284-288 | the object after the expiry timer |
| `RelaySession.Session.UnpairedTimeout` | workers/relay/src/index.js:290-300 | the object after the unpaired timer |
| `RelaySession.Session.Shutdown` | workers/relay/src/index.js:274-282 | every live socket closed with the code, nothing kept but the byte count |
| `Pipe.EndToEnd` | internal/relay/websocket.go:361-399 | through masking, any run of the relay, any server framing and cuts at every stage, what one client reads is a prefix of what the other wrote from its pairing on, with no control text in it, and all of that when nothing is cut; it is a prefix of all the other wrote if and only if nothing was written before the pairing or what is read repeats exactly that |
| `Pipe.GuestLosesNothing` | workers/relay/src/index.js:173-185 | a guest is joined as it is admitted, so nothing it writes is lost at the front |
| `Pipe.DisciplinedLosesNothing` | internal/relay/relay.go:179-212 | over every run, a client none of whose bytes reach the relay before its pairing notice was sent loses nothing at the front |
| `Pipe.AwaitingLosesNothing` | internal/relay/relay.go:146-212 | over every run, a host served by a client that writes only once it has read its pairing notice loses nothing at the front |
| `Pipe.EarlyWriteLost` | workers/relay/src/index.js:212-213 | a run in which what the guest is sent is no prefix of what the host sent |
| `Registry.RunKeeps` | workers/phonebook/src/index.js:165-332 | over every run the two tables agree with the log of accepted requests, and the guard remembers every one of them or has outlived it |
| `Registry.IssuedAtIncreases` | workers/phonebook/src/lib/db.js:122-137 | per ID, accepted `issued_at` values strictly increase over the whole run, across garbage collection and the rounding to seconds |
| `Registry.GuardIsExact` | workers/phonebook/src/lib/auth.js:74-78 | a request is granted if and only if it is signed by the key its ID commits to, in the clock window, within the limits, well formed and about its own path, stands on an active row for a heartbeat and on a known one for a delete, and is newer than every request ever accepted for its ID |
| `Registry.OnlyOwnersWrite` | workers/phonebook/src/lib/auth.js:31-65 | over every run each accepted request verifies under the key its ID commits to, is within the clock window and the limits, well formed and about its own path, and every row's key is that of such a register |
| `Registry.StrangersLearnNothing` | workers/phonebook/src/lib/auth.js:31-65 | without a valid signature by the ID's key a request is refused, changes nothing, and gets an answer that does not depend on the tables |
| `Registry.RefusalNamesFault` | workers/phonebook/src/index.js:165-332 | every answer names a fault the request has, and a grant that it has none |
| `Registry.CreatedStays` | workers/phonebook/src/lib/db.js:22-60 | a row's creation time is that of the register that made it until the row is collected |
| `Registry.CollectionRemoves` | workers/phonebook/src/lib/db.js:122-137 | a collection leaves nothing of the rows it took, the others as they were, and no stale row unless its batch was full |
| `Registry.NoReplay` | workers/phonebook/src/index.js:165-332 | no envelope is accepted twice, under any kind of request |
| `Registry.NoAddressLeft` | workers/phonebook/src/lib/db.js:76-83 | addresses are stored for exactly the unrevoked registrations |
| `Registry.LookupRefinesLog` | workers/phonebook/src/lib/db.js:93-114 | a lookup is online with a key and addresses if and only if the last register, unrevoked, says so and the last accepted request is within 300 s |
| `Registry.LookupOtherwise` | workers/phonebook/src/lib/db.js:93-114 | over every run an offline answer gives the log's last sighting, after an end or past the lifetime, and an unknown ID has had nothing accepted for longer than a tombstone is kept |
| `Registry.Tables.HandleRegister` | workers/phonebook/src/index.js:165-224 | answer and tables after a register are those `Registry.GuardIsExact` and `Registry.OnlyOwnersWrite` speak of |
| `Registry.Tables.HandleHeartbeat` | workers/phonebook/src/index.js:277-300 | answer and tables after a heartbeat are those `Registry.GuardIsExact` and `Registry.OnlyOwnersWrite` speak of |
| `Registry.Tables.HandleDelete` | workers/phonebook/src/index.js:310-332 | answer and tables after a delete are those `Registry.GuardIsExact` and `Registry.OnlyOwnersWrite` speak of |
| `Registry.Tables.GarbageCollect` | workers/phonebook/src/lib/db.js:122-137 | exactly the rows returned by the query, and their addresses, are gone |
| `Entries.RunKeeps` | workers/phonebook/src/lib/entries.js:58-156 | over every run the table agrees with the log of accepted requests |
| `Entries.LookupRefinesLog` | workers/phonebook/src/lib/entries.js:132-141 | a lookup is online with a blob and a last sighting if and only if the log's last publish, unrevoked, carries that blob and its last request is that sighting, within 900 s |
| `Entries.LookupOtherwise` | workers/phonebook/src/lib/entries.js:132-141 | over every run an offline answer gives the log's last sighting, after a revocation or past the lifetime, and an unknown handle has had nothing accepted for longer than a tombstone is kept |
| `Entries.RevokedIsBlank` | workers/phonebook/src/lib/entries.js:112-122 | over every run a revoked row holds no blob, was ended by the last request about it, and is stamped with that request's time |
| `Entries.GrantedExactly` | workers/phonebook/src/lib/auth.js:107-150 | a request is granted if and only if it is signed, in the clock window, within the limits, well formed, about its own path, from the row's key and, unless a delete, newer than the row; every refusal names a fault it has |
| `Entries.OthersCannotTell` | workers/phonebook/src/lib/entries.js:88-122 | to who does not own a handle, a touch or a delete tells nothing about whether it is taken |
| `Entries.OnlySignersWrite` | workers/phonebook/src/lib/auth.js:107-139 | over every run each accepted request verifies, is within the clock window and the limits, well formed and about its own path |
| `Entries.CollectionRemoves` | workers/phonebook/src/lib/entries.js:144-156 | a collection leaves no row it took, the others as they were, and no stale row unless its batch was full |
| `Entries.OwnerFixed` | workers/phonebook/src/lib/auth.js:142-150 | from creation to collection a row keeps its write key, and only verified requests of that key are accepted |
| `Entries.IncreasingIffDeletesNewer` | workers/phonebook/src/lib/entries.js:112-122 | per handle, accepted `issued_at` values strictly increase over a run if and only if each accepted delete is newer than the row it revokes |
| `Entries.ReplayExactly` | workers/phonebook/src/lib/entries.js:112-122 | over every run, an accepted publish sent again within the clock window is granted if and only if the last request accepted about its handle is older than it, and only after an accepted delete stamped before it |
| `Entries.ReplayAfterOlderDelete` | workers/phonebook/src/lib/entries.js:112-122 | a concrete run in which a revoked publish is replayed and the entry is online again |
| `Entries.EntryTable.HandlePublish` | workers/phonebook/src/index.js:348-382 | answer and table after a publish |
| `Entries.EntryTable.HandleTouch` | workers/phonebook/src/index.js:394-416 | answer and table after a touch |
| `Entries.EntryTable.HandleDelete` | workers/phonebook/src/index.js:456-478 | answer and table after a delete |
| `Entries.EntryTable.GarbageCollect` | workers/phonebook/src/lib/entries.js:144-156 | exactly the rows returned by the query are gone |
| `RateLimit.FirstAreAdmitted` | workers/phonebook/src/lib/ratelimit.js:25-63 | in every run a request is admitted if and only if fewer than the limit of its bucket came before it in its aligned window |
| `RateLimit.EnforcedIsRun` | workers/phonebook/src/lib/ratelimit.js:46-63 | a request is a run of one hit per bucket, and passes exactly when all its buckets are reached and all its hits admitted |
| `RateLimit.PassesExactlyWithin` | workers/phonebook/src/lib/ratelimit.js:46-63 | over every run a request passes if and only if each bucket that has a rule and concerns it has had fewer than its limit in the current window; a refused one is told the exact time to the next window of a concerned bucket that is full |
| `RateLimit.ChecksExactly` | workers/phonebook/src/lib/ratelimit.js:47-52 | a request is counted once in each bucket that has a rule and concerns it and in no other, the address first |
| `RateLimit.FirstFullTells` | workers/phonebook/src/lib/ratelimit.js:54-62 | the first full bucket, address before identity, tells the wait, which ends at its next window |
| `RateLimit.CollectionDrops` | workers/phonebook/src/lib/db.js:139-140 | collection keeps exactly the rows of windows started within the last hour |
| `RateLimit.SpanBound` | workers/phonebook/src/lib/ratelimit.js:25-63 | an aligned window admits the smaller of its requests and the limit, and any span of one window length at most twice the limit |
| `RateLimit.CollectionKeeps` | workers/phonebook/src/lib/db.js:139-140 | collection never drops the row of a window still open |
| `RateLimit.RetryReachesNext` | workers/phonebook/src/lib/ratelimit.js:57-58 | the wait a refused caller is told leads exactly to the start of the next window |
| `RateLimit.RetryStartsAfresh` | workers/phonebook/src/lib/ratelimit.js:57-58 | having waited as told, a caller is counted first in the new window |
| `RateLimit.Limiter.Bump` | workers/phonebook/src/lib/ratelimit.js:25-39 | the row and count after one request |
| `RateLimit.Limiter.Enforce` | workers/phonebook/src/lib/ratelimit.js:46-63 | the buckets of a request counted in turn, up to the first over its limit |
| `Base32.Base32Encode` | workers/phonebook/src/lib/identity.js:24-38 | the loop of 32-bit wrapping shifts writes the 5-bit chunking of the input's bit string, for every input |
| `Base32.EncodeInjective` | workers/phonebook/src/lib/identity.js:24-38 | no two inputs, of any lengths, share an encoding |
| `Base32.PushPending` | workers/phonebook/src/lib/identity.js:29-29 | the wrap-around of the accumulator drops only bits already written |
| `Base32.IdLetters` | workers/phonebook/src/lib/identity.js:70-73 | an ID has sixteen letters and determines the ten digest bytes |
| `DialRace.RunKeeps` | internal/connect/connect.go:255-334 | in every interleaving each connection is unmade, with its dialer, in the channel, the open winner, or closed exactly once |
| `DialRace.NothingLeaks` | internal/connect/connect.go:255-334 | when all goroutines have finished, each connection made is the winner, open and of its endpoint, or was closed exactly once |
| `DialRace.FirstSuccessWins` | internal/connect/connect.go:290-316 | the winner is the first success received, and an error is held exactly when a failure was received, at every point of every run |
| `DialRace.NoSenderBlocks` | internal/connect/connect.go:262-282 | the channel always has room for a dialer's report, and the loop never finds it closed |
| `DialRace.NeverStuck` | internal/connect/connect.go:270-325 | until all is over something other than the deadline can happen |
| `DialRace.RunsEnd` | internal/connect/connect.go:255-334 | every step uses up a bounded supply, so every run ends |
| `DialRace.WhatEndsTheLoop` | internal/connect/connect.go:290-316 | receiving an outcome ends the loop if and only if it is the last one or a second success |
| `DialRace.WinnerKeepsWaiting` | internal/connect/connect.go:303-315 | a concrete run in which a winner is held and the loop goes on waiting |
| `DialRace.Collect` | internal/connect/connect.go:290-316 | the loop over what `select` yields computes the turns the machine takes, and stops where they stop |

## Left out

- The cryptographic primitives: Ed25519, X25519, ML-KEM, SHA-256, HKDF and ChaCha20-Poly1305 are parameters with only the laws stated (commutativity, decapsulation, sign and verify, seal and open). SHA-256 has 32-byte output and is otherwise unconstrained.
- Secrecy, forward secrecy and post-compromise security: they need a model of what an adversary knows.
- The expansion of a message key into AEAD key and nonce is part of the suite's seal and open; the two halves of the root KDF are two functions of the suite.
- `Initiate` and `Respond` are modelled as functions from one flight to the next; their reads and writes, their wiping of intermediate secrets, and the channel binding's TLS exporter are not.
- Randomness, clocks and deadlines are inputs; `NeedsRekey`'s time interval is a parameter.
- The mutexes of `Session` and `wsConn`: calls are taken one at a time. Read deadlines, which can cut a WebSocket frame short in the middle, are taken as the end of the input.
- The HTTP upgrade of the WebSocket, and errors of the underlying connection on writing.
- The UTF-8 form of text messages (section 8.1 of RFC 6455): control texts are byte strings here.
- The relay's authentication of a join is an input (role and ID); whether the runtime takes a forwarded frame is an input too.
- The directory's handlers are atomic steps, although v1 and v2 publish read and write in two statements; the signature check, the field checks and the rate limiter's answer are inputs of a request.
- The order in which a v1 lookup lists its candidates, by priority, is the database's.
- LAN discovery, STUN, the trust store, settings, room roster, terminal UI, IPC and update check: input and output, or correct by reading one function.
