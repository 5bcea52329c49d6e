# ULLM: a Dafny model of the protocol core

ULLM runs a language model inside a TEE and streams its answer to a client over an end-to-end encrypted record
protocol, with a transparency log of attestation evidence beside it. This project models the parts of it that carry
state or arithmetic, and proves what they promise over whole runs:

* **Record protocol.** Hybrid handshake on the bytes of its hellos, symmetric and Diffie–Hellman ratchets, the frame
  codec, the replay window, the TEE's streaming loop with key updates, the native client and the WASM client, and a
  network that may drop, reorder, repeat or alter frames (`Bytes`, `Keys`, `Wire`, `WireVectors`, `Replay`,
  `RecordSend`, `RecordReceive`, `FrameOutcomes`, `Delivery`, `Prompts`, `Wasm`, `Postcard`, `Hello`, `Handshake`,
  `EndToEnd`).
* **Transparency log.** Merkle roots, inclusion proofs, the audit, the JSON-lines file and its recovery after a crash
  at any byte, fsync policies, and the heads a gateway serves (`Merkle`, `TreeShape`, `Inclusion`, `Audit`, `LogLine`,
  `LogFile`, `Reopening`, `Durability`, `Heads`).
* **Bounded tables.** The rate limiter, the attestation-nonce registry and the tenant pool, all on the same ordered
  index (`Lru`, `Recency`, `Residency`, `RateLimiter`, `RateBounds`, `LimiterLaw`, `RefusedCalls`, `NonceRegistry`,
  `NonceRuns`, `TenantPool`, `TenantRuns`).
* **Field arithmetic.** The layer circuit with its soundness and completeness, the reference model, two-party shares
  and both KV cloaks (`Field`, `Model`, `Mpc`, `LayerCircuit`, `LayerTheorems`, `LayerBinding`, `LayerChain`,
  `Shuffle`, `ShuffleTheorems`, `ByteCloak`, `MatrixCloak`, `CloakTheorems`).
* **Onion overlay.** Wrapping, peeling and routing (`Onion`, `Overlay`).

How to read it:

* Objects that the source updates in place are classes. Each of their methods is proved equal to a step function on
  values, and the theorems are about runs of those step functions.
* Cryptography is symbolic. Key material is a free term, so two keys are equal only when they were derived in the same
  way. A hash is injective. A sealed frame opens under its own key, nonce and header only. A signature verifies
  exactly when its key signed its message. The onion's AEAD and the circuit's hash are function parameters with their
  assumptions written in the contract.
* Randomness, clocks, HKDF and SHA-256 output, and whatever the network does are parameters. Instants are reals that
  do not go back; token counts are reals.
* Sizes that the source fixes (8 coordinates, 256-byte rows, 131072 nonces, 16384 tenants) are parameters: what is
  proved holds for every size.

Where a promise does not hold of the code, the code is modelled as it is, a lemma gives an input, and another gives
the exact condition:

* A handshake root binds the two hellos only as far as the received bytes are exact encodings, since hellos are hashed
  without framing and decoded without regard to what follows (`Handshake.TrailingByteParts`,
  `Handshake.JoinedAnswersAgree`, `Handshake.RootsAgreeIff`, `Handshake.BindsHellosIff`).
* A client frame carries the number of its key exactly while every earlier send of the epoch fit a record and was
  written, and the TEE takes the first send only (`Prompts.LongPromptStrands`, `Prompts.LostSendStrands`,
  `Prompts.NumberIsKeyIndexIff`, `Prompts.TeeTakesFirstOnly`).
* A switch to any fsync policy keeps that policy's promise, over everything that may follow, exactly when nothing is
  unsynced at the switch (`Durability.SwitchLosesMore`, `Durability.SwitchToAlwaysLoses`,
  `Durability.SwitchKeepsPromiseIff`).
* A served head survives every crash exactly when the entries it covers are on disk; an append between the gateway's
  flush and its snapshot breaks that (`Heads.InterleavedHeadIsLost`, `Heads.ServedHeadStaysTrueIff`).
* Without the rule that entry `i` carries number `i`, two leaf lists can have one root; they do exactly when their
  padded rows are equal (`Merkle.OddLeafRepeats`, `Merkle.RootsAgreeIff`).
* Leaving a refused call out of the rate limiter's run changes no other verdict as long as the table has a slot for
  every tenant; otherwise it may, since a refused call still takes a slot (`RefusedCalls.RefusedCallEvicts`,
  `RefusedCalls.RefusedCallIsFree`).
* The nonce registry forgets early while its clock is below the time to live (`NonceRuns.EarlyReplayAccepted`,
  `NonceRuns.RejectedIff`).

Two places where the comments in the source say something else than the code: the layer circuit's commitments are the
untagged hashes of `x` and `y` (the comments on the instance rows call them tagged), and the tenant pool keeps the
salt across evictions while the module comment calls it fresh. The model follows the code.

## Model

| member | source | states |
|---|---|---|
| `Replay.ReplayWindow.CheckAndUpdate` | crates/ullm-wire/src/replay.rs:50-91 | the bitmap in place does what the value-level check does, verdict and new window |
| `Replay.AdvanceRefines` | crates/ullm-wire/src/replay.rs:52-67 | shifting the bitmap forward keeps it equal to the set of accepted numbers among the last 64 |
| `Replay.CheckRefines` | crates/ullm-wire/src/replay.rs:50-91 | a number is accepted exactly when it is ahead of the highest by at most half the range, or among the last 64 and not yet accepted, number 0 at the start included; the window keeps refining the set |
| `Replay.RefusalSays` | crates/ullm-wire/src/replay.rs:50-91 | a refusal leaves the window as it was and says too far ahead, behind the last 64, or seen before |
| `Replay.WindowRefinesLedger` | crates/ullm-wire/src/replay.rs:50-91 | over every call sequence the verdicts are those of the unbounded set of accepted numbers |
| `Replay.NoNumberAcceptedTwice` | crates/ullm-wire/src/replay.rs:50-91 | over every call sequence no number is accepted twice |
| `Keys.DhStepAgrees` | crates/ullm-crypto/src/ratchet.rs:118-131 | both ends of a Diffie–Hellman step reach the same root and keys |
| `Keys.RecordKeysDistinct` | crates/ullm-crypto/src/ratchet.rs:35-72 | message keys are equal only for the same handshake root, epoch, direction and position, within a session and between sessions |
| `Keys.RootStaysHidden` | crates/ullm-crypto/src/ratchet.rs:118-131 | if the handshake root cannot be derived, no later root can, whatever update points are known |
| `Keys.RecordKeysHidden` | crates/ullm-crypto/src/ratchet.rs:35-99 | if the handshake root cannot be derived, no message key of any epoch can |
| `Keys.ChainLeakReveals` | crates/ullm-crypto/src/ratchet.rs:4-9 | forward secrecy: a leaked chain gives away exactly the keys of its own epoch and direction from its position on |
| `Keys.RootLeakReveals` | crates/ullm-crypto/src/ratchet.rs:4-9 | recovery: a leaked root gives away exactly the roots from its epoch up to the first update whose two points are unbroken |
| `Keys.RootLeakRevealsKeys` | crates/ullm-crypto/src/ratchet.rs:118-131 | and the same of every message key under those roots; earlier epochs stay hidden |
| `Keys.KeyLeakReveals` | crates/ullm-crypto/src/ratchet.rs:36-50 | a leaked record key tells no other one |
| `Keys.SaltLeakRevealsNothing` | crates/ullm-crypto/src/ratchet.rs:81-102 | the nonce salt of an epoch, once known, tells no record key of any epoch, direction or frame |
| `Keys.SaltsDistinct` | crates/ullm-crypto/src/ratchet.rs:81-102 | salts of two sessions or of two epochs are different |
| `Keys.DerivationPaths` | crates/ullm-crypto/src/kdf.rs:14-19 | the labels on the way from a root to each of its record keys, and of the salt |
| `Wire.HeaderRoundTrip` | crates/ullm-wire/src/codec.rs:60-104 | reading what was written gives the header back, for every well-formed header |
| `Wire.FrameNonce` | crates/ullm-crypto/src/ratchet.rs:103-111 | the in-place XOR computes the salt with the 128-bit counter of epoch and number XORed in |
| `Wire.NonceBytesInjective` | crates/ullm-crypto/src/ratchet.rs:103-111 | under one salt, different epochs or numbers give different nonces |
| `Wire.NonceLayout` | crates/ullm-crypto/src/ratchet.rs:104-113 | bytes 0..12 of a nonce are the salt's, 12..16 the salt's with the epoch, 16..24 the salt's with the number |
| `Wire.ControlRoundTrip` | crates/ullm-wire/src/control.rs:23-84 | every encodable control body decodes to itself |
| `Wire.ControlDecodesOnlyEncodings` | crates/ullm-wire/src/control.rs:64-106 | whatever bytes decode are exactly the encoding of the result |
| `Wire.FrameRoundTrip` | crates/ullm-wire/src/codec.rs:23-58 | every frame within the size limit decodes to its header and plaintext |
| `Wire.OpenedFrameIsUnaltered` | crates/ullm-wire/src/codec.rs:46-58 | a packet with a sealed body that opens has the sender's header, salt and plaintext, byte for byte |
| `Wire.OpensIff` | crates/ullm-wire/src/codec.rs:36-104 | which frames open at all, byte for byte: version, type, the repeated epoch and number, key, salt and the very header |
| `WireVectors.HeaderVector` | crates/ullm-wire/src/codec.rs:60-104 | a sample header, byte for byte |
| `WireVectors.FrameTypeVectors` | crates/ullm-wire/src/frame.rs:6-13 | the byte of each frame type |
| `WireVectors.ControlVectors` | crates/ullm-wire/src/control.rs:23-84 | a sample of each control body, byte for byte |
| `WireVectors.ClientHelloLayout` | crates/ullm-handshake/src/messages.rs:57-70 | where the fields of a client hello stand on the wire |
| `WireVectors.ServerHelloLayout` | crates/ullm-handshake/src/messages.rs:71-83 | where the fields of a server hello stand on the wire |
| `WireVectors.SuiteVector` | crates/ullm-handshake/src/messages.rs:57-69 | a sample cipher suite, byte for byte |
| `WireVectors.InnerVectors` | crates/ullm-overlay/src/layer.rs:40-45 | a layer's content with and without a next hop, byte for byte |
| `RecordSend.TeeStream.SendFrame` | crates/ullm-tee/src/service.rs:498-509 | one ratchet step, and the frame appended exactly when it encodes |
| `RecordSend.TeeStream.RotateKeys` | crates/ullm-tee/src/service.rs:512-548 | the update goes out under the old keys; then root, chains, salt, epoch and counters are those of the next epoch |
| `RecordSend.TeeStream.StreamChunk` | crates/ullm-tee/src/service.rs:486-548 | a chunk, and a key update when one is due |
| `RecordSend.TeeStream.ServeTurn` | crates/ullm-tee/src/service.rs:486-572 | the loop sends what the step function sends, up to the end-of-turn marker or the first chunk that does not fit |
| `RecordSend.StreamFollowsSchedule` | crates/ullm-tee/src/service.rs:486-572 | from any point of a turn the frames are those of a schedule that names epoch and position of every chunk, update and end marker |
| `RecordSend.ServedTurnIsSent` | crates/ullm-tee/src/service.rs:486-572 | a whole turn sends exactly the scheduled frames and succeeds exactly when every chunk fits a record |
| `RecordSend.SentFrameAtPlace` | crates/ullm-tee/src/service.rs:498-546 | frame `k` is sealed under the key of its epoch and position, with the nonce of that epoch and position |
| `RecordSend.ScheduleIncreases` | crates/ullm-tee/src/service.rs:498-546 | epochs and positions of the frames of a turn strictly increase |
| `RecordSend.EpochIsRemainder` | crates/ullm-tee/src/service.rs:486-572 | the epoch field counts key updates modulo 2^32 |
| `RecordSend.NoKeySealsTwoFrames` | crates/ullm-crypto/src/ratchet.rs:35-72 | no key seals two frames of a turn, and none is a client-to-server key of any epoch |
| `RecordReceive.Session.ApplyKeyUpdate` | crates/ullm-client/src/session.rs:280-293 | the client's core steps to the next epoch and nothing else changes |
| `RecordReceive.Session.Send` | crates/ullm-client/src/session.rs:296-316 | a key is drawn in any case; the frame is made when the prompt fits; the counter moves on only if the frame was also written, and at its maximum the call fails |
| `RecordReceive.Session.Round` | crates/ullm-client/src/session.rs:331-374 | one frame: open, epoch check, replay check, dispatch, in the source's order with its error cases |
| `RecordReceive.Session.NextTokenCall` | crates/ullm-client/src/session.rs:331-374 | the loop over the inbox returns the first outcome that is not absorbed |
| `FrameOutcomes.OutOfTurn` | crates/ullm-client/src/session.rs:331-374 | a frame under the right key of another epoch, or with a number seen before, is refused as that and changes neither root nor epoch |
| `FrameOutcomes.DataOutcome` | crates/ullm-client/src/session.rs:331-374 | a DATA frame ends the turn, is a token or is no UTF-8, told from what was sealed |
| `FrameOutcomes.ControlOutcome` | crates/ullm-client/src/session.rs:331-374 | a key update moves the client to the root of the next epoch with a new window; every other control body is refused |
| `FrameOutcomes.EndsRotateAlike` | crates/ullm-client/src/session.rs:158-374 | client and TEE start with the same root, chains, salt and epoch, and a key update brings them in step again |
| `FrameOutcomes.OtherOutcome` | crates/ullm-client/src/session.rs:331-374 | any other type, and a CONTROL frame that encodes no body, is refused as that |
| `FrameOutcomes.ForeignFrameFails` | crates/ullm-client/src/session.rs:331-374 | a frame under any other key or salt fails to open and costs one key |
| `FrameOutcomes.TokensAreText` | crates/ullm-client/src/session.rs:331-374 | every token is UTF-8, whatever arrives |
| `Prompts.SaidFrame` | crates/ullm-client/src/session.rs:296-316 | over every sequence of sends, lost ones included, and key updates, a send makes no frame exactly when it is too long; otherwise its key is that of its place among the sends of the epoch, its number the count of earlier ones that fit and were written |
| `Prompts.NoKeySealsTwoPrompts` | crates/ullm-client/src/session.rs:296-316 | no key seals two of the client's frames in any epoch, and none is a key of the other direction |
| `Prompts.NumberIsKeyIndexIff` | crates/ullm-client/src/session.rs:296-316 | the number of a frame is the index of its key exactly when every earlier send of the epoch fit a record and was written, within the 64-bit counter |
| `Prompts.TeeTakesFirstOnly` | crates/ullm-tee/src/service.rs:439-458 | the TEE takes the frame of a send exactly when it is the first send of the session |
| `Prompts.TeeOutcome` | crates/ullm-tee/src/service.rs:439-458 | the TEE takes a frame under its first client key exactly when it is DATA with number 0 and UTF-8, and names what is wrong with every other |
| `Prompts.SpentKeyStrands` | crates/ullm-client/src/session.rs:297-314 | any first send that spends its key without moving the number, too long or not written, has the next one refused by a TEE that waits for its first prompt |
| `Prompts.LongPromptStrands` | crates/ullm-client/src/session.rs:297-314 | a prompt one byte too long, then a short one: the second is sealed under key 1, numbered 0, and refused by the TEE |
| `Prompts.LostSendStrands` | crates/ullm-client/src/session.rs:297-314 | a short prompt that is not written, then another: the second is sealed under key 1, numbered 0, and refused by the TEE |
| `Delivery.OpenedIsScheduled` | crates/ullm-client/src/session.rs:331-374 | whatever the network delivers, boxes of every other session included, the only frame that opens at a place is the one the TEE sealed for it |
| `Delivery.ScheduledOutcome` | crates/ullm-client/src/session.rs:331-374 | that frame is never refused by the epoch check or the replay window: a chunk gives its text, an update the next epoch, the marker the end |
| `Delivery.UpdateEntersEpoch` | crates/ullm-client/src/session.rs:280-293 | after the n-th update the client holds the root, chains, salt and epoch number under which the TEE seals epoch n |
| `Delivery.CallEnds` | crates/ullm-client/src/session.rs:331-374 | every call, on every inbox, ends at a place of the schedule not before where it started, with the text of the chunk it passed |
| `Delivery.PrefixUntilFirstError` | crates/ullm-client/src/session.rs:331-374 | over any network, texts returned before the first error are a prefix of the texts sent, and a clean end means all of them |
| `Delivery.SubsequenceAlways` | crates/ullm-client/src/session.rs:331-374 | with errors in between, the texts are still a subsequence, each frame taken at most once |
| `Delivery.HonestNetworkDelivers` | crates/ullm-tee/src/service.rs:486-572 | over a faithful network the client returns every chunk in order and then the end, across any number of key updates |
| `Delivery.NothingOpens` | crates/ullm-client/src/session.rs:331-374 | a client whose hidden root no TEE session has opens nothing: every call fails |
| `Wasm.ClientSession.DecryptFrame` | bindings/ts/src/lib.rs:272-330 | the WASM client's step, with a session that is not open refused |
| `Wasm.ClientSession.Encrypt` | bindings/ts/src/lib.rs:239-263 | the native client's send, except that at the counter's maximum no frame comes out; a session that is not open is refused |
| `Wasm.FramesAgree` | bindings/ts/src/lib.rs:272-330 | on any frame the network delivers, both clients accept the same and reach the same keys, salt and epoch |
| `Wasm.EveryPacketAgrees` | bindings/ts/src/lib.rs:272-330 | on every packet from every state within a turn the two clients differ in one place only: the native one refuses a frame of another epoch |
| `Wasm.ClientsAgree` | bindings/ts/src/lib.rs:272-330 | on every inbound sequence up to the end of the turn the two clients give the same results and end in the same core |
| `Hello.ClientRoundTrip` | crates/ullm-handshake/src/messages.rs:57-69 | a client hello with anything behind it decodes to itself and leaves that |
| `Hello.ClientExtends` | crates/ullm-handshake/src/messages.rs:140-142 | what decodes from some bytes decodes from them with more behind |
| `Postcard.VarintInRange` | crates/ullm-handshake/src/messages.rs:135-145 | an integer read from the wire fits its width, however it was spelled |
| `Postcard.Widths` | crates/ullm-handshake/src/messages.rs:135-145 | the two widths are those of `u16` and `u64` |
| `Hello.ServerRoundTrip` | crates/ullm-handshake/src/messages.rs:71-83 | a server hello with anything behind it decodes to itself and leaves that |
| `Hello.TranscriptsAgreeIff` | crates/ullm-handshake/src/transcript.rs:14-29 | two unframed transcripts are the same bytes exactly when the TEE received the client's hello with some bytes behind it and the client received those bytes with the answer behind them |
| `Handshake.HandshakeAgrees` | crates/ullm-handshake/src/state.rs:59-258 | for all randomness, a client that completes against the responder's bytes establishes the same root, keys, transcript and report data |
| `Handshake.HonestHandshake` | crates/ullm-handshake/src/state.rs:59-258 | with a TEE that signs the hash it is given and a client that checks such signatures, the honest handshake succeeds and both sides hold the same: evidence for the client's nonce and the TEE's point, both ratchet points, and keys bound to both hellos |
| `Handshake.CompletedWasAnswered` | crates/ullm-handshake/src/state.rs:111-134 | if only the TEE makes signatures that pass, a client that completes sent a hello that the TEE received, byte for byte |
| `Handshake.AnsweredIff` | crates/ullm-handshake/src/state.rs:179-223 | the TEE answers exactly the hellos of its version and suite with a ciphertext of the right length |
| `Handshake.TakenIff` | crates/ullm-handshake/src/state.rs:116-134 | the client takes exactly the hellos of its version whose signature passes for the hash of its own bytes |
| `Handshake.ReportsAgreeIff` | crates/ullm-handshake/src/state.rs:141-150 | client and TEE compute the same report data exactly when the TEE got the client's nonce, ciphertext and point and the client got the TEE's own point, so evidence of another session does not pass even where roots agree |
| `Handshake.RootsAgreeIff` | crates/ullm-handshake/src/state.rs:116-258 | whatever bytes the network hands to either side, the two roots are equal exactly when the two transcripts are the same bytes, and then the TEE decoded the client's own hello |
| `Handshake.CleanRootsBindHellos` | crates/ullm-handshake/src/state.rs:116-258 | when both sides received exact encodings, the roots are equal exactly when each decoded the hello the other sent |
| `Handshake.BindsHellosIff` | crates/ullm-handshake/src/state.rs:190-243 | the bytes at the TEE make a transcript bind both hellos exactly when, if they decode to the client's hello, they re-encode to themselves |
| `Handshake.BindsServerHelloIff` | crates/ullm-handshake/src/state.rs:124-137 | with the client's hello undisturbed, the transcript binds the server's hello exactly when the bytes received, if they decode to it, re-encode to themselves |
| `Handshake.TrailingByteParts` | crates/ullm-handshake/src/state.rs:215-243 | one byte behind the client's hello: the same hellos on both sides and different roots |
| `Handshake.JoinedAnswersAgree` | crates/ullm-handshake/src/state.rs:116-258 | two answers joined: equal roots while client and TEE hold different server hellos |
| `Handshake.RootHiddenUnlessBothBroken` | crates/ullm-handshake/src/state.rs:116-161 | the client's root can be derived exactly when the KEM part and the Diffie–Hellman part are both broken |
| `EndToEnd.SessionKnowsClient` | crates/ullm-handshake/src/state.rs:179-258 | a TEE session with the client's root received the client's own hello and ratchets against its point, however the bytes were disturbed |
| `EndToEnd.NoSessionNothingOpens` | crates/ullm-client/src/session.rs:158-374 | a client that completed with its KEM part unbroken and whose root no TEE session has: every call fails, with the boxes of all sessions and clients in the network's hands |
| `EndToEnd.SessionDelivers` | crates/ullm-client/src/session.rs:158-374 | one whose root is that of a single session gets a prefix of that session's chunks before the first error and all of them at a clean end, whatever happened to the hellos |
| `EndToEnd.SessionDeliversInOrder` | crates/ullm-client/src/session.rs:158-374 | and if it goes on after errors, what it gets is still a subsequence of that session's chunks, none twice |
| `EndToEnd.UndisturbedDelivers` | crates/ullm-tee/src/service.rs:486-572 | hellos and frames undisturbed and a TEE that signs what it is asked to: the handshake succeeds and the client receives every chunk of the turn in order, then the end |
| `Merkle.NextLevel` | crates/ullm-transparency/src/merkle.rs:45-66 | the loop pairs nodes and repeats an odd last one |
| `Merkle.RootOfLeaves` | crates/ullm-transparency/src/merkle.rs:45-66 | the loop computes the recursive root |
| `Merkle.RootBindsDistinct` | crates/ullm-transparency/src/merkle.rs:45-66 | lists of distinct leaves with one root are equal, lengths included |
| `Merkle.RootBindsLog` | crates/ullm-transparency/src/merkle.rs:37-66 | two logs in which entry i carries number i and which have one root are the same log |
| `Merkle.OddLeafRepeats` | crates/ullm-transparency/src/merkle.rs:45-66 | repeating the last leaf of an odd list leaves the root unchanged |
| `Merkle.RootsAgreeIff` | crates/ullm-transparency/src/merkle.rs:45-66 | without the number rule, two lists have one root exactly when their padded rows are equal |
| `TreeShape.RootIsTree` | crates/ullm-transparency/src/merkle.rs:45-66 | the root the loop computes bottom-up is that of the tree read top-down, split at the largest power of two, a missing right half being a copy of the left |
| `Inclusion.Build` | crates/ullm-transparency/src/inclusion.rs:23-68 | the loop collects the siblings and directions of the path, or nothing past the end |
| `Inclusion.Verify` | crates/ullm-transparency/src/inclusion.rs:79-107 | the loop decides the recursive check, malformed siblings and unequal lengths included |
| `Inclusion.BuiltProofVerifies` | crates/ullm-transparency/src/inclusion.rs:23-107 | every built proof verifies against the root of its log |
| `Inclusion.PathLength` | crates/ullm-transparency/src/inclusion.rs:23-68 | a path is as long as the least d with 2^d at least the log size |
| `Inclusion.DirectionsAreDigits` | crates/ullm-transparency/src/inclusion.rs:23-68 | the directions spell the binary digits of the position |
| `Inclusion.AcceptedEntryIsInLog` | crates/ullm-transparency/src/inclusion.rs:79-107 | whatever proof is accepted against the root of a numbered log, the entry is the log's entry at its number |
| `Audit.CountValid` | crates/ullm-transparency/src/witness.rs:56-67 | counts the distinct trusted witnesses with a valid cosignature |
| `Audit.VerifyInclusionAgainstHead` | crates/ullm-transparency/src/auditor.rs:36-74 | the verdict of the checks in their order, with the error of the first that fails |
| `Audit.AuditIsSound` | crates/ullm-transparency/src/auditor.rs:36-74 | if the audit passes against a head over a numbered log, the entry is the log's at the position it names, the proof is for the head's size, the logger signed the head, the log id is the pinned one, and enough distinct trusted witnesses signed |
| `Audit.AuditIsComplete` | crates/ullm-transparency/src/auditor.rs:36-74 | every honest proof against an honest head passes, with enough cosignatures among whatever else is in the list |
| `Audit.OneFaultIsNamed` | crates/ullm-transparency/src/auditor.rs:36-74 | one fault in an otherwise honest audit is refused under its own name: signature, log id, size, entry, witnesses |
| `LogLine.LineRoundTrip` | crates/ullm-transparency/src/log.rs:403-444 | every written line parses to its entry |
| `LogLine.TornLineFails` | crates/ullm-transparency/src/log.rs:320-349 | no proper prefix of a written line parses |
| `LogLine.ParsedIsFormat` | crates/ullm-transparency/src/log.rs:421-424 | a text that parses is exactly the line of the entry it parses to |
| `LogLine.FieldsAreNamed` | crates/ullm-transparency/src/log.rs:18-28 | in the line of an entry every field stands behind its own JSON name |
| `LogFile.ScanRound` | crates/ullm-transparency/src/log.rs:223-359 | one round of the reopen loop |
| `LogFile.OpenPersistent` | crates/ullm-transparency/src/log.rs:167-397 | the loop and the repair of the tail, for any file content, refusals included |
| `LogFile.RecoversEveryCut` | crates/ullm-transparency/src/log.rs:167-397 | a log file cut at any byte reopens to a prefix of its entries, and the file is again one terminated line per entry |
| `LogFile.SurvivesBelow` | crates/ullm-transparency/src/log.rs:167-397 | every entry whose line lies before the cut survives it |
| `Reopening.ReopenIs` | crates/ullm-transparency/src/log.rs:167-397 | for every file at all: refused exactly when a line that is not blank does not hold the entry of its position, a last line without newline completed if it parses and cut off if it does not, every other line loaded |
| `Reopening.ReopenedInOrder` | crates/ullm-transparency/src/log.rs:167-397 | whatever file opens, its entries are numbered from 0 |
| `Durability.TransparencyLog.SetFsyncPolicy` | crates/ullm-transparency/src/log.rs:139-147 | policy changed, pending counter reset, bytes untouched |
| `Durability.TransparencyLog.Flush` | crates/ullm-transparency/src/log.rs:149-156 | everything written is synced |
| `Durability.TransparencyLog.Append` | crates/ullm-transparency/src/log.rs:403-444 | the entry's number, an entry that decodes to the key, digest and time given, its line on disk, and an fsync exactly when the policy asks for one |
| `Durability.TransparencyLog.Status` | crates/ullm-transparency/src/log.rs:446-452 | size and root of the entries |
| `Durability.StepKeepsInv` | crates/ullm-transparency/src/log.rs:139-444 | append, flush, switch, crash and crash inside an append all keep: the file is one line per entry, the synced mark is at a line end, and the pending count is what is not synced |
| `Durability.CrashRecovers` | crates/ullm-transparency/src/log.rs:167-397 | after a crash that keeps at least the synced bytes, reopening succeeds with a prefix of what was written that includes everything synced |
| `Durability.CrashLossBounded` | crates/ullm-transparency/src/log.rs:139-444 | after any run and a crash of either kind at any byte since the fsync, reopening yields a prefix of what was written with every synced entry; no acknowledged entry is lost under `Always` and at most n-1 under `Periodic(n)` when policies were switched with nothing pending |
| `Durability.HexRoundTrip` | crates/ullm-transparency/src/log.rs:44-52 | the hexadecimal digits of an entry read back as the bytes they were made from |
| `Durability.EntriesSayAppends` | crates/ullm-transparency/src/log.rs:44-444 | after any run and one more crash, entry i of the reopened log carries number i and decodes to exactly what its append was given |
| `Durability.CrashAtMarkLosesUnsynced` | crates/ullm-transparency/src/log.rs:403-444 | a crash at the synced mark loses exactly what was not synced, so the bound is met |
| `Durability.SwitchKeepsPromiseIff` | crates/ullm-transparency/src/log.rs:139-147 | after a switch to any policy, its bound holds in every state of every run without another switch exactly when nothing was unsynced at the switch |
| `Durability.SwitchLosesMore` | crates/ullm-transparency/src/log.rs:139-147 | a run with two switches that leaves three unsynced entries under `Periodic(2)` |
| `Durability.SwitchToAlwaysLoses` | crates/ullm-transparency/src/log.rs:71-143 | one append under `Periodic(3)` and a switch to `Always` leave one unsynced entry where none may be lost |
| `Heads.HeadService.TransparencyHead` | crates/ullm-gateway/src/proxy.rs:252-313 | within the cache time the cached head; otherwise a flush and a newly signed head of the log as it is |
| `Heads.ServedHeadsStayTrue` | crates/ullm-gateway/src/proxy.rs:252-313 | every head served stays the root of the log's first `size` entries in every later state, through any number of crashes under `Always` |
| `Heads.HeadSurvivesEveryCrashIff` | crates/ullm-gateway/src/proxy.rs:252-313 | a true head stays true after every possible crash exactly when its entries are synced |
| `Heads.DurableStays` | crates/ullm-transparency/src/log.rs:139-444 | no event loses a synced entry |
| `Heads.ServedHeadStaysTrueIff` | crates/ullm-gateway/src/proxy.rs:252-313 | after every run, with any policies and any number of crashes, a head that is served, fresh or cached, stays true in every later state exactly when its entries were synced when it was served |
| `Heads.FlushedHeadSurvives` | crates/ullm-gateway/src/proxy.rs:285-304 | a head signed right after its flush stays true in every later state, under any policies and crashes |
| `Heads.CachedHeadIsRecent` | crates/ullm-gateway/src/proxy.rs:252-313 | over every run, a head served from the cache was signed within the last second by an earlier act, was the log's head then, and nothing has crashed since |
| `Heads.InterleavedHeadIsLost` | crates/ullm-gateway/src/proxy.rs:285-304 | under `Periodic(n)` with n at least 2, an append between flush and snapshot gives a head that a crash refutes |
| `Lru.FirstRowIsLeastRecent` | crates/ullm-gateway/src/rate_limit.rs:114-122 | in a coherent index the first row, under any order of the keys, is that of the least recently stamped key |
| `Lru.LeastRecentExists` | crates/ullm-gateway/src/rate_limit.rs:114-122 | a table that is not empty has a least recently stamped key |
| `Lru.StampKeepsCoherent` | crates/ullm-gateway/src/rate_limit.rs:156-179 | stamping a key keeps one row per key, with its own stamp, numbers distinct and in step with instants |
| `Lru.DropKeepsCoherent` | crates/ullm-gateway/src/rate_limit.rs:114-122 | dropping a key with its row keeps the same |
| `Lru.OldestRow` | crates/ullm-gateway/src/rate_limit.rs:114-122 | taking the first row of a coherent index, under any order of the keys, takes the row of the least recently stamped key |
| `Residency.UseKeepsTracks` | crates/ullm-gateway/src/rate_limit.rs:107-168 | any table that stamps the key it uses and drops the least recent when full keeps: stamps in the order of last use, and a key is gone only when `max` others were used since |
| `Residency.HeldIffRecent` | crates/ullm-gateway/src/rate_limit.rs:107-168 | such a table holds exactly the keys followed by fewer than `max` others |
| `Residency.HeldCount` | crates/ullm-gateway/src/rate_limit.rs:107-168 | and is full exactly when `max` keys were ever used |
| `RateLimiter.RateLimiter.EvictFirst` | crates/ullm-gateway/src/rate_limit.rs:114-122 | removing the first row removes the least recently stamped bucket |
| `RateLimiter.RateLimiter.TryCharge` | crates/ullm-gateway/src/rate_limit.rs:107-186 | admission, refill and charge do what the value-level step does, and the index stays exact |
| `RateBounds.PressureIffFull` | crates/ullm-gateway/src/rate_limit.rs:113-139 | in every reachable state the cooldown adds nothing: a new bucket gets the cold seed exactly when the table is full |
| `RateBounds.CallKeepsSound` | crates/ullm-gateway/src/rate_limit.rs:107-186 | every call keeps tokens between zero and the burst, the size within the cap, and the index exact |
| `RateBounds.RunKeepsSound` | crates/ullm-gateway/src/rate_limit.rs:107-186 | every reachable table, with a cap or without, has tokens in range, its size within the cap, and one index row per bucket with its own stamp |
| `RateBounds.RunKeepsBalance` | crates/ullm-gateway/src/rate_limit.rs:107-186 | over every run, bytes granted plus tokens held never exceed seeds plus refill |
| `RateBounds.TotalGrantBounded` | crates/ullm-gateway/src/rate_limit.rs:107-186 | over every run with cap M: at most M full seeds, one cold seed per eviction, and total bytes at most M bursts, an eighth of a burst per eviction and M times the refill |
| `RateBounds.TenantGrantBounded` | crates/ullm-gateway/src/rate_limit.rs:107-186 | from any reachable state, one tenant gets at most a burst, the refill of the elapsed time and an eighth of a burst per readmission |
| `LimiterLaw.GrantedIff` | crates/ullm-gateway/src/rate_limit.rs:107-186 | the exact law, over every run from an empty table: a call is granted exactly when its bytes fit a burst, fit with all the tenant's grants since its admission the seed and the refill since then, and fit with the grants since each of its calls a burst and the refill since that call |
| `LimiterLaw.AllGrantedIff` | crates/ullm-gateway/src/rate_limit.rs:107-186 | all calls of a tenant admitted with a full seed are granted exactly when over every stretch of them it asks for no more than a burst and the refill of that time |
| `LimiterLaw.AdmissionOf` | crates/ullm-gateway/src/rate_limit.rs:107-155 | every call has such an admission, at or before it |
| `LimiterLaw.ResidentIff` | crates/ullm-gateway/src/rate_limit.rs:110-155 | a tenant has a bucket exactly when it called and fewer than `max_tenants` others did since |
| `LimiterLaw.SeedIs` | crates/ullm-gateway/src/rate_limit.rs:113-136 | the seed is an eighth of the burst exactly when as many tenants called before as the table has slots |
| `LimiterLaw.ReachedTable` | crates/ullm-gateway/src/rate_limit.rs:107-186 | the tables of the law are those of the runs the bounds speak of |
| `RefusedCalls.RefusedCallIsFree` | crates/ullm-gateway/src/rate_limit.rs:180-186 | leaving a refused call out of a run changes no other verdict, with a slot for every tenant |
| `RefusedCalls.RefusedCallEvicts` | crates/ullm-gateway/src/rate_limit.rs:113-122 | with one slot, the refused call of one tenant makes the limiter refuse another that it would grant |
| `NonceRegistry.NonceRegistry.Sweep` | crates/ullm-tee/src/nonce_registry.rs:69-77 | the loop over the expired rows leaves exactly the rows and nonces not older than the cutoff |
| `NonceRegistry.NonceRegistry.EvictFirst` | crates/ullm-tee/src/nonce_registry.rs:97-102 | removing the first row removes the least recent of the other nonces |
| `NonceRegistry.NonceRegistry.Record` | crates/ullm-tee/src/nonce_registry.rs:91-111 | stale row dropped, room made at the cap, nonce inserted |
| `NonceRegistry.NonceRegistry.Observe` | crates/ullm-tee/src/nonce_registry.rs:61-118 | verdict and new state are those of the value-level step, and the index stays exact |
| `NonceRuns.CallKeepsInv` | crates/ullm-tee/src/nonce_registry.rs:61-118 | every call keeps: size within the cap, each tracked nonce at its last acceptance, and a nonce is gone only if old, crowded out, pushed out by one at its boundary, or swept early |
| `NonceRuns.RejectedWasAccepted` | crates/ullm-tee/src/nonce_registry.rs:87-92 | a refused nonce was accepted less than the time to live before |
| `NonceRuns.RejectedIff` | crates/ullm-tee/src/nonce_registry.rs:61-118 | a nonce accepted before is refused exactly when its last acceptance is younger than the time to live, no call since came at a later instant still below the time to live, fewer than MAX others were accepted since, and no nonce older than it was accepted again, exactly at its boundary, with MAX-2 others in between |
| `NonceRuns.CrowdedOutIsAccepted` | crates/ullm-tee/src/nonce_registry.rs:61-118 | once MAX others were accepted since, a nonce is accepted again, however young its acceptance |
| `NonceRuns.DisplacedIff` | crates/ullm-tee/src/nonce_registry.rs:91-111 | an acceptance pushes a tracked nonce out exactly when the table is full and that one is the least recent of the others; it then has MAX others behind it, or MAX-1 when the accepted nonce was still tracked at its boundary |
| `NonceRuns.ReplayWindowHolds` | crates/ullm-tee/src/nonce_registry.rs:61-118 | over every run, two acceptances of a nonce less than the time to live apart, with the clock at least the time to live, have at least MAX-1 other nonces accepted in between |
| `NonceRuns.EarlyReplayAccepted` | crates/ullm-tee/src/nonce_registry.rs:68-77 | with the source's constants a nonce is accepted at instant 0 and again at instant 1 |
| `TenantPool.TenantPool.StateFor` | crates/ullm-tee/src/tenant.rs:90-159 | lookup, eviction and insertion do what the value-level step does, and the index stays exact |
| `TenantPool.TenantPool.Allocate` | crates/ullm-tee/src/tenant.rs:168-208 | the slot's cloak key parts are derived from master, salt and session, its sealing key is the tenant's |
| `TenantPool.CloakKeysDistinct` | crates/ullm-tee/src/tenant.rs:181-208 | parts of cloak keys are equal only for the same tenant, session and part |
| `TenantPool.TenantKeysNeedMaster` | crates/ullm-tee/src/tenant.rs:181-208 | salts and cloak keys can be computed exactly with the master secret |
| `TenantPool.SaltLeakIsNoHelp` | crates/ullm-tee/src/tenant.rs:181-208 | a leaked salt gives no cloak key and no other tenant's salt |
| `TenantPool.CloakLabels` | crates/ullm-tee/src/tenant.rs:181-208 | the label of each part |
| `TenantRuns.LookupKeepsInv` | crates/ullm-tee/src/tenant.rs:90-159 | every lookup keeps: whoever was looked up after a resident tenant is resident, and whoever is not resident was followed by at least MAX others |
| `TenantRuns.KekStableIff` | crates/ullm-tee/src/tenant.rs:90-159 | a tenant gets its previous sealing key back exactly when fewer than MAX other tenants were looked up since, and the newly drawn one otherwise |
| `TenantRuns.FirstKekIsDrawn` | crates/ullm-tee/src/tenant.rs:140-158 | a tenant's first lookup returns the newly drawn key |
| `TenantRuns.PoolRuns` | crates/ullm-tee/src/tenant.rs:90-159 | after every run the pool is within its cap and every resident tenant has the salt of master and name, across evictions |
| `Model.RowSum` | crates/ullm-model/src/model.rs:81-87 | the running sum is the bias plus the dot product, reduced |
| `Model.Run` | crates/ullm-model/src/model.rs:75-92 | the loop records input and output of every layer |
| `Mpc.ShareVector` | crates/ullm-mpc/src/share.rs:28-44 | two vectors over the field that add up to the input: the draws, and the input minus the draws |
| `Mpc.OneShareTellsNothing` | crates/ullm-mpc/src/share.rs:28-44 | whatever vector was shared, every other vector has exactly one choice of draws with the same second share |
| `Mpc.ReconstructVector` | crates/ullm-mpc/src/share.rs:52-58 | the only vector the two shares are a sharing of |
| `Mpc.RunShare` | crates/ullm-mpc/src/party.rs:38-60 | a party's activations, with the bias added by one party only |
| `Mpc.LayerKeepsSharing` | crates/ullm-mpc/src/party.rs:43-58 | one layer takes a sharing of x to a sharing of W·x + b |
| `Mpc.SharesSumToPlaintext` | crates/ullm-mpc/src/party.rs:38-60 | for any number of layers and any sharing, the parties' activations add up to the plaintext activation at every layer |
| `Mpc.BiasIsPartyZeros` | crates/ullm-mpc/src/party.rs:38-60 | party zero computes what the model would on its share; the other takes a share of zeros to zeros at every layer |
| `LayerCircuit.Layouter.LoadConstant` | crates/ullm-zk/src/layer.rs:385-406 | the gate and cells of a constant |
| `LayerCircuit.Layouter.MulConstByWitness` | crates/ullm-zk/src/layer.rs:410-431 | copy, gate and cells of a product with a constant |
| `LayerCircuit.Layouter.Add` | crates/ullm-zk/src/layer.rs:434-456 | copies, gate and cells of a sum |
| `LayerCircuit.Layouter.LayRow` | crates/ullm-zk/src/layer.rs:262-269 | the inner loop with its running sum |
| `LayerCircuit.Layouter.Synthesize` | crates/ullm-zk/src/layer.rs:227-357 | the loops lay out exactly the constraints and advice of the recursive definition |
| `LayerTheorems.RowsSound` | crates/ullm-zk/src/layer.rs:261-275 | any assignment that meets the rows has, in every y cell, the bias plus the dot product of its x cells |
| `LayerTheorems.CircuitSound` | crates/ullm-zk/src/layer.rs:227-357 | any field assignment that meets every constraint has y = W·x + b, and the six instance rows are the two commitments and its four identity cells |
| `LayerTheorems.CircuitComplete` | crates/ullm-zk/src/layer.rs:227-357 | every honest witness meets every constraint |
| `LayerBinding.KeyIgnoresWitness` | crates/ullm-zk/src/layer.rs:147-164 | the constraints depend on W and b alone |
| `LayerBinding.ProvableIffTrue` | crates/ullm-zk/src/layer.rs:227-357 | an instance has a satisfying assignment exactly when it commits to some x and to W·x + b |
| `LayerBinding.InstanceInjective` | crates/ullm-zk/src/layer.rs:561-577 | equal instances have equal commitments, layer index, session and weight commitment |
| `LayerBinding.InstanceTells` | crates/ullm-zk/src/layer.rs:561-577 | the commitments, the layer index, the session number, and the weight commitment as low half plus 2^128 times high half |
| `LayerBinding.HalfFits` | crates/ullm-zk/src/layer.rs:483-499 | sixteen little-endian bytes survive reduction when the modulus is at least 2^128 |
| `LayerBinding.AssignmentFixesIdentity` | crates/ullm-zk/src/layer.rs:561-577 | one assignment fits one identity and one pair of commitments only |
| `LayerChain.LinkedProofsIff` | crates/ullm-zk/src/layer.rs:227-357 | with a binding hash, one instance per layer, each output commitment the next input commitment: all are provable exactly when one input of the model has them as the commitments of its activations |
| `Shuffle.FisherYates` | crates/ullm-kvcloak/src/cloak.rs:108-118 | the descending in-place swaps compute the recursive shuffle |
| `Shuffle.ShuffleIsPermutation` | crates/ullm-kvcloak/src/cloak.rs:93-120 | the shuffle is a permutation for every stream of draws |
| `ShuffleTheorems.ShuffleIsBijection` | crates/ullm-kvcloak/src/cloak.rs:104-120 | every permutation comes from exactly one choice of partners, one position up to i for each step i |
| `ShuffleTheorems.SameShuffleIff` | crates/ullm-kvcloak/src/cloak.rs:108-118 | two streams of draws give the same result exactly when each draw is the same modulo the number of positions it picks from |
| `ShuffleTheorems.DrawsOfWritten` | crates/ullm-kvcloak/src/cloak.rs:99-115 | the draws of a stream are the big-endian numbers written into it one after the other |
| `ShuffleTheorems.EveryPermutationIsDerived` | crates/ullm-kvcloak/src/matrix.rs:70-86 | every permutation is derived from some stream |
| `Shuffle.DerivePermutation` | crates/ullm-kvcloak/src/cloak.rs:93-120 | identity, then shuffle: the derived sequence is a permutation |
| `ByteCloak.ApplyKeystream` | crates/ullm-kvcloak/src/cloak.rs:78-91 | the buffer XORed in place with the keystream |
| `ByteCloak.Cloak` | crates/ullm-kvcloak/src/cloak.rs:50-61 | the row XORed with the keystream and gathered along the permutation |
| `ByteCloak.Uncloak` | crates/ullm-kvcloak/src/cloak.rs:64-76 | a row whose cloak is the given one |
| `ByteCloak.CloakUndoes` | crates/ullm-kvcloak/src/cloak.rs:50-76 | a row is the only one with its cloak, for every keystream and stream |
| `ByteCloak.RoundTrip` | crates/ullm-kvcloak/src/cloak.rs:50-76 | uncloak after cloak is the identity |
| `CloakTheorems.CloakedRowTellsNothing` | crates/ullm-kvcloak/src/cloak.rs:50-75 | whatever the permutation, every row has exactly one keystream that turns it into the same cloaked row |
| `CloakTheorems.CloakedByte` | crates/ullm-kvcloak/src/cloak.rs:50-61 | byte i of the cloaked row is byte perm[i] of the row under byte perm[i] of the keystream |
| `CloakTheorems.SourceRow` | crates/ullm-kvcloak/src/cloak.rs:99-102 | a row takes 256 bytes of keystream and four bytes for each of 255 swaps |
| `MatrixCloak.DigestFits` | crates/ullm-kvcloak/src/matrix.rs:143-150 | a digest with its top bits cleared is below the Pallas modulus |
| `MatrixCloak.FromSeed` | crates/ullm-kvcloak/src/matrix.rs:42-88 | every seed gives a lower-triangular matrix with non-zero diagonal and a permutation, with the entries of the digests |
| `CloakTheorems.EveryMatrixIsDerived` | crates/ullm-kvcloak/src/matrix.rs:42-68 | every lower-triangular matrix with entries below 2^254 and no zero on the diagonal comes from some digests |
| `CloakTheorems.SameDigestIff` | crates/ullm-kvcloak/src/matrix.rs:143-150 | two digests are read as the same entry exactly when they agree but for the two top bits |
| `CloakTheorems.ZeroDigestEntry` | crates/ullm-kvcloak/src/matrix.rs:56-68 | where a digest reads as zero the entry is zero, and one on the diagonal |
| `MatrixCloak.MatvecLower` | crates/ullm-kvcloak/src/matrix.rs:117-127 | the accumulator loops compute L·v |
| `MatrixCloak.CloakVector` | crates/ullm-kvcloak/src/matrix.rs:98-105 | P·L·v |
| `CloakTheorems.CloakedCoordinate` | crates/ullm-kvcloak/src/matrix.rs:97-105 | coordinate i of the cloaked vector is row perm[i] of the matrix times the vector |
| `MatrixCloak.InverseMatvecLower` | crates/ullm-kvcloak/src/matrix.rs:130-141 | forward substitution finds a field vector that L takes to b |
| `MatrixCloak.LowerInjective` | crates/ullm-kvcloak/src/matrix.rs:117-141 | L takes different vectors to different ones |
| `MatrixCloak.UncloakVector` | crates/ullm-kvcloak/src/matrix.rs:108-115 | a field vector whose cloak is the given one |
| `MatrixCloak.CloakInjective` | crates/ullm-kvcloak/src/matrix.rs:98-115 | a vector is the only one with its cloak |
| `MatrixCloak.RoundTrip` | crates/ullm-kvcloak/src/matrix.rs:98-115 | uncloak after cloak is the identity, for every prime modulus and valid key |
| `MatrixCloak.CloakLinear` | crates/ullm-kvcloak/src/matrix.rs:98-105 | the cloak of a linear combination is the combination of the cloaks |
| `Field.InverseWorks` | crates/ullm-kvcloak/src/matrix.rs:130-141 | modulo a prime every non-zero element has the inverse Euclid's algorithm finds |
| `Onion.InnerRoundTrip` | crates/ullm-overlay/src/layer.rs:40-45 | every encodable inner record decodes to itself |
| `Onion.PeelShrinks` | crates/ullm-overlay/src/layer.rs:98-119 | whatever bytes arrive, a successful peel returns at least 51 fewer |
| `Onion.PeelIff` | crates/ullm-overlay/src/layer.rs:52-119 | the relay a layer is for peels next hop and content; any other is refused |
| `Overlay.WrapLayers` | crates/ullm-overlay/src/layer.rs:52-93 | the loop from the innermost layer outward builds the nested onion; an empty chain is refused |
| `Overlay.InMemoryRelay.Route` | crates/ullm-overlay/src/relay.rs:43-63 | routing of any bytes terminates, with the outcome of the recursive definition; exactly a delivered payload is queued |
| `Overlay.InMemoryRelay.TakeDelivered` | crates/ullm-overlay/src/relay.rs:65-68 | hands out the queue of delivered payloads and leaves it empty, relays untouched |
| `Overlay.RouteDeliversIff` | crates/ullm-overlay/src/relay.rs:43-63 | for every chain of at least one relay the payload is delivered exactly when every relay is registered under its name, and then the relays peel one layer each in the order of the chain |
| `Overlay.RouteStopsAt` | crates/ullm-overlay/src/relay.rs:43-63 | otherwise it stops at the first relay the registry does not hold, unknown or refused, after the relays before it peeled one layer each |

## Left out

- HTTP, WebSocket, TLS pinning, axum routing, timeouts, metrics and shutdown: plumbing without state of its own.
- The insides of SHA-2, HKDF, the AEADs, X25519, ML-KEM, Ed25519, Poseidon, Halo2 proving and FROST: symbolic or parameters.
- Attestation evidence parsers, multi-vendor counting, the provider pool, session tokens, usage receipts and watcher flags: validation and bookkeeping around the protocols above; not part of this model.
- Several turns on one session and the receipt envelope after a turn: the TEE's loop serves one turn.
- The triple ratchet and the lone rows of `SealedCloakedBlock`: not on the streaming path.
- The in-memory log without a file: its append is the file-backed one without the disk.
- LLM adapters, demos, benches and the generated bindings other than the WASM session: wrappers.
- Replay.CheckRefines: numbers are unbounded naturals; the source's are 64-bit, so the model's window also answers for numbers it can never see.
- RecordSend.TeeStream.ServeTurn: the provider's chunks are given up front; a provider error ends the source's turn like a chunk that does not fit, and a socket error cuts the frames off like a network that drops the rest.
- Wasm.ClientSession.Encrypt: how a session gets from pending to open or poisoned is not modelled.
- Handshake.HandshakeAgrees: attestation evidence and its signature are callbacks with arbitrary results.
- LogLine.LineRoundTrip: the parser reads the lines `append` writes; other spellings of the same JSON object, which serde_json accepts, are refused by the model.
- LogFile.OpenPersistent: the byte order mark, the JSON depth scan and the line length cap are not modelled; no line written by `append` triggers them.
- Durability.TransparencyLog.Append: write and fsync errors, after which the source tells its caller to stop, and saturation of the 32-bit pending counter are not modelled.
- Heads.ServedHeadsStayTrue: crashes under `Periodic` are in Heads.ServedHeadStaysTrueIff; requests that race for the cache are serialized.
- RateLimiter.RateLimiter.TryCharge: instants and tokens are reals instead of 64-bit floats, and the index counter does not wrap.
- NonceRegistry.NonceRegistry.Observe: the index counter does not wrap; an instant below the time to live stands for a clock from which the time to live cannot be subtracted.
- TenantPool.TenantPool.StateFor: the index counter does not wrap.
- LayerTheorems.CircuitSound: the Poseidon gadget is a single constraint that its output is the hash of its inputs; row placement and the permutation argument of Halo2 are not modelled.
- MatrixCloak.RoundTrip: the modulus is any prime; that the Pallas modulus is prime is not proved here.
- EndToEnd.SessionDelivers: that the TEE's own draws give no two sessions one root is a hypothesis, here and in EndToEnd.SessionDeliversInOrder.
- LayerChain.LinkedProofsIff: that the hash binds vectors of the field is a hypothesis about the hash, which is a parameter.
- Handshake.RootsAgreeIff: the ML-KEM secret is a free term of key and ciphertext, implicit rejection included.
- Overlay.RouteDeliversIff: that no layer opens under another relay's key is a hypothesis about the layers of that onion, since no AEAD has it for all messages and keys.
