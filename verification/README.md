# The SPDM transcripts of libspdm

libspdm implements the SPDM protocol (DMTF DSP0274). Both endpoints keep a transcript of what was
said and sign or hash parts of it. If the two sides, or two builds of the library, ever disagree
about one byte of a transcript, signatures fail and session keys differ. This project models how
the common library keeps transcripts and the state around them, and proves when they agree.

The library can be built in two forms. The *recorded* form keeps every message in a buffer and
assembles a transcript when it needs one. The *running* form keeps one hash context per
transcript, absorbs each message as it comes, and forgets it. Which form an endpoint uses is
invisible to its peer, so the forms have to compute the same hashes.

## How the model is laid out

Each state change is a function on values (`Steps`, `SessionTable`, `MessageLog.Step`). The classes
(`RecordedTranscript`, `RunningTranscript`, `PlainTranscript`, `SessionContext`, `PeerKeyStore`,
`ManagedBuffer`, `MessageLogger`) do the same in place, field by field and context by context, and
each of their methods is proved against the corresponding function. The theorems are about the
functions, over every run.

| file | what it holds |
|---|---|
| `Codec`, `ManagedBuffers` | little-endian readers and writers, byte swaps, the bounded buffer |
| `Transcript`, `Steps` | what each transcript consists of; one step of either build |
| `Digests`, `Identities`, `Signing` | hash contexts by handle, certificate chains and raw keys, an abstract signature scheme |
| `PlainTranscript`, `RecordedTranscript`, `RunningTranscript` | the two builds in place |
| `Refinement`, `Handshakes` | when the running build computes what the recorded build computes, failures included |
| `Divergences` | for each way the builds part, a run that shows it |
| `Agreement`, `Parties` | two endpoints in conversation, in any mix of builds, with their own identities |
| `Capacities`, `DigestsWindow`, `HandleLoss` | sizes, the DIGESTS window and lost contexts over whole runs |
| `SessionTable`, `SessionContext` | the session table, as values and in place |
| `PeerKeys`, `TrustAnchor` | public-key contexts in challenge verification; the search for the root certificate |
| `Events`, `MessageLog` | event lists and the message log |

Calls into the cryptographic library may fail at any point: the model lets each of them fail
without a reason. An operation of the running build ends in an `Outcome` that says how far it got,
and a run is a sequence of operations with their outcomes, so the theorems about runs speak of runs
in which anything may fail. They do not say that failures are harmless: where a failure breaks a
property, the condition of the theorem says so. A provider may also be reliable, in which case no
call of it fails; the contracts then say that an operation succeeds whenever the context and the raw
keys it needs are there. The provider states what it demands (a context must be live and absorbing;
a key must be used and freed under the algorithm that created it) as preconditions, so that
verifying a caller shows that no context is used after it was freed, freed twice, or handled under
the wrong algorithm.

## What turned out not to hold everywhere

Each of these has a lemma with the run or input that shows it, and a theorem with the exact
condition under which the property does hold.

- The running form does not always compute what the recorded form computes. `Keeps` gives the
  condition for each operation and outcome, and `StepExact` and `RunsAgreeExactly` show it is exact.
  The runs in `Divergences` show the cases that fail: an append to B after C, a reset of B or C
  alone, a GET_DIGESTS while C is not empty, an append to K or a reset of K after F has started, a
  reset of F before F has started, a message too long for the recorded buffer, and a change to A, D,
  EncapD, the Responder's chain or the mutual chain after a digest has absorbed it. The Responder's
  chain can change in this way when a peer chain is set, or fetched outside the session, between
  KEY_EXCHANGE and FINISH (`ChangedResponder`).
- A failed append is one of these cases whenever there was something to lose. The worst is an append
  to F whose update fails and that is retried: the TH context is rebuilt without K, and the retry
  reports success (`RetryDropsK`). `HandshakeExact` says when TH is right, and `TearDownRestores`,
  `ThResetRestores` and `SignedResetRestores` which resets repair it.
- An honest signature is not always accepted. A running endpoint without a digest refuses what a
  recorded one signs over message A alone (`EmptyTranscriptRefused`). `HonestSignaturesVerify` gives
  the exact condition.
- In the recorded build, ENDPOINT_INFO from a certificate slot is always verified with a classic key.
  With a post-quantum algorithm there is none, and every such signature is refused
  (`PqcEndpointHasNoKey`, `EndpointKindExact`). For the conversations of `Agreement` this is a step
  at which the verifier does not do its part.
- The running form can lose a hash context in three ways: the update in the first append to F fails
  and the append is retried (`RetryLosesBackup`), or a later append to F or to K fails, F is reset and
  appended again (`LaterFailureLosesBackup`, `LateKLosesBackup`). `NeverAtRiskExactly` and
  `SafeOpsExactly` say which callers are safe whatever the provider does.
- The search for a trust anchor stops without a match at a provisioned root of size zero
  (`EmptyRootAnchorsAnything`, `AnchorsMatchExactly`).

Where documentation and code differ, the model follows the code:

- The comments in `include/internal/libspdm_common_lib.h` (lines 367 and 374) give mutual M1/M2 as
  MutB, MutC and L1/L2 as M alone. The code puts message A in front of both since SPDM 1.2.
- `include/library/spdm_requester_lib.h` (lines 1016-1018) documents the log's full mark as "reached
  capacity". The code sets it only when a message exceeds the capacity.

## Model

| member | source | states |
|---|---|---|
| `Refinement.StepExact` | library/spdm_common_lib/libspdm_com_context_data.c:1244-2433 | Given that every live digest has absorbed exactly what the recorded build would assemble, each append, reset, request and change of a certificate chain, however it ends in the provider, keeps that so if and only if `Keeps` holds of the state before the step and the outcome. |
| `Refinement.RunsAgreeExactly` | library/spdm_common_lib/libspdm_com_context_data.c:1244-2433 | The two builds correspond at every point of a run, with any failures in it, if and only if every step of the run is kept. |
| `Refinement.RunsAgree` | library/spdm_common_lib/libspdm_com_crypto_service_session.c:433-654 | Along every kept run, of any length, each live digest finalises to the hash of the transcript the recorded build assembles, for all eight signed transcripts, TH1 and TH2. |
| `Refinement.RunsFromStart` | library/spdm_common_lib/libspdm_com_context_data.c:1244-2433 | Both results from transcripts that have not started. |
| `Refinement.SignedAppendExact` | library/spdm_common_lib/libspdm_com_context_data.c:1558-1890 | An append that succeeds keeps a signed transcript in step exactly when the message is empty, or fits and, if it lands behind a later message of the same transcript, commutes with it. |
| `Refinement.ReorderExact` | library/spdm_common_lib/libspdm_com_context_data.c:1558-1662 | Every message that fits may be appended to B (or MutB) exactly when C (or MutC) is empty or B is full: appending B after C reorders the bytes in the running build only. |
| `Refinement.SignedResetExact` | library/spdm_common_lib/libspdm_com_context_data.c:1256-1340 | Resetting one message of a two-message transcript drops the shared digest, so it is safe exactly when the other message is empty. |
| `Refinement.RequestExact` | library/spdm_common_lib/libspdm_com_context_data.c:1453-1513 | A processed request keeps the correspondence exactly when it is not a GET_DIGESTS that arrives with a non-empty C. |
| `Steps.RequestEmpties` | library/spdm_common_lib/libspdm_com_context_data.c:1453-1513 | What a request empties, message by message: the ten listed requests before authentication empty B, C, MutB and MutC, DELIVER_ENCAPSULATED_RESPONSE then empties B and C, GET_DIGESTS empties B, GET_ENDPOINT_INFO empties E and EncapE and every request but GET_MEASUREMENTS empties M of its own scope; everything else stays. |
| `Steps.RequestDrops` | library/spdm_common_lib/libspdm_com_context_data.c:1453-1513 | The same for the digests of the running build, and that no TH context is touched. |
| `Refinement.ThAppendExact` | library/spdm_common_lib/libspdm_com_context_data.c:1892-2230 | An append to K or F that succeeds keeps the TH correspondence exactly when it is empty or fits and, for K, F has not started. |
| `Refinement.FailedSignedExact` | library/spdm_common_lib/libspdm_com_context_data.c:1558-1890 | An append that fails keeps a signed transcript in step exactly when the transcript was empty and the message adds nothing to it. |
| `Refinement.FailedThExact` | library/spdm_common_lib/libspdm_com_context_data.c:1892-2230 | An append that fails keeps TH in step exactly when it adds nothing, F has not started, and either K was empty (append to K) or the update was not reached (append to F). |
| `Refinement.SafeAppendExact` | library/spdm_common_lib/libspdm_com_context_data.c:1558-2230 | An append is safe whatever the provider does if and only if it appends nothing, not to F, and there is nothing to lose. |
| `Refinement.ThResetExact` | library/spdm_common_lib/libspdm_com_context_data.c:1342-1395 | A reset of K is safe exactly before F has started; a reset of F exactly when F has started or there is no K to lose. |
| `Refinement.CommonExact` | library/spdm_common_lib/libspdm_com_context_data.c:1536-1556 | Changing A, D, EncapD, the Responder's chain or the mutual chain is safe exactly when no live digest has absorbed what changes. |
| `Refinement.DamageIsContained` | library/spdm_common_lib/libspdm_com_context_data.c:1558-2230 | An append, however it ends, puts no transcript out of step but its own. |
| `Refinement.SignedResetRestores` | library/spdm_common_lib/libspdm_com_context_data.c:1256-1340 | A signed transcript that is out of step, however it got there, is restored by resetting one of its messages exactly when the other is empty. |
| `Refinement.ResetBothRestores` | library/spdm_common_lib/libspdm_com_context_data.c:1256-1306 | Resetting both its messages always restores it. |
| `Refinement.ThResetRestores` | library/spdm_common_lib/libspdm_com_context_data.c:1342-1395 | A TH transcript that is out of step is restored by a reset of K alone exactly if F is empty and not started, and by a reset of F alone exactly if that brings back the right context or leaves none where none is due. |
| `Refinement.TearDownRestores` | library/spdm_common_lib/libspdm_com_context_data.c:1342-1395 | Resetting K and F, in either order, restores TH from every state. |
| `Handshakes.HandshakeExact` | library/spdm_common_lib/libspdm_com_context_data.c:1892-2230 | K in non-empty pieces that fit while mutual authentication is settled, then F in such pieces, with processed requests, encapsulated requests, late DIGESTS and appends and resets of any other transcript anywhere in between, each call ending in any way: from any state without a TH context, the running build holds TH1 if and only if every piece of K succeeded, and TH2 if and only if every piece of K and F did; for PSK, certificate, raw-key, multi-key and mutual sessions. |
| `Handshakes.KPieces` | library/spdm_common_lib/libspdm_com_context_data.c:1892-2043 | Over any calls until F starts, the context covers every piece of K, or after a failure is too short ever to do so. |
| `Handshakes.FPieces` | library/spdm_common_lib/libspdm_com_context_data.c:2066-2230 | The same from the start of F on. |
| `Handshakes.GoneForGood` | library/spdm_common_lib/libspdm_com_context_data.c:2066-2230 | Once a started F has lost its context, nothing short of a reset brings one back. |
| `Divergences.BAfterC` | library/spdm_common_lib/libspdm_com_context_data.c:1558-1662 | Run: B appended after C; the running build has C, B and the recorded build B, C. |
| `Divergences.ResetCDiscardsB` | library/spdm_common_lib/libspdm_com_context_data.c:1269-1280 | Run: B, C, reset of C; the running build has lost B. |
| `Divergences.ResetBDiscardsC` | library/spdm_common_lib/libspdm_com_context_data.c:1256-1267 | Run: B, C, reset of B; the running build has lost C. |
| `Divergences.GetDigestsDiscardsC` | library/spdm_common_lib/libspdm_com_context_data.c:1503-1505 | Run: C, then GET_DIGESTS; the running build has lost C. |
| `Divergences.TooLong` | library/spdm_common_lib/libspdm_com_context_data.c:1558-1609 | A message longer than its buffer is absorbed by the running build and refused by the recorded one. |
| `Divergences.KAfterF` | library/spdm_common_lib/libspdm_com_context_data.c:1892-2043 | Run: K, F, K; the second K lands behind F in the running build. |
| `Divergences.ResetFDiscardsK` | library/spdm_common_lib/libspdm_com_context_data.c:1376-1395 | Run: K, reset of F before it started; the running build has lost K. |
| `Divergences.ResetKStrandsF` | library/spdm_common_lib/libspdm_com_context_data.c:1342-1363 | Run: K, F, reset of K; F stays marked as started with no context, and every further append to F is lost. |
| `Divergences.ChangedA` | library/spdm_common_lib/libspdm_com_context_data.c:1536-1541 | Run: B, then more of A; the digest keeps the old A. |
| `Divergences.ChangedD` | library/spdm_common_lib/libspdm_com_context_data.c:1543-1556 | Run: K, then D; the TH context has no D. |
| `Divergences.ChangedResponder` | library/spdm_common_lib/libspdm_com_context_data.c:583-611 | Run: K, then the peer's chain is replaced; the TH context keeps the hash of the old chain, the recorded build hashes the new one. |
| `Divergences.ChangedEncapD` | library/spdm_common_lib/libspdm_com_context_data.c:2045-2064 | Run: F, then EncapD; the TH context has no EncapD. |
| `Divergences.ChangedMutual` | library/spdm_common_lib/libspdm_com_context_data.c:2066-2230 | Run: F, then mutual authentication settled; the TH context has no mutual chain. |
| `Divergences.RetryDropsK` | library/spdm_common_lib/libspdm_com_context_data.c:2066-2230 | Run: K, an append to F whose update fails, the same append again; the TH context is rebuilt without K, whatever K was. |
| `Agreement.HonestSignaturesVerify` | library/spdm_common_lib/libspdm_com_crypto_service.c:808-1217 | Over every kept conversation of two endpoints, each built in either form and each with its own failures, both stay in step with one recorded transcript, and all honest CHALLENGE_AUTH and ENDPOINT_INFO signatures are accepted if and only if at each of them both providers do their part and every running endpoint holds the digest. |
| `Agreement.RecordedEndpointsAlwaysAgree` | library/spdm_common_lib/libspdm_com_crypto_service.c:278-445 | Two recorded endpoints need no discipline: after any appends, resets and signatures in any order both hold the conversation itself, and they are able exactly when the providers are. |
| `Agreement.TwinsAlwaysAgree` | library/spdm_common_lib/libspdm_com_crypto_service.c:278-445 | Two endpoints of the same form stay equal over every run, kept or not (running ones given the same outcomes), and their signatures are accepted exactly if both are able. |
| `Agreement.EmptyTranscriptRefused` | library/spdm_common_lib/libspdm_com_crypto_service.c:409-445 | Input: before any message, a running endpoint refuses what a recorded one signs over A alone, and cannot sign what a recorded one would verify. |
| `Agreement.ConversationsAgreeOnTh` | library/spdm_common_lib/libspdm_com_crypto_service_session.c:433-654 | After every kept conversation, endpoints in any mix of forms that hold TH compute the same TH1 or TH2 hash, that of the recorded transcript. |
| `Agreement.JointStep` | library/spdm_common_lib/libspdm_com_crypto_service.c:808-910 | One joint step keeps both endpoints in step; a signature is accepted if and only if both sides are able to hash the transcript (the Requester verifies what the Responder signs and the other way round). |
| `Signing.SignatureCovers` | library/spdm_common_lib/libspdm_com_crypto_service.c:808-910 | What is signed and verified, in bytes: a Responder's CHALLENGE_AUTH is over A, B and C, a Requester's over MutB and MutC behind A since 1.2, ENDPOINT_INFO over A and E or EncapE of its scope; exactly those messages are reset. |
| `Agreement.ChallengeRun` | library/spdm_common_lib/libspdm_com_crypto_service.c:1004-1040 | Run: B, C, then a Responder's CHALLENGE_AUTH; signer and verifier hash A, B, C in either build. |
| `Agreement.MutualChallengeRun` | library/spdm_common_lib/libspdm_com_crypto_service.c:278-399 | Run: MutB, MutC, then a Requester's CHALLENGE_AUTH. |
| `Agreement.EndpointInfoRun` | library/spdm_common_lib/libspdm_com_crypto_service.c:449-569 | Run: E or EncapE, in or out of a session, then the ENDPOINT_INFO signature. |
| `Agreement.ConsumeKeepsSim` | library/spdm_common_lib/libspdm_com_crypto_service.c:1246-1385 | Consuming a signed transcript resets both its messages together and so keeps the two builds in correspondence. |
| `Parties.PartiesAgreeOnTh` | library/spdm_common_lib/libspdm_com_crypto_service_session.c:433-654 | A Requester and a Responder, each in either build, each finding the chains in its own slots and processing the session in calls of its own, compute the same TH1 and TH2: those due, byte for byte, for the certificate the Responder presents and, under mutual authentication, the one the Requester presents; or both miss the same raw key. |
| `Parties.PartyComputesTh` | library/spdm_common_lib/libspdm_com_crypto_service_session.c:433-654 | Each party alone computes TH1 and TH2 as they are due, byte for byte, for what was said and the two certificates. |
| `Parties.PartyFindsHashes` | library/spdm_common_lib/libspdm_com_context_data.c:1892-1960 | In either build a Requester finds the hash of its peer's certificate for the Responder's and of its own for the Requester's, and a Responder the other way round. |
| `Transcript.FinishExtendsExchange` | library/spdm_common_lib/libspdm_com_crypto_service_session.c:10-291 | Two separate assemblies: what th_for_exchange assembles is a prefix of what th_for_finish assembles from its own seven parts, and the rest is exactly EncapD (multi-key Requester) and the mutual chain hash when mutual authentication was requested, then F. |
| `Transcript.FinishDeterminesComponents` | library/spdm_common_lib/libspdm_com_crypto_service_session.c:173-291 | With equal component lengths, equal TH2 transcripts have equal A, D, chain hashes, EncapD, K and F. |
| `Transcript.FinishAloneDeterminesNothing` | library/spdm_common_lib/libspdm_com_crypto_service_session.c:173-291 | Without equal lengths they need not: a byte moved from the end of K to the start of F leaves TH2 unchanged. |
| `Transcript.AssembledBytes` | library/spdm_common_lib/libspdm_com_crypto_service.c:164-569 | All eight signed transcripts byte for byte, at SPDM 1.1 and from 1.2 on. |
| `Transcript.AssembliesFit` | include/internal/libspdm_common_lib.h:196-295 | If every component is within its declared size, every assembled transcript is within its declared buffer size. |
| `Capacities.EveryAssemblyFits` | include/internal/libspdm_common_lib.h:196-295 | After any conversation, of any length, each of the eight signed transcripts and TH1 and TH2 fit the buffers they are assembled in. |
| `Capacities.StepKeepsBounded` | library/spdm_common_lib/libspdm_com_context_data.c:1536-2433 | Every operation keeps every message buffer within its declared size. |
| `Capacities.MaximalMessagesFit` | include/internal/libspdm_common_lib.h:190-278 | Every message buffer has room for its messages with all fields at their maximum, and for not one byte more. |
| `Capacities.PskMessagesFit` | include/internal/libspdm_common_lib.h:242-268 | PSK_FINISH and its response fit F; PSK_EXCHANGE and its response fit K exactly if hint and contexts are no longer than what KEY_EXCHANGE has in their place. |
| `Capacities.FullAssembliesFillTheirBuffers` | include/internal/libspdm_common_lib.h:280-295 | The assembly buffers are no larger than they have to be. |
| `DigestsWindow.OnlyFirstDigestsCounts` | library/spdm_common_lib/libspdm_com_context_data.c:1543-1556 | Over every run since a restart, the DIGESTS in the transcript is the first that arrives before any other request; if there is none, or another request came first, none is ever stored. |
| `DigestsWindow.SettledStays` | library/spdm_common_lib/libspdm_com_context_data.c:1515-1534 | A stored DIGESTS stays, and a closed window stays closed, until a restart. |
| `DigestsWindow.LastRestartDecides` | library/spdm_common_lib/libspdm_com_context_data.c:1249-1254 | Over every run from any state, the DIGESTS in the transcript is decided by what came since the last reset: the first DIGESTS that no other request preceded, or none. |
| `DigestsWindow.BuildsShareCommon` | library/spdm_common_lib/libspdm_com_context_data.c:2045-2064 | After any run, whatever failed in it, both builds hold the same A, D, EncapD and windows. |
| `HandleLoss.NeverAtRiskExactly` | library/spdm_common_lib/libspdm_com_context_data.c:2066-2230 | A caller that looks for this before every append to F is safe whatever the provider does next, and only such a caller is: no turn that any call of the run could take loses a context if and only if the run is never at risk. |
| `HandleLoss.SafeOpsExactly` | library/spdm_common_lib/libspdm_com_context_data.c:2066-2230 | For a caller that does not look: a sequence of operations loses no context under any outcomes if and only if it resets K between any two appends to F. |
| `HandleLoss.CarefulRunLosesNothing` | library/spdm_common_lib/libspdm_com_context_data.c:1342-1363 | A run in which every failed append to K or F is followed by a reset of K loses no context. |
| `HandleLoss.RetryLosesBackup` | library/spdm_common_lib/libspdm_com_context_data.c:2066-2230 | Concrete run: an append to F whose update fails, then a retry; one context is lost. |
| `HandleLoss.LaterFailureLosesBackup` | library/spdm_common_lib/libspdm_com_context_data.c:1376-1395 | Run: F started, a later append fails, F is reset and appended again; one context is lost. |
| `HandleLoss.LateKLosesBackup` | library/spdm_common_lib/libspdm_com_context_data.c:1892-2043 | Run: F started, an append to K fails, F is reset and appended again; one context is lost. |
| `HandleLoss.StepKeepsBackup` | library/spdm_common_lib/libspdm_com_context_data.c:1892-2230 | While a backup exists only with F under way, no step loses a context, and every step that does not fail keeps it so. |
| `RunningTranscripts.RunningTranscript.AppendSigned` | library/spdm_common_lib/libspdm_com_context_data.c:1558-1890 | Appends to a signed transcript, creating the digest from message A (since 1.2 where the version matters) on first use; the new state is the running step, and on any failure the context is freed and its reference cleared. |
| `RunningTranscripts.RunningTranscript.AppendK` | library/spdm_common_lib/libspdm_com_context_data.c:1892-2043 | The running step for K: context created from A, D and the chain hash; a failure leaves no context behind, and a missing raw key is reported exactly when one is needed and was never provisioned; the chain hash is that of the peer for a Requester and its own for a Responder. |
| `RunningTranscripts.RunningTranscript.AppendF` | library/spdm_common_lib/libspdm_com_context_data.c:2066-2230 | The running step for F with its five ways to end, each with its cause; a handle is lost exactly when `LosesHandle` holds, and then exactly the old backup. |
| `RunningTranscripts.RunningTranscript.ResetK` | library/spdm_common_lib/libspdm_com_context_data.c:1342-1363 | Frees and clears both TH contexts. |
| `RunningTranscripts.RunningTranscript.ResetF` | library/spdm_common_lib/libspdm_com_context_data.c:1376-1395 | Frees the TH context and makes the backup current; F is no longer started. |
| `RunningTranscripts.RunningTranscript.ResetSigned` | library/spdm_common_lib/libspdm_com_context_data.c:1256-1340 | Frees and clears the digest of the message's transcript. |
| `RunningTranscripts.RunningTranscript.Request` | library/spdm_common_lib/libspdm_com_context_data.c:1453-1513 | Drops exactly the digests the request makes obsolete, which `RequestDrops` lists, and closes the DIGESTS window. |
| `RunningTranscripts.RunningTranscript.ThHash` | library/spdm_common_lib/libspdm_com_crypto_service_session.c:84-122 | Hashes the TH context on a duplicate that is freed on every path: the session's own context and every other context are as before. |
| `RunningTranscripts.RunningTranscript.ThHmac` | library/spdm_common_lib/libspdm_com_crypto_service_session.c:124-169 | The HMAC over that hash, with the same frame. |
| `RunningTranscripts.RunningTranscript.Consume` | library/spdm_common_lib/libspdm_com_crypto_service.c:409-445 | Finalises a signed transcript and resets it, on success and on failure. |
| `RunningTranscripts.RunningTranscript.GenerateSignature` | library/spdm_common_lib/libspdm_com_crypto_service.c:808-910 | Signs the hash of the transcript that ends in the role's own last message (C, MutC, E or EncapE) and drops exactly that digest. |
| `RunningTranscripts.RunningTranscript.VerifySignature` | library/spdm_common_lib/libspdm_com_crypto_service.c:1004-1040 | Accepts exactly what the scheme accepts for the hash of the transcript that ends in the peer's last message, and drops exactly that digest in every case. |
| `RunningTranscripts.RunningTranscript.SetPeerChain` | library/spdm_common_lib/libspdm_com_context_data.c:583-641 | Replacing a peer chain stores its hash, is the step that changes the chain hashes, and touches no context. |
| `RecordedTranscripts.RecordedTranscript.Request` | library/spdm_common_lib/libspdm_com_context_data.c:1453-1513 | Empties exactly the messages the request makes obsolete, which `RequestEmpties` lists, and closes the DIGESTS window. |
| `RecordedTranscripts.RecordedTranscript.Assemble` | library/spdm_common_lib/libspdm_com_crypto_service.c:164-399 | Assembles L1/L2, M1/M2, IL1/IL2 and their mutual and in-session counterparts; the result is the transcript and there is always room. |
| `RecordedTranscripts.RecordedTranscript.Th1Hash` | library/spdm_common_lib/libspdm_com_crypto_service_session.c:433-522 | TH1: the hash of the exchange transcript under the Responder's chain (the peer's for a Requester, its own for a Responder), failing only for a missing raw key (exactly then) or the hash itself, never for space. |
| `RecordedTranscripts.RecordedTranscript.Th2Hash` | library/spdm_common_lib/libspdm_com_crypto_service_session.c:524-654 | TH2: likewise over the finish transcript, with the Requester's chain under mutual authentication; a raw key is reported missing exactly when the Responder's, or under mutual authentication the Requester's, was never provisioned. |
| `RecordedTranscripts.RecordedTranscript.ExchangeParts` | library/spdm_common_lib/libspdm_com_crypto_service_session.c:10-82 | The parts concatenate to the exchange transcript. |
| `RecordedTranscripts.RecordedTranscript.FinishParts` | library/spdm_common_lib/libspdm_com_crypto_service_session.c:173-291 | The seven parts, collected from the first to the last in source order, concatenate to the documented finish transcript. |
| `RecordedTranscripts.RecordedTranscript.GenerateSignature` | library/spdm_common_lib/libspdm_com_crypto_service.c:808-910 | Signs the hash of the bytes the role's signature covers, and resets exactly the messages it covers, whether or not the calculation succeeded. |
| `RecordedTranscripts.RecordedTranscript.VerifySignature` | library/spdm_common_lib/libspdm_com_crypto_service.c:1004-1040 | Accepts exactly what the scheme accepts for the hash of the bytes the peer's signature covers, and resets exactly those messages in every case. |
| `RecordedTranscripts.RecordedTranscript.FindChain` | library/spdm_common_lib/libspdm_com_crypto_service.c:34-131 | Finds the chain of the slot, or the raw key when the slot is the raw-key slot; not found exactly when that key is empty. |
| `RecordedTranscripts.RecordedTranscript.SetPeerChain` | library/spdm_common_lib/libspdm_com_context_data.c:583-598 | Replacing a peer chain is the step that changes the chain hashes, and touches no message. |
| `Identities.RolesFindSameChains` | library/spdm_common_lib/libspdm_com_crypto_service.c:34-131 | What one side finds locally the other finds for its peer. |
| `Identities.WhoseChain` | library/spdm_common_lib/libspdm_com_crypto_service_session.c:461-493 | The Responder's chain is the one in the peer's slot (or the peer's raw key) for a Requester and its own for a Responder; the Requester's, under mutual authentication, the other way round; none under PSK. |
| `Identities.StoredHashesSuffice` | library/spdm_common_lib/libspdm_com_context_data.c:583-641 | The hash stored when a chain was set is the hash the recorded build computes from the chain. |
| `Identities.StoredHashesStay` | library/spdm_common_lib/libspdm_com_context_data.c:583-611 | Replacing a chain in one build and its hash in the other keeps the stored hashes those of the chains. |
| `PlainTranscripts.PlainTranscript.AppendD` | library/spdm_common_lib/libspdm_com_context_data.c:1543-1556 | Accepts and ignores a DIGESTS outside its window or after the first. |
| `PlainTranscripts.PlainTranscript.AppendEncapD` | library/spdm_common_lib/libspdm_com_context_data.c:2045-2064 | The same for the session. |
| `SessionTable.RunsStayConsistent` | library/spdm_common_lib/libspdm_com_context_data_session.c:275-342 | Over every run of assignments, releases, context resets and work inside slots: live IDs are unique, both counters are exact, their sum never exceeds the table, and the latest session is live or none. |
| `SessionTable.AssignRefinesMap` | library/spdm_common_lib/libspdm_com_context_data_session.c:275-312 | Assignment refines insertion into a map from IDs to slots: it succeeds exactly for a valid, new ID with a slot free, changes one free slot and no other, and leaves every other lookup as it was. |
| `SessionTable.FreeRefinesMap` | library/spdm_common_lib/libspdm_com_context_data_session.c:314-342 | Release refines removal: the freed ID no longer resolves, its own counter goes down by one, and nothing else changes. |
| `SessionTable.RunsRefineMap` | library/spdm_common_lib/libspdm_com_context_data_session.c:275-342 | Over every run the live sessions, with their kind, are exactly those of a map of bounded size under the same events: an insertion happens if and only if the ID is valid, new and the map not full. |
| `SessionTable.RoomInMap` | library/spdm_common_lib/libspdm_com_context_data_session.c:290-312 | There is a free slot if and only if fewer sessions are live than the table has slots. |
| `SessionTable.NoResidue` | library/spdm_common_lib/libspdm_com_context_data_session.c:9-141 | What a new session finds in its slot does not depend on anything a previous owner left there. |
| `SessionTable.SessionTypes` | library/spdm_common_lib/libspdm_com_context_data_session.c:40-60 | The session type for each combination of the two capabilities of the two sides. |
| `SessionTable.NewSlot` | library/spdm_common_lib/libspdm_com_context_data_session.c:9-141 | What a new slot holds: fields from the context and the arguments, little-endian sequence numbers from secured-message version 1.2 on, empty transcripts of the declared sizes, no secrets. |
| `SessionTable.LimitsHoldOverRuns` | library/spdm_requester_lib/libspdm_req_common.c:14-30 | If every assignment passes the limit check, no run exceeds the configured number of PSK or DHE sessions. |
| `SessionTable.EncapResolves` | library/spdm_common_lib/libspdm_com_context_data_session.c:182-241 | For each encapsulated context, exactly when it is the one: the session of the last request; the latest session if both sides set the handshake-in-the-clear bit and it is in its mutual authentication flow; else the connection; none exactly for an unknown session. |
| `SessionTable.FreedSessionIsNotResolved` | library/spdm_common_lib/libspdm_com_context_data_session.c:314-342 | Right after a release, the freed session is not resolved, not even as the latest. |
| `SessionTable.FreedStaysFreed` | library/spdm_common_lib/libspdm_com_context_data_session.c:182-241 | Over every run that does not assign its ID again, a freed session is never resolved: not by its ID, and not as the latest. |
| `SessionTable.CountAfterReplace` | library/spdm_common_lib/libspdm_com_context_data_session.c:9-35 | Replacing one slot changes a count by what left and what came. |
| `SessionContexts.SessionContext.InitSlot` | library/spdm_common_lib/libspdm_com_context_data_session.c:9-141 | The slot becomes a function of the context and the arguments alone, and exactly the digest contexts it held are freed. |
| `SessionContexts.SessionContext.AssignSession` | library/spdm_common_lib/libspdm_com_context_data_session.c:275-312 | The table step of assignment, with the contexts of the reused slot freed. |
| `SessionContexts.SessionContext.FreeSession` | library/spdm_common_lib/libspdm_com_context_data_session.c:314-342 | The table step of release, with exactly the freed session's contexts freed. |
| `SessionContexts.SessionContext.ResetSessions` | library/spdm_common_lib/libspdm_com_context_data.c:2992-3068 | Blanks every slot, zeroes both counters and frees exactly the contexts the slots held. |
| `SessionContexts.SessionContext.FindSession` | library/spdm_common_lib/libspdm_com_context_data_session.c:155-179 | Finds the first slot with the ID; the invalid ID is never found. |
| `SessionContexts.SessionContext.EncapViaLastRequest` | library/spdm_common_lib/libspdm_com_context_data_session.c:199-241 | Resolves the encapsulated context as specified. |
| `PeerKeys.PeerKeyStore.VerifyChallenge` | library/spdm_common_lib/libspdm_com_crypto_service.c:1044-1207 | Exactly the live keys of before are live after, on every path: a key parsed for the call is released under the algorithm that created it, a cached key is kept; the verdict is that of the signature under the raw key, the certificate's key or the cached key, by slot and build. |
| `PeerKeys.PeerKeyStore.VerifyEndpointInfo` | library/spdm_common_lib/libspdm_com_crypto_service.c:1388-1545 | The same key accounting for ENDPOINT_INFO; a reliable provider finds no key exactly where `EndpointKind` has none, and otherwise the verdict is that of the signature under the peer's key. |
| `PeerKeys.EndpointKindExact` | library/spdm_common_lib/libspdm_com_crypto_service.c:1435-1443 | ENDPOINT_INFO is verified with the negotiated kind of key, except in the recorded build with a certificate slot and a post-quantum algorithm, where there is none. |
| `PeerKeys.KindForRole` | library/spdm_common_lib/libspdm_com_crypto_service.c:1044-1078 | Which of the four negotiated algorithms each role verifies with. |
| `PeerKeys.PqcEndpointHasNoKey` | library/spdm_common_lib/libspdm_com_crypto_service.c:1435-1443 | Input: a post-quantum algorithm alone and slot 0; CHALLENGE_AUTH has a key, ENDPOINT_INFO has none in the recorded build and has one in the running build. |
| `PeerKeys.PeerKeyStore.FreeLeaf` | library/spdm_common_lib/libspdm_com_crypto_service.c:134-160 | Releases a cached leaf key under the algorithm it was parsed with, once. |
| `PeerKeys.PeerKeyStore.CacheLeaf` | library/spdm_common_lib/libspdm_com_context_data.c:583-641 | Replaces a cached leaf key; a failure leaves none, and no other key is touched. |
| `PeerKeys.PeerKeyStore.ResetConnection` | library/spdm_common_lib/libspdm_com_context_data.c:3025-3042 | Releases every cached key while its algorithm is still known, then replaces the algorithms. |
| `TrustAnchor.VerifyAuthority` | library/spdm_common_lib/libspdm_com_crypto_service.c:708-805 | The search over the provisioned roots, against its specification; as many bytes of the chain are compared as the root has. |
| `TrustAnchor.AnchorIsFirstMatch` | library/spdm_common_lib/libspdm_com_crypto_service.c:708-805 | With every provisioned root of nonzero size, a chain is anchored at k if and only if k is the first match in the contiguous prefix of roots and the chain starts with that root itself, or with a certificate that is no root and was issued by it. |
| `TrustAnchor.NoAnchorExactly` | library/spdm_common_lib/libspdm_com_crypto_service.c:708-730 | No anchor is asked for exactly if slot 0 holds no root or one of size zero. |
| `TrustAnchor.AnchorsMatchExactly` | library/spdm_common_lib/libspdm_com_crypto_service.c:730-766 | The anchor always carries the chain's root hash if and only if no root in the prefix has size zero. |
| `TrustAnchor.EmptyRootAnchorsAnything` | library/spdm_common_lib/libspdm_com_crypto_service.c:730-766 | A later root of size zero anchors every chain that starts with a root certificate and matches nothing before it. |
| `TrustAnchor.SearchStopsAt` | library/spdm_common_lib/libspdm_com_crypto_service.c:730-766 | Where the search stops, and why, as an if and only if. |
| `Events.FindInstance` | library/spdm_common_lib/libspdm_com_event.c:75-106 | Finds the first record with the target ID, or nothing exactly when there is none, and lands where the parser's own steps lead. |
| `Events.ParseAndSend` | library/spdm_common_lib/libspdm_com_event.c:27-73 | Hands exactly the record's fields to the Integrator and reports the start of the next record. |
| `Events.ParseSerialized` | library/spdm_common_lib/libspdm_com_event.c:27-73 | Parsing undoes serialising, whatever follows. |
| `Events.WalkReachesOffsets` | library/spdm_common_lib/libspdm_com_event.c:75-106 | After k steps the parser stands at the start of the k-th record. |
| `MessageLog.RunHolds` | library/spdm_common_lib/libspdm_com_msg_log.c:10-97 | Over every run the log is the first bytes of everything appended while enabled since the last initialisation or reset, and is marked full exactly when some are missing. |
| `MessageLog.FullIsSticky` | library/spdm_common_lib/libspdm_com_msg_log.c:70-97 | Once full, contents and mark stay until initialisation or reset. |
| `MessageLog.EnabledLogRecords` | library/spdm_common_lib/libspdm_com_msg_log.c:10-97 | A log records only once it is enabled, and then what fits, byte for byte. |
| `MessageLog.MessageLogger.AppendLog` | library/spdm_common_lib/libspdm_com_msg_log.c:70-97 | The append step on the caller's buffer. |
| `MessageLog.MessageLogger.InitLog` | library/spdm_common_lib/libspdm_com_msg_log.c:10-23 | Starts an empty, disabled log in the given buffer. |
| `MessageLog.MessageLogger.ResetLog` | library/spdm_common_lib/libspdm_com_msg_log.c:57-68 | Empties and disables the log, keeping the buffer. |
| `ManagedBuffers.ManagedBuffer.Append` | library/spdm_common_lib/libspdm_com_support.c:203-234 | Appends all or nothing. |
| `ManagedBuffers.ManagedBuffer.Reset` | library/spdm_common_lib/libspdm_com_support.c:236-244 | Empties the buffer and zeroes every byte. |
| `ManagedBuffers.ManagedBuffer.Init` | library/spdm_common_lib/libspdm_com_support.c:264-272 | Sets the size and empties. |
| `Codec.ReadAfterWrite` | library/spdm_common_lib/libspdm_com_support.c:133-201 | Reading back n written little-endian bytes gives the value modulo 256 to the n. |
| `Codec.WriteAfterRead` | library/spdm_common_lib/libspdm_com_support.c:133-201 | Writing what was read restores the bytes. |
| `Codec.ReadBack24` | library/spdm_common_lib/libspdm_com_support.c:146-159 | Reading back 24 bits gives the value modulo 2 to the 24. |
| `Codec.ReadBack64` | library/spdm_common_lib/libspdm_com_support.c:178-201 | Reading back 64 bits gives the value. |
| `Codec.ReadUint16` | library/spdm_common_lib/libspdm_com_support.c:133-138 | The little-endian value of two bytes. |
| `Codec.ReadUint24` | library/spdm_common_lib/libspdm_com_support.c:146-152 | The little-endian value of three bytes. |
| `Codec.ReadUint32` | library/spdm_common_lib/libspdm_com_support.c:161-168 | The little-endian value of four bytes, and two 16-bit halves. |
| `Codec.ReadUint64` | library/spdm_common_lib/libspdm_com_support.c:178-189 | The little-endian value of eight bytes, and two 32-bit halves. |
| `Codec.WriteUint16` | library/spdm_common_lib/libspdm_com_support.c:140-144 | Writes two bytes of the buffer and no other. |
| `Codec.WriteUint24` | library/spdm_common_lib/libspdm_com_support.c:154-159 | Writes three bytes and no other; the top byte of the value is cut off. |
| `Codec.WriteUint32` | library/spdm_common_lib/libspdm_com_support.c:170-176 | Writes four bytes and no other. |
| `Codec.WriteUint64` | library/spdm_common_lib/libspdm_com_support.c:191-201 | Writes eight bytes and no other. |
| `Codec.ByteSwapReadsReversed` | include/internal/libspdm_common_lib.h:2113-2125 | A 16- or 32-bit byte swap is the value of the reversed bytes. |
| `Codec.ByteSwapUndoesItself` | include/internal/libspdm_common_lib.h:2113-2125 | Swapping 16 or 32 bits twice gives the value back. |
| `Codec.ByteSwap64ReadsReversed` | include/internal/libspdm_common_lib.h:2101-2111 | A 64-bit byte swap is the value of the reversed bytes. |
| `Codec.ByteSwap64UndoesItself` | include/internal/libspdm_common_lib.h:2101-2111 | Swapping 64 bits twice gives the value back. |

## Left out

- RecordedTranscripts.RecordedTranscript.Append: the twelve recorded messages are values here, not managed buffers of their own; the buffer in place, with its storage and its refusal to overflow, is `ManagedBuffers.ManagedBuffer`, which the assemblies use. That two messages never share storage is therefore not stated.
- PlainTranscripts.PlainTranscript.AppendA: message A is a value for the same reason.
- MessageLog.MessageLogger.AppendLog: requires that the log size plus the message size does not exceed 64 bits. Both are objects in one address space, so the sum does not wrap; the arithmetic of a wrapped sum is not modelled.
- PeerKeys.PeerKeyStore.VerifyChallenge: requires a cached leaf key for a certificate slot in the running build, which the source asserts.
- PeerKeys.PeerKeyStore.VerifyEndpointInfo: requires, besides the cached leaf key, that exactly one of the classic and the post-quantum algorithm was negotiated, which `library/spdm_requester_lib/libspdm_req_negotiate_algorithms.c` (lines 524-536 and 648-660) and its Responder counterpart enforce.
- PeerKeys.KeyProvider.Create: the requester variants of the key functions are not told apart from the plain ones, because they delegate to them (`library/spdm_crypt_lib/libspdm_crypt_asym.c`, lines 1352-1355) and the source itself parses a leaf key with one and releases it with the other.
- Events.FindInstance: requires a well-formed list, as the source does; it has no length to check against.
- TrustAnchor.VerifyAuthority: a root longer than everything that follows in the received chain is a mismatch here; what the source compares beyond the end of the chain is not modelled.
- RunningTranscripts.RunningTranscript.VerifySignature: the key is a parameter; which key it is, and when there is none, is the subject of `PeerKeys`.
- RecordedTranscripts.RecordedTranscript.VerifySignature: the key is a parameter here too.
- One connection and one session at a time carry transcripts; the session table itself has any number of slots. Several sessions share only messages A and D, and `Keeps` covers changes of those under a live digest.
- The NULL or empty local certificate chain that the source rules out with an assertion.
- The cryptographic algorithms, certificate parsing and the signature encodings (the signing contexts of DSP0274): hash, HMAC and signatures are parameters.
- The measurement signature: L1/L2 is assembled, absorbed and reset here like the other signed transcripts, but the functions that sign and verify it are in the requester and responder libraries, which are outside this model.
- The version-indexed capability and algorithm masks and `libspdm_onehot0`: they take part in negotiation, and the model starts after negotiation.
- The event type check (`libspdm_validate_dmtf_event_type`): it relates a type to a length by a fixed table and takes no part in walking the list.
- `libspdm_get_data` and `libspdm_set_data` except the peer certificate chain, chunking, opaque data, secured messages and the key schedule, and the requester and responder handlers: they use transcripts and sessions but do not keep them.
- The order in which handlers call these operations: it is a parameter (the run), and the exact condition on it is what `Refinement` states.
- An encapsulated request outside a session changes no transcript and is not a step of the model.
