# Verification of the governed AI platform's durable core

A Dafny 4 model of the parts of the repository whose correctness spans many calls, many workers or
whole runs, with proofs of what they promise. `dafny verify dfyconfig.toml` checks the project.

- **Conversation store** (`Conversations`, `ConversationSteps`, `ConversationLaws`,
  `ConversationAnswers`, `ConversationStore`, `Intents`, `Locks`). The tables are maps of rows; each transaction is one
  atomic step, and the worker, the retention job and the deletion protocol are further steps bounded
  by the guards the tables carry. `ReachedShape` and the replay lemmas hold over all runs;
  `ConversationAnswers` says condition by condition what each request is answered and writes. `Service`
  runs the same transactions statement by statement with rollback. `Locks` splits them into
  lock-acquiring statements and proves every interleaving serial and free of deadlock.
- **Audit chain and sealing** (`AuditChain`, `AuditAppend`, `Outbox`, `SealingProtocol`,
  `SealingProgress`, `SealingAnswers`, `SealerRunner`, `ClaimLoop`). The protocol's committed steps interleave freely;
  workers may act late, twice or never, and a crash is a step not taken. `Runner` and `Scanner` are
  the services on top, where every statement may fail and other sessions may commit between any two.
- **Canonical JSON and duplicate keys** (`Utf16`, `JsonStrings`, `CanonicalJson`, `DuplicateKeys`).
- **Parity manifest** (`ParityManifest`): validator and formatter.
- **Findings** (`Spans`, `Precedence`).
- **Concurrency and paging** (`BoundedMap`, `Paging`, `Cursor`).
- **Audit bridge** (`AuditBridge`): posture, transaction envelope and client lifecycle.

Cryptography, encodings, UUIDv5 (section 4.3 of RFC 4122), the reading of uuid columns, `JSON.parse`
and KMS are function values about which nothing is assumed but what a contract says: hex is injective
where the chain needs it, intents of different canonical text have different digests
(`CollisionFree`), the text of a list cursor survives UTF-8 and parses (`GoodCodec`), and the derived ids
are uuids as their column spells them, no two captures that are ever taken sharing one (`GoodEnv`). Each
of the three can be met: `Intents.CollisionFreeExists`, `Cursor.GoodCodecExists`,
`Outbox.EnvironmentExists`. Scheduling, failures and other sessions are nondeterministic choices or
scripts.

## Where code and documentation disagree

The model follows the code. Each line names the lemma with the failing input or run and the one with
the exact condition.

- `strictestFinding` is documented to rank the action first; it ranks quality first
  (`Precedence.QualityHidesStrictest`, `Precedence.StrictestAsDocumented`).
- An escalation can lose the strictest external action when externals come before the first native
  finding (`Precedence.ExternalFirstLoses`, `Precedence.EscalationKeepsStrictest`).
- The outbox refuses four of the eight raw-payload keys; a capture that carries one of the other four,
  inserted by a call that by-passes `captureAuditEvent`, is taken, and stalls its chain because the
  builder refuses it at every attempt (`SealingProgress.MessagesCaptureStalls`,
  `SealingProgress.SealsExactly`, `SealingProgress.OnlyUnguardedCapturesStall`).
- `auditAppend` does not check whose chain it writes to, and row-level security hides another tenant's
  head: after such an append the chain's own tenant can never append again
  (`SealingProgress.TrespassedChainStalls`, `SealingProgress.SealsExactly`,
  `SealingProgress.OwnChainsStayOpen`).
- Repeating an append under its explicit id is not always a reuse: the subject id is compared as the
  caller spells it with what its uuid column reads back (`AuditAppend.UpperCaseSubjectDiverges`, for which
  `AuditAppend.UpperCaseSubjectAppends` is an input; `AuditAppend.RepeatIsReuse`).
- The tail verifier accepts chains the full one rejects (`AuditChain.TailAcceptsWhatFullRejects`,
  `AuditChain.FullIsTailNumberedAndLinked`).
- The parity validator is to return findings on every input; it throws on an object with a property
  named toString where it prints one (`ParityManifest.ToStringThrows`,
  `ParityManifest.ValidateFindings`).
- A `failed` outcome of a stale recovery does not mean that the row was failed
  (`SealerRunner.UnrecordedFailure`, `SealerRunner.Runner.MarkFailedTerminal`).
- On the direct routes a failed ROLLBACK is ignored, so a client may go back to the pool inside a
  transaction (`AuditBridge.DirectCaptureMayLeaveOpen`, `AuditBridge.CaptureDirect`).

## Model

| member | source | states |
|---|---|---|
| ConversationLaws.ReachedShape | apps/api/src/ai-conversations/service.ts:443-588 | In every interleaving of creates, patches, forks, sends, worker, retention and deletion steps from an empty database: each conversation has exactly one root branch, each branch's turn numbers are exactly 1..n, no client turn id names two turns, every turn has an attempt 1 and a current attempt of its own lineage, and every fork pins an attempt of its parent branch in a state its boundary mode allows |
| ConversationSteps.StepKeeps | apps/api/src/ai-conversations/service.ts:443-680 | Each single step keeps the whole store invariant and only moves the database forward: rows stay, final attempts never change, statuses follow the lifecycle |
| ConversationSteps.CreateKeeps | apps/api/src/ai-conversations/service.ts:238-277 | Creating a conversation with its root branch keeps the invariant |
| ConversationSteps.PatchKeeps | apps/api/src/ai-conversations/service.ts:376-416 | Renaming, archiving or restoring keeps the invariant |
| ConversationSteps.SendKeeps | apps/api/src/ai-conversations/turn-service.ts:131-206 | A committed send keeps the invariant: the new number extends 1..n, attempt 1 is current, the input item is turn-owned; no branch is added |
| ConversationSteps.NextSeqFits | apps/api/src/ai-conversations/turn-store.ts:75-89 | On a densely numbered branch `MAX(turn_seq) + 1` is above every number in use and every number below it is in use |
| ConversationSteps.ForkKeeps | apps/api/src/ai-conversations/service.ts:443-588 | A committed fork keeps the invariant, and a regeneration fork's branch holds the minted child turn and attempt |
| ConversationSteps.MintKeeps | apps/api/src/ai-conversations/service.ts:625-680 | Minting the regeneration child keeps the invariant and makes it turn 1 of the new branch |
| ConversationSteps.MintCopies | apps/api/src/ai-conversations/service.ts:657-677 | Every turn-owned item of the pinned turn is copied, in order, to fresh content rows holding the same active bytes |
| ConversationSteps.MoveAttemptKeeps | apps/api/src/db/migrations/0031_ai_conversation_storage_foundation.sql:760-948 | The worker may move an attempt along the state ratchet without breaking anything |
| ConversationSteps.MintAttemptKeeps | apps/api/src/db/migrations/0031_ai_conversation_storage_foundation.sql:701-732 | The worker may add an attempt under a free sequence number |
| ConversationSteps.RepointKeeps | apps/api/src/db/migrations/0033_ai_conversation_control_plane.sql:346-399 | The worker may make another attempt of the same turn its current one |
| ConversationSteps.OutputKeeps | apps/api/src/db/migrations/0031_ai_conversation_storage_foundation.sql:411-447 | The worker may add an output item owned by an attempt of its turn |
| ConversationSteps.ShredKeeps | apps/api/src/db/migrations/0031_ai_conversation_storage_foundation.sql:974-998 | Content may be shredded at any time |
| ConversationLaws.ForkReplayIsIdentical | apps/api/src/ai-conversations/service.ts:588-724 | Once a fork committed, the same request at any later state where the conversation is addressable, whatever happened between, loses its candidate, changes nothing, and is answered with the identical branch and child |
| ConversationLaws.LostForkIsAnswered | apps/api/src/ai-conversations/service.ts:682-724 | A lost fork reservation is answered with the committed branch if the two resolved forks are the same and with a conflict otherwise; never with an invariant break |
| ConversationLaws.ForkCopiesInput | apps/api/src/ai-conversations/service.ts:574-586 | A regeneration fork reports a child turn that holds a copy of the pinned turn's input |
| ConversationLaws.ResolvedSend | apps/api/src/ai-conversations/turn-service.ts:294-363 | A lost send is a replay exactly when the stored request is readable and active and names the same branch with a native request equal up to key order; else a conflict |
| ConversationLaws.SendReplayIsExact | apps/api/src/ai-conversations/turn-service.ts:121-220 | After a send committed, the same client turn id at any later state that accepts sends loses the reservation, changes nothing, and is answered from that one turn |
| ConversationLaws.LostSendFindsTheTurn | apps/api/src/ai-conversations/turn-service.ts:294-312 | After losing the reservation the committed turn is found at every later state: the answer is a replay or a conflict of that turn, never a transient loss |
| ConversationLaws.NothingUnderDeletedRoot | apps/api/src/ai-conversations/service.ts:136-156 | Once a root has left the addressable states no run adds a turn or a branch under it |
| ConversationAnswers.CreateWrites | apps/api/src/ai-conversations/service.ts:238-277 | A create is accepted exactly for an identity a new branch may have; it writes an active, untitled conversation of the caller and a root branch of the same identity, and nothing else |
| ConversationAnswers.PatchWrites | apps/api/src/ai-conversations/service.ts:376-416 | A patch is accepted exactly for the caller's own active or archived conversation, and changes its title and archive state as asked and nothing else |
| ConversationAnswers.SendAnswers | apps/api/src/ai-conversations/turn-service.ts:121-220 | Each refusal of a send, the loss and the commit hold exactly under their conditions, in the order of the checks |
| ConversationAnswers.SendWrites | apps/api/src/ai-conversations/turn-service.ts:165-205 | A committed send adds a turn numbered above its branch, its accepted first attempt, one content row with the request and the turn-owned input item that shares it; every other row stays |
| ConversationAnswers.PlanAnswers | apps/api/src/ai-conversations/service.ts:461-535 | A fork is refused for the owner, the source, the pin state or a switch before an output exactly under those conditions; otherwise it runs under the requested provider, surface and model, or the parent's where none is asked for, pinned to the requested attempt and mode |
| ConversationAnswers.ForkWrites | apps/api/src/ai-conversations/service.ts:553-586 | A committed fork adds one branch under the resolved identity with the requested pin, bound to its key; a child exactly before an attempt's output; other branches and bindings stay |
| ConversationAnswers.ForkAnswers | apps/api/src/ai-conversations/service.ts:535-572 | After the plan: a new identity that no branch may have is refused unless the key is bound, and a bound key is lost to |
| ConversationAnswers.RegenerationNeedsIntact | apps/api/src/ai-conversations/service.ts:625-680 | A regeneration copies only content that was not shredded, and is refused as not copyable only when some was |
| ConversationAnswers.StrangerFindsNothing | apps/api/src/ai-conversations/locks.ts:32-63 | Whoever does not own a conversation is told by send, fork and patch that there is none |
| ConversationAnswers.StrangerLeavesTree | apps/api/src/db/migrations/0031_ai_conversation_storage_foundation.sql:1174-1300 | No step of another user changes or adds any row of a conversation, its branches, turns, attempts, items, contents or bindings |
| ConversationAnswers.StrangersLeaveTree | apps/api/src/db/migrations/0031_ai_conversation_storage_foundation.sql:1174-1300 | The same over whole runs |
| Conversations.EdgesByTarget | apps/api/src/db/migrations/0031_ai_conversation_storage_foundation.sql:916-945 | The states from which each attempt state is reached |
| Conversations.StatusesByTarget | apps/api/src/db/migrations/0031_ai_conversation_storage_foundation.sql:589-616 | The statuses from which each status is reached: deletion has no way back |
| ConversationStore.Service.CreateConversation | apps/api/src/ai-conversations/service.ts:238-277 | Statement by statement with rollback: commits exactly the atomic create, or leaves the database as it was |
| ConversationStore.Service.PatchConversation | apps/api/src/ai-conversations/service.ts:376-416 | Commits exactly the atomic patch, or leaves the database as it was |
| ConversationStore.Service.NextTurnSeq | apps/api/src/ai-conversations/turn-store.ts:75-89 | The loop over the branch's rows returns one more than their maximum |
| ConversationStore.Service.FindTurnByClientTurnId | apps/api/src/ai-conversations/turn-store.ts:237-251 | Finds a turn under the client turn id, or there is none |
| ConversationStore.Service.ReserveTurn | apps/api/src/ai-conversations/turn-service.ts:131-206 | The reservation transaction commits the atomic send, or loses or throws with everything rolled back |
| ConversationStore.Service.ResolveCommittedSend | apps/api/src/ai-conversations/turn-service.ts:294-363 | Answers a lost reservation as the specification does |
| ConversationStore.Service.SendTurn | apps/api/src/ai-conversations/turn-service.ts:121-220 | New turn, error with nothing written, or the answer from the committed turn after other sessions committed anything in between; never the transient loss |
| ConversationStore.Service.ListTurnOwnedItems | apps/api/src/ai-conversations/store.ts:582-597 | The turn-owned item numbers in ascending order |
| ConversationStore.Service.MintRegenerationChild | apps/api/src/ai-conversations/service.ts:625-680 | The item-copying loop writes exactly what the specification mints, or fails with its error |
| ConversationStore.Service.ForkCandidate | apps/api/src/ai-conversations/service.ts:455-588 | The candidate transaction commits the atomic fork, or loses or throws with everything rolled back |
| ConversationStore.Service.GetForkMintedChildTurn | apps/api/src/ai-conversations/store.ts:503-521 | Finds the branch's child exactly when there is one |
| ConversationStore.Service.ResolveCommittedFork | apps/api/src/ai-conversations/service.ts:682-724 | Answers a lost fork from its binding as the specification does |
| ConversationStore.Service.CreateFork | apps/api/src/ai-conversations/service.ts:443-613 | New branch, error with nothing written, or the answer from the binding; the invariant-break throws are unreachable |
| ConversationStore.InOrder | apps/api/src/ai-conversations/store.ts:582-597 | Sorts item numbers ascending |
| Intents.ForkHashDecides | apps/api/src/ai-conversations/fork-intent.ts:78-104 | Two forks hash alike exactly when they are the same resolved fork |
| Intents.SendHashDecides | apps/api/src/ai-conversations/send-intent.ts:76-92 | Two sends hash alike exactly when they name one branch of one conversation with native requests equal up to key order |
| Intents.CollisionFreeExists | apps/api/src/ai-conversations/send-intent.ts:60-92 | The assumption on digests can be met, whatever the other primitives are |
| Locks.CommitIsAtomic | apps/api/src/ai-conversations/service.ts:461-588 | What a transaction writes from values read earlier under its locks is what the whole transaction does atomically at its commit |
| Locks.MoveIsAtomic | apps/api/src/ai-conversations/locks.ts:48-83 | Every statement leaves the database alone or is one admissible atomic step of the store |
| Locks.MoveKeeps | apps/api/src/ai-conversations/locks.ts:48-83 | Every statement of every transaction keeps the lock invariant: exclusive roots, exclusive keys, and reads still true |
| Locks.InterleavingIsSerial | apps/api/src/ai-conversations/locks.ts:1-83 | However the statements interleave, the database reached is one that whole transactions run one after the other also reach |
| Locks.NothingCommitsUnderDeletedRoot | apps/api/src/ai-conversations/service.ts:461-484 | With statements interleaved: no turn or branch commits under a root whose deletion committed first |
| Locks.NoDeadlock | apps/api/src/ai-conversations/locks.ts:1-29 | With root before branch, and branch keys that may collide, no set of transactions waits within itself |
| Locks.EveryMoveAdvances | apps/api/src/ai-conversations/turn-service.ts:131-206 | Each move of a transaction brings it nearer its end and leaves the others in place |
| Locks.SomeoneProceeds | apps/api/src/ai-conversations/locks.ts:48-83 | While a transaction is unfinished one of them can take its next step or throws by itself |
| JsonStrings.QuoteRoundTrip | scripts/lib/parity-core.ts:208-231 | Quoting a string, reading the raw body up to the closing quote and decoding it gives the string back (section 7 of RFC 8259) |
| JsonStrings.QuotePrefixFree | packages/core-audit/src/canonical-json.ts:28-30 | Quoted strings are a prefix-free code |
| CanonicalJson.RenderPrefixFree | packages/core-audit/src/canonical-json.ts:19-56 | No printed value is a prefix of another where a delimiter follows |
| CanonicalJson.Alphabet | packages/core-audit/src/canonical-json.ts:19-56 | Literals and punctuation are those of section 2 of RFC 8259 |
| Utf16.LtDecides | packages/core-audit/src/canonical-json.ts:44-46 | In the key order the first differing UTF-16 unit decides and a proper prefix comes first |
| CanonicalJson.Stringify | packages/core-audit/src/canonical-json.ts:19-56 | The recursive printer with its loops yields the canonical text, or throws exactly where the specification has none |
| CanonicalJson.StringifyArray | packages/core-audit/src/canonical-json.ts:37-43 | The loop over array items |
| CanonicalJson.StringifyObject | packages/core-audit/src/canonical-json.ts:44-54 | The loop over keys in UTF-16 order (section 3.2.3 of RFC 8785) that skips undefined members |
| CanonicalJson.CanonicalizeDecides | packages/core-audit/src/canonical-json.ts:15-56 | `canonicalize` gives two values one text iff they are equal up to key order and undefined members |
| CanonicalJson.StableCanonicalJsonDecides | apps/api/src/ai-conversations/send-intent.ts:60-69 | `stableCanonicalJson` gives two values one text iff they are equal up to key order with undefined read as null |
| AuditChain.HmacVerify | packages/core-audit/src/hmac.ts:20-32 | The XOR/OR loop decides byte equality with the recomputed HMAC |
| AuditChain.KeysApart | packages/core-audit/src/hmac.ts:5-32 | Two events are signed under one key exactly when tenant, key name and key version are the same |
| AuditChain.CanonicalTextBindsEvent | packages/core-audit/src/append.ts:102-141 | Two events with one canonical text agree in every field, the metadata up to key order |
| AuditChain.VerifyFullChain | packages/core-audit/src/verify.ts:28-107 | Valid exactly when numbers are 1..n, links match, and hashes and HMACs match; otherwise it names the first bad row and its reason |
| AuditChain.VerifyTailWindow | packages/core-audit/src/verify.ts:109-167 | Valid exactly when every row of the window is; otherwise it names the first bad one and its reason |
| AuditChain.FullValidityImpliesTail | packages/core-audit/src/verify.ts:109-167 | A fully valid chain passes the tail check at every window size |
| AuditChain.FullIsTailNumberedAndLinked | packages/core-audit/src/verify.ts:28-167 | Full validity is tail validity of the whole chain, plus numbers 1..n, plus a link on every row but the first: both directions |
| AuditChain.TailAcceptsWhatFullRejects | packages/core-audit/src/verify.ts:109-167 | So the converse of the row above fails: two rows with ids and numbers of their own, the second without a link, pass the tail check at every window and fail the full one |
| AuditAppend.AuditStore.AuditAppend | packages/core-audit/src/append.ts:55-186 | Statement by statement: the outcome and the table left behind are those of the specification, in every session and for every error |
| AuditAppend.FirstDivergenceIsFirst | packages/core-audit/src/append.ts:275-325 | No divergence is reported exactly when the input agrees on all thirteen checks; otherwise the first one that differs is |
| AuditAppend.FoundIsReusedOrDivergent | packages/core-audit/src/append.ts:88-104 | An explicit id that finds an event returns it iff the input agrees with it on every compared column, else throws the first difference; nothing is written |
| AuditAppend.UnfoundIsAppendedOrRejected | packages/core-audit/src/append.ts:60-104 | Without such an event nothing is reused or divergent; tenant mismatch and a malformed id are reported exactly when they hold |
| AuditAppend.AppendedCarriesInput | packages/core-audit/src/append.ts:106-186 | A new event carries every field of the input, its ids as their columns read them, under an id not used before |
| AuditAppend.AppendKeepsChains | packages/core-audit/src/append.ts:102-186 | An append keeps every chain valid, adds at most one row, at the end of its own chain, and writes nothing when it reuses or rejects |
| AuditAppend.ReachableChainsVerify | apps/api/src/db/migrations/0001_audit_chain.sql:278-377 | Every chain reached by any sequence of appends passes full verification |
| AuditAppend.NextIsFree | apps/api/src/db/migrations/0001_audit_chain.sql:97-113 | The number after the head a session can see is in use exactly when another tenant has written to the chain |
| AuditAppend.RepeatIsReuse | packages/core-audit/src/append.ts:275-328 | Repeating an append with an explicit id, whatever else was appended: the first row, exactly when the subject id is spelled as its uuid column reads it back and no DEK came without a payload; otherwise divergent on the field named |
| AuditAppend.UpperCaseSubjectDiverges | packages/core-audit/src/append.ts:287-287 | An append whose subject id has upper-case hexadecimal digits is rejected as divergent from its own event when repeated |
| AuditAppend.UpperCaseSubjectAppends | packages/core-audit/src/append.ts:287-287 | Such an append happens: an upper-case subject id goes into the empty table, and its repeat is rejected |
| Outbox.EnvironmentExists | packages/core-audit/src/sealer.ts:573-650 | The assumption on derived ids can be met: any distinct UUIDs for finitely many captures satisfy it |
| Outbox.BuiltStamp | packages/core-audit/src/sealer.ts:573-650 | The built event carries the id of its own capture in the sealer block, whatever the redaction held |
| Outbox.BuildsExactly | packages/core-audit/src/sealer.ts:573-601 | An event is built iff the metadata carries none of the eight raw-payload keys |
| Outbox.MergedCarries | packages/core-audit/src/sealer.ts:603-622 | The event's metadata has every member of the capture's unchanged, and a sealer block with the capture's id, number, chain, category, posture, integrity algorithm and presence flags |
| SealingAnswers.CaptureAnswers | apps/api/src/db/migrations/0025_audit_capture_outbox_foundation.sql:513-694 | A capture is taken exactly in its tenant's session, on its tenant's chain and without the four refused keys; a repeat changes no row, a new one takes the chain's next number |
| SealingAnswers.ClaimAnswers | apps/api/src/db/migrations/0025_audit_capture_outbox_foundation.sql:712-788 | A claim finds the chain's next row iff it is still captured |
| SealingAnswers.MarkAnswers | apps/api/src/db/migrations/0025_audit_capture_outbox_foundation.sql:797-877 | A mark is accepted iff the row is the next one in sealing under an unused event id, or sealed already into that event; what it writes |
| SealingAnswers.FailAnswers | apps/api/src/db/migrations/0025_audit_capture_outbox_foundation.sql:886-944 | A row can be failed iff it is captured or in sealing, and only its status changes |
| SealingAnswers.LoadAnswers | packages/core-audit/src/sealer.ts:492-545 | A recovery loads the tenant's row in sealing with all its columns; the tenant-context error is thrown iff the session's setting is not the tenant |
| Outbox.ChainNamesTenant | packages/core-audit/src/sealer.ts:348-350 | The id of an audit chain determines its tenant and category |
| SealingProtocol.StepKeeps | packages/core-audit/src/sealer.ts:764-861 | Each committed step of capture, claim, load, append, mark, one-transaction seal, recovery, failure or foreign append keeps the protocol invariant; statuses, marks and events only move forward |
| SealingProtocol.CaptureKeeps | apps/api/src/db/migrations/0026_audit_capture_idempotency_content_anchor.sql:45-224 | Taking a capture the function admits keeps the invariant; a repeat changes nothing |
| SealingProtocol.StatusKeeps | apps/api/src/db/migrations/0025_audit_capture_outbox_foundation.sql:712-787 | Claiming the next row and failing an unsealed row keep the invariant |
| SealingProtocol.AppendPhaseKeeps | packages/core-audit/src/sealer.ts:573-650 | Building and appending the event of a held capture keeps the invariant and leaves its derived event written |
| SealingProtocol.MarkKeeps | apps/api/src/db/migrations/0025_audit_capture_outbox_foundation.sql:797-876 | mark_sealed after the append keeps the invariant |
| SealingProtocol.ForeignKeeps | packages/core-audit/src/append.ts:55-186 | Appends by others that do not use derived ids keep the invariant |
| SealingProtocol.SealedPrefix | apps/api/src/db/migrations/0025_audit_capture_outbox_foundation.sql:712-876 | In every interleaving the sealed rows of a chain are exactly the capture numbers up to its mark, and at most one row is being sealed: the next |
| SealingProtocol.OneEventPerSealedCapture | packages/core-audit/src/sealer.ts:764-861 | In every interleaving each sealed capture has exactly one audit event stamped with it, under its derived id, carrying every immutable column, its metadata and its descriptors; a captured one has none |
| SealingProtocol.ReachedChainsVerify | packages/core-audit/src/verify.ts:28-107 | In every interleaving every audit chain passes full verification |
| SealingProtocol.RebuiltEventMatches | packages/core-audit/src/append.ts:275-328 | An event rebuilt by any worker at any time shows no divergence from the one recorded |
| SealingProtocol.NeverDivergent | packages/core-audit/src/append.ts:275-328 | In a state of the invariant a held capture's append is never rejected as divergent |
| SealingProtocol.HeldNeverDivergent | packages/core-audit/src/sealer.ts:573-650 | The same after any run: a worker that claimed or loaded a capture never meets divergence |
| SealingProtocol.FailureStallsChain | packages/core-audit/src/sealer.ts:441-469 | After a failure no continuation ever seals that capture or a later one of its chain |
| SealingProgress.AppendSucceeds | packages/core-audit/src/sealer.ts:573-650 | The append of a held capture succeeds exactly when its redaction has no banned key and no other tenant has written to its audit chain; each failure is named |
| SealingProgress.MarkSucceeds | apps/api/src/db/migrations/0025_audit_capture_outbox_foundation.sql:797-876 | mark_sealed succeeds for a held capture that is being sealed, or sealed already |
| SealingProgress.SealsExactly | packages/core-audit/src/sealer.ts:764-861 | A seal of a chain with a claimable capture seals it, under its derived id, exactly under those two conditions; else it throws and changes nothing |
| SealingProgress.RecoversExactly | apps/audit-sealer/src/stale-recovery.ts:105-160 | A recovery of a loaded capture seals it exactly under those two conditions and when no one failed it meanwhile |
| SealingAnswers.ThreeCommitsSeal | packages/core-audit/src/sealer.ts:764-861 | A caller that commits claim, append and mark separately, with nothing between, reaches the database of the one-transaction seal |
| SealingProgress.SealBlocksNone | packages/core-audit/src/sealer.ts:764-861 | A seal closes no audit chain to its tenant |
| SealingProgress.BannedCaptureStallsChain | packages/core-audit/src/sealer.ts:573-596 | In every interleaving a capture with one of the four keys that the outbox does not check, and every later one of its chain, is never sealed |
| SealingProgress.OnlyUnguardedCapturesStall | packages/core-audit/src/capture.ts:57-80 | In every run the outbox holds none of the four keys it checks, and none of the eight when every capture passed the TypeScript guard |
| SealingProgress.MessagesCaptureStalls | packages/core-audit/src/sealer.ts:577-596 | A run: a capture with a `messages` key, inserted past that guard, is taken, is next, and its seal throws |
| SealingProgress.OwnChainsStayOpen | packages/core-audit/src/append.ts:55-186 | In every run in which no append writes to a chain named after another tenant, no chain is closed to its own |
| SealingProgress.TrespassedChainStalls | packages/core-audit/src/append.ts:102-117 | A run: another tenant appends to the chain, the capture is taken, is next, and its seal throws |
| SealerRunner.Runner.SealOnce | apps/audit-sealer/src/seal-once.ts:22-46 | One transaction with any statement failing and any other session committing between: a reported seal is committed under the derived id; undisturbed it is the protocol's seal |
| SealerRunner.Runner.SealClaimed | apps/audit-sealer/src/seal-once.ts:22-46 | Its second half, after a claim that found a row, under the same promises |
| SealerRunner.Runner.ClaimNext | apps/api/src/db/migrations/0025_audit_capture_outbox_foundation.sql:712-787 | The search returns the chain's next row iff it is still captured |
| SealerRunner.Runner.RebuildAndAppend | packages/core-audit/src/sealer.ts:573-650 | Builds and appends as the protocol does |
| SealerRunner.Runner.AttemptRecovery | apps/audit-sealer/src/stale-recovery.ts:105-160 | A recovery attempt reports sealed only if committed, absent only if not being sealed, divergent only if divergence was met, and the tenant-context error only for a setting that is not the tenant; undisturbed it seals what can be sealed; it never fails the row |
| SealerRunner.Runner.AppendAndMark | apps/audit-sealer/src/stale-recovery.ts:130-153 | Its second half: append, mark_sealed, COMMIT, under the same promises |
| SealerRunner.Runner.MarkFailedTerminal | apps/audit-sealer/src/stale-recovery.ts:163-203 | The row is failed exactly when the statements come to record it and mark_failed accepts it; only a missing connection escapes |
| SealerRunner.UnrecordedFailure | apps/audit-sealer/src/stale-recovery.ts:163-203 | A script on which the failure is reported and not recorded |
| SealerRunner.Runner.GiveUp | apps/audit-sealer/src/stale-recovery.ts:206-253 | The failed outcome is reported exactly when a connection was had, whether or not the failure was recorded |
| SealerRunner.Runner.NextAttempt | apps/audit-sealer/src/stale-recovery.ts:206-253 | One turn of the retry loop, under the same promises |
| SealerRunner.Runner.RecoverStaleRow | apps/audit-sealer/src/stale-recovery.ts:206-253 | At most maxRetries attempts. A tenant-context error among what they threw gives the tenant error and never a failed row; max_retries means that all of them threw other errors; every one of these met an infrastructure fault, or the row is refused or failed by others. Undisturbed, a stale row that can be sealed is sealed, one that cannot is failed |
| SealerRunner.NeverSeesDivergence | apps/audit-sealer/src/stale-recovery.ts:67-72 | If only this protocol writes derived ids no recovery ever ends in divergent content |
| SealerRunner.Runner.DetectStale | apps/audit-sealer/src/stale-recovery.ts:75-102 | Up to `batch` distinct rows of the tenant that are being sealed |
| SealerRunner.Runner.SweepStaleRecoveries | apps/audit-sealer/src/stale-recovery.ts:256-281 | Counts every stale row under its outcome; recovered and skipped rows are final, a row whose recovery threw a tenant-context error is counted as errored, none is counted as failed for divergence |
| ClaimLoop.HealthySeal | apps/audit-sealer/src/claim-loop.ts:107-137 | A seal of a healthy chain takes exactly one capture if any is left and is idle otherwise |
| ClaimLoop.IdleSeal | apps/audit-sealer/src/claim-loop.ts:107-137 | Nothing to claim is an idle seal that changes nothing |
| ClaimLoop.WaveSeals | apps/audit-sealer/src/claim-loop.ts:145-210 | One seal in a wave of concurrent drains advances exactly its own chain |
| ClaimLoop.Scanner.DrainTurn | apps/audit-sealer/src/claim-loop.ts:107-137 | One turn of a drain: its chain's count and mark move together |
| ClaimLoop.Scanner.DrainWave | apps/audit-sealer/src/claim-loop.ts:107-143 | Concurrent drains in any schedule seal min(claimBatch, unsealed) of each chain |
| ClaimLoop.Scanner.DiscoverClaimableChains | apps/audit-sealer/src/claim-loop.ts:70-83 | The tenant's first claimBatch chains with work, by chain id |
| ClaimLoop.Scanner.DrainOrg | apps/audit-sealer/src/claim-loop.ts:145-210 | Undisturbed, `sealed` is the drop in the tenant's unsealed captures, at least one if there were any; never more than it committed |
| ClaimLoop.AddUp | apps/audit-sealer/src/claim-loop.ts:176-180 | The loop that sums a wave's results and counts its idle chains |
| ClaimLoop.Scanner.RunScanTick | apps/audit-sealer/src/claim-loop.ts:145-210 | With no new captures, no failed, stuck or refused rows and no errors: `sealed` is the drop in unsealed captures, and at least 1 while there are any. Always: it reports no more seals than it committed, and the sum of its sweeps |
| ClaimLoop.Scanner.RunClaimLoop | apps/audit-sealer/src/claim-loop.ts:217-269 | As many undisturbed ticks as there are unsealed captures seal them all |
| DuplicateKeys.FindDuplicateJsonKeys | scripts/lib/parity-core.ts:241-290 | On any text whatever the scanner loop returns what the specification of the scan does |
| DuplicateKeys.ReadBody | scripts/lib/parity-core.ts:249-260 | The inner loop reads the raw body up to its closing quote, or to the end of an unterminated one |
| DuplicateKeys.DecodeJsonStringBody | scripts/lib/parity-core.ts:208-231 | The decoder loop decodes by UTF-16 unit and keeps malformed escapes |
| DuplicateKeys.ScannerAgreesWithTree | scripts/lib/parity-core.ts:241-290 | For every spelling of a JSON value, with any whitespace and any escapes (sections 2, 4 and 7 of RFC 8259), the scan returns in text order exactly the repeated decoded keys of each object |
| DuplicateKeys.EmptyReportIffUnique | scripts/lib/parity-core.ts:233-240 | The report is empty iff no object repeats a key |
| ParityManifest.ValidateFindings | scripts/lib/parity-core.ts:361-748 | On any parsed manifest the validator with its loops throws exactly as specified, and otherwise returns the specified findings in order |
| ParityManifest.ValidateRow | scripts/lib/parity-core.ts:418-499 | The checks of one row, in order: they throw exactly when a message prints a value that cannot be converted |
| ParityManifest.ValidateFields | scripts/lib/parity-core.ts:450-472 | The part of them after the surface is known |
| ParityManifest.ValidateRest | scripts/lib/parity-core.ts:474-499 | The part of them after the classification is known |
| ParityManifest.StringOf | scripts/lib/parity-core.ts:413-422 | `String(x)` of a parsed value throws exactly when it is, or an array holds, an object with a property of its own named toString |
| ParityManifest.ToStringThrows | scripts/lib/parity-core.ts:716-719 | A row whose surface is such an object makes the validator throw, though it is to return findings |
| ParityManifest.FirstOutOfOrder | scripts/lib/parity-core.ts:716-745 | The adjacent-pair loop reports a row-order finding iff the rows are not strictly ascending, only when all are objects, and throws iff it reaches a row it cannot place before it reports |
| ParityManifest.RepairableIsSound | scripts/lib/parity-core.ts:361-748 | Without a hard finding the manifest is sound, and what remains is one key-order finding per misordered row and at most one row-order finding |
| ParityManifest.SoundRowSays | scripts/lib/parity-core.ts:425-530 | A sound row names one of the eight surfaces, a family and an id, and takes its classification, status, source type, stability and risk class from their closed lists |
| ParityManifest.SoundRootSays | scripts/lib/parity-core.ts:361-425 | A sound root has the version, the name, a date, a 40-digit commit id and three non-empty texts |
| ParityManifest.RenderParityManifest | scripts/lib/parity-core.ts:760-786 | The renderer with its loops builds the specified value |
| ParityManifest.FormatRepairs | scripts/lib/parity-core.ts:760-786 | If only form is at fault the formatted manifest does not make the validator throw and has no findings |
| ParityManifest.FormatKeepsContent | scripts/lib/parity-core.ts:760-786 | It then keeps every root field, and its rows are a permutation of the rows with the same field values |
| ParityManifest.FormatAgain | scripts/lib/parity-core.ts:760-786 | Formatting again changes nothing |
| ParityManifest.CleanIffCanonical | scripts/lib/parity-core.ts:361-748 | Form is reported at fault iff formatting would change the rows |
| ParityManifest.UnknownFieldWouldVanish | scripts/lib/parity-core.ts:374-391 | Why an unknown root field is a hard finding: one finding more, and formatting gives the same value as without it |
| Spans.MergeFindingSpans | packages/dlp-br/src/baseline-detectors.ts:175-217 | The loop returns the merge of the findings: sorted spans, neither overlapping nor touching, each with exactly the detectors of the findings inside it |
| Spans.MergeCoversExactly | packages/dlp-br/src/baseline-detectors.ts:175-217 | A position is covered by a span iff a finding covers it |
| Spans.SpanLabels | packages/dlp-br/src/baseline-detectors.ts:164-217 | A span is strong iff a finding inside it carries cpf or cnpj, and is named after the first such member, else after its first |
| Spans.OneSpanEach | packages/dlp-br/src/baseline-detectors.ts:175-217 | Each finding lies inside exactly one span |
| Spans.MergeUnique | packages/dlp-br/src/baseline-detectors.ts:175-217 | There is one merge only, whatever the order and repetition of the findings |
| Spans.OrderFree | packages/dlp-br/src/baseline-detectors.ts:175-217 | A merge of one listing of findings is a merge of any other |
| Spans.MergeIdempotent | packages/dlp-br/src/baseline-detectors.ts:164-217 | Merging the merged spans gives the same spans |
| Precedence.RanksAscend | packages/dlp-br/src/sensitive-provenance.ts:45-75 | The order of the five source qualities and of the five actions |
| Precedence.SelectedIsFirstBest | packages/dlp-br/src/sensitive-provenance.ts:169-206 | The selected finding of a key is the first to attain the maximum of (quality, action) |
| Precedence.FirstBestUnique | packages/dlp-br/src/sensitive-findings.ts:325-380 | There is only one such place |
| Precedence.StrictestIsMaximum | packages/dlp-br/src/sensitive-findings.ts:311-323 | The escalation kept among triggers attains the highest action |
| Precedence.StrictestIsFirst | packages/dlp-br/src/sensitive-findings.ts:311-323 | It is the first of the triggers to attain the highest action and, among those, the highest quality |
| Precedence.DecideReasons | packages/dlp-br/src/sensitive-provenance.ts:169-206 | Each reason is given exactly for what told the two findings apart; an escalation exactly for a stricter external finding beside a native one |
| Precedence.EscalationIsStrictestTrigger | packages/dlp-br/src/sensitive-findings.ts:325-380 | The escalation exists iff some external was stricter than the selection it met across the native boundary, and is the strictest of those |
| Precedence.EscalationKeepsStrictest | packages/dlp-br/src/sensitive-findings.ts:325-380 | It keeps the strictest external action iff one of that action came after the first native finding or was the first best, by quality and then action, of those before it |
| Precedence.NativeFirstEscalates | packages/dlp-br/src/sensitive-findings.ts:325-380 | With a native finding first, an external stricter than every native one is never lost |
| Precedence.ExternalFirstLoses | packages/dlp-br/src/sensitive-findings.ts:325-380 | With externals first it can be: a list and a reordering with different escalations |
| Precedence.MergeFindings | packages/dlp-br/src/sensitive-findings.ts:325-380 | One entry per key, keys in first-seen order over both lists, each the decision over all findings of its key |
| Precedence.StrictestFinding | packages/dlp-br/src/sensitive-findings.ts:228-251 | The first finding attaining the maximum of (quality, action); null iff there is none |
| Precedence.StrictestAsDocumented | packages/dlp-br/src/sensitive-findings.ts:223-251 | It has the highest action, and is the finding the documentation names, iff some finding attains the highest quality and the highest action at once |
| Precedence.QualityHidesStrictest | packages/dlp-br/src/sensitive-findings.ts:223-251 | A list where it is not: a native observation is picked over an external denial |
| BoundedMap.TurnKeeps | apps/api/src/ai-conversations/turn-service.ts:537-553 | Every turn of every worker keeps the pool invariant |
| BoundedMap.EverySchedule | apps/api/src/ai-conversations/turn-service.ts:521-559 | In every schedule each index starts at most once and in order, at most min(limit, n) calls are in flight, and none starts after a failure |
| BoundedMap.EndOfSchedule | apps/api/src/ai-conversations/turn-service.ts:521-559 | At the end of any schedule: success has every slot filled with its own result; otherwise what is thrown is the first failure of the log, and it fails iff some call does |
| BoundedMap.MapWithConcurrency | apps/api/src/ai-conversations/turn-service.ts:521-559 | Under any scheduling it ends, returns all results in order iff no call fails, and otherwise throws the error of the first call to fail |
| Paging.ListConversations | apps/api/src/ai-conversations/store.ts:200-226 | The page after a cursor in (updated_at, id) descending order, with one probe row deciding whether there is more |
| Paging.NewestFirst | apps/api/src/ai-conversations/store.ts:200-226 | The order of a page: later instants first, and of one instant the greater ids |
| Paging.PagesCoverAll | apps/api/src/ai-conversations/service.ts:289-326 | Following next_cursor over a fixed set returns every matching row exactly once in order, in as many pages as hold them, with null exactly on the last page |
| Paging.LastPageFull | apps/api/src/ai-conversations/service.ts:303-325 | A page that a cursor led to is never empty |
| Paging.TurnPagesCoverAll | apps/api/src/ai-conversations/turn-service.ts:389-421 | Paging by after_turn_seq from any place visits each remaining turn once, in floor(n/limit)+1 pages |
| Paging.TurnPagingFromStart | apps/api/src/ai-conversations/turn-service.ts:389-421 | From the start it visits every turn of the branch |
| Cursor.Decode64Encode64 | apps/api/src/ai-conversations/cursor.ts:112-117 | base64url decoding inverts encoding on all bytes (section 5 of RFC 4648) |
| Cursor.EitherAlphabet | apps/api/src/ai-conversations/cursor.ts:134-154 | The decoder reads the url and the plain alphabet alike and skips exactly the characters of neither (section 5 of RFC 4648) |
| Cursor.RenderedIsEmittable | apps/api/src/ai-conversations/cursor.ts:93-109 | Every rendering of a timestamp passes the validator |
| Cursor.EmittableIsRendered | apps/api/src/ai-conversations/cursor.ts:93-109 | Everything the validator passes is such a rendering |
| Cursor.DecodedIsValid | apps/api/src/ai-conversations/cursor.ts:134-154 | Nothing unvalidated leaves the decoder: the length, the version, the timestamp and the id were checked, and the fields are those of the parsed text |
| Cursor.CursorRoundTrip | apps/api/src/ai-conversations/cursor.ts:112-154 | decode(encode(c)) = c for every emittable cursor |
| Cursor.GoodCodecExists | apps/api/src/ai-conversations/cursor.ts:112-154 | The assumption on UTF-8 and JSON parsing can be met, however the database reads timestamps |
| Cursor.CursorNames | apps/api/src/ai-conversations/service.ts:313-321 | A cursor handed out for a row names that row |
| Cursor.ListPage | apps/api/src/ai-conversations/service.ts:289-326 | An invalid cursor is refused; otherwise the page after the row the cursor names, with the cursor of its last row |
| Cursor.FollowCursors | apps/api/src/ai-conversations/service.ts:279-326 | A client that follows the text cursors until null ends, after the number of pages the rows make, and has every row below its start exactly once in order |
| AuditBridge.PgClient.Execute | apps/api/src/pipeline/audit-bridge.ts:308-313 | A statement fails, leaves the transaction and emits an error event as the script says; a listener hears the event, or the process ends |
| AuditBridge.PgClient.Commit | apps/api/src/pipeline/audit-bridge.ts:308-313 | Only an acknowledged COMMIT counts, and it leaves no transaction open |
| AuditBridge.RunEnvelope | apps/api/src/pipeline/audit-bridge.ts:308-313 | The first failure of the script, if any; normal return iff the COMMIT was acknowledged |
| AuditBridge.EnvelopeWithRollback | apps/api/src/pipeline/audit-bridge.ts:314-334 | A transaction stays open exactly when the envelope and its ROLLBACK failed and left one, and then the client is marked unusable |
| AuditBridge.Pool.Connect | apps/api/src/pipeline/ai-conversation-worker.ts:244-249 | Takes an idle client out of the pool, whatever its state, or a new one |
| AuditBridge.Pool.Release | apps/api/src/pipeline/ai-conversation-worker.ts:271-276 | A destroyed client does not come back |
| AuditBridge.CaptureOnWorker | apps/api/src/pipeline/ai-conversation-worker.ts:244-277 | For every script: which clients go back to the pool, that none goes back with a listener or, once attested, an open transaction, and that no error event goes unheard |
| AuditBridge.CaptureDirect | apps/api/src/pipeline/audit-bridge.ts:335-408 | For every script the client goes back inside a transaction exactly when the envelope failed, the ROLLBACK failed too and left one open |
| AuditBridge.DirectCaptureMayLeaveOpen | apps/api/src/pipeline/audit-bridge.ts:362-367 | A script on which it does |
| AuditBridge.DropsExactly | apps/api/src/pipeline/audit-bridge.ts:190-408 | Each reason is logged exactly for the first stage that failed, a unique violation told apart |
| AuditBridge.Dispatch | apps/api/src/pipeline/audit-bridge.ts:190-408 | On a pool in any state, for every script: best_effort never throws; strict returns normally iff a COMMIT was acknowledged, and otherwise throws the original failure of the transaction stage, never the ROLLBACK's, or the marker of the earlier stage that dropped the capture; the logged reason is exactly that of the stage and statement that failed |

## Left out

- Roles, and row-level security beyond what decides a result: the ownership checks, the lookup by event id and the head of an audit chain are filtered by it.
- SQL NULL handling, column types and index mechanics: only uniqueness, checks and the guards' edges are kept.
- Functions, symbols, Dates and class instances as inputs of the JSON printers: the values modelled are undefined, null, booleans, numbers, bigints, strings, arrays and plain objects; a number is its printed text.
- UTF-8, SHA-256, HMAC, UUIDv5 bit layout, KMS and envelope encryption: function values.
- Pretty-printing of the manifest: the results are about the value that is printed, which determines the bytes.
- The parity validator's provider, name, URL, date and axis rules: two predicates on a row's fields, before and after its classification, each reported as one finding; of the messages only what makes them throw is kept. Its input is a parsed JSON value.
- parity-v2-core.ts: the same shape as the first version.
- JavaScript's `sort` on rows of equal place: such rows have a duplicate id, which is a hard finding.
- Age of stale rows, backlog age alerts, backoff, sleeping and the drain grace period: any stale set and any timing is possible.
- Fairness of schedulers: termination results hold for every schedule, or say that nothing interferes.
- ClaimLoop.Scanner.RunScanTick: the exact count and progress are stated for undisturbed ticks, since with other sealers at work the drop in unsealed captures is not this tick's.
- AuditAppend.RepeatIsReuse: the repeat is in the same session; other sessions do not see the row.
- ConversationLaws.ForkReplayIsIdentical: assumes that the repeat draws a fresh branch id; a drawn id that exists is a primary-key error.
- ConversationLaws.SendReplayIsExact: assumes that the repeat draws a fresh content id, for the same reason.
- AuditBridge.Dispatch: identity, schema validity and canonicalization of the event are inputs.
- AuditBridge.CaptureOnWorker: the attestation queries open no transaction; a client that came with one and is not attested goes back as it came.
- The dispatch registry: which provider and surface can execute is a fixed predicate.
- The conversation executor, runner and provider calls: steps of the environment.
- Text that two error classes share: errors are told apart by class where the code matches message text.
- The order of `localeCompare` on equal positions, which does not reach any result.
- Text that a jsonb column refuses or alters (such as the null character) and the precision of timestamptz.
- HTTP routes, configuration, telemetry, metrics, logging, health files and the migration runner.
- Regular-expression detectors, checksum helpers, Zod schemas and policy tables.
