# FinHarness: verified model of its durable and budgeted core

This project models, in Dafny, the parts of FinHarness whose guarantees concern whole histories or every
possible input, and proves those guarantees.

- **Governed writes from the browser** (`MutationRegistry`, `MutationProtocol`). Many browser contexts share one
  stored registry of pending writes. A write joins or stores an attempt with an idempotency key, sends it, and
  clears the attempt after an accepted or terminal answer. The protocol is a step system with contexts, clock,
  reported identity, registry, network and server. Lost responses, late and repeated deliveries, failed storage
  writes and crashes between any two awaits are steps.
- **Receipt search index** (`ReceiptIndex`, `ReceiptIndexHistory`). A checkpoint, numbered segments and a manifest as
  commit point, compared with the directory scan they replace, over every history of writes, crashes and damage.
- **Durable records of the Agent Shell** (`DomainReceipt`, `LaunchRecords`, `WorldRecovery`, `WorldRecoveryRace`).
  Pending-to-completed receipts with a hash chain, launch records by exclusive create, and the
  checkpoint-and-resume transition with crashes between its durable writes and with other writers of the Mission.
- **Context budgeting** (`Json`, `JsonText`, `ContextBounding`, `Refs`, `ContextPack`, `ContextProjection`, `ContextBudget`,
  `ProjectionBudget`, `ProjectionBundle`, `CapitalBundle`, `BundleOverrun`). Recursive truncation of JSON trees, two
  compaction ladders and when they succeed, greedy packing under a size limit, and the capital pack's way through
  all of it.
- **Availability cache** (`AvailabilityCache`). TTL and failure grace over whole call histories.
- **Worklists, folds and ordered sums** (`CallGraph`, `TaskExposure`, `DocNavigation`, `TrustMap`, `WeightedMedian`).

`Common`, `StringOrder`, `StableSort` and `Reachability` hold shared vocabulary.

State that the program updates in place is a class whose methods are proved against a specification function;
the histories and interleavings run those same functions. Time, randomness, the network, the file system and the
process's death are parameters: a clock value, a fresh key, a server answer, a number of completed writes.

Assumed, because it lies outside the modelled code: the Web Lock makes each registry read-modify-write one step;
new idempotency keys are fresh; the server runs each key at most once and answers success only for a key it ran;
file replacement, exclusive create and compare-and-swap are atomic; SHA-256 is injective.

## What the code does not guarantee

- A truncation limit below 15 characters is not kept: the slice bound turns negative (`TruncationBoundExact`).
- `_bounded_value` of `agent_context.py` turns a value that JSON rejects into text without truncating it, so
  bounding is within its limits and idempotent exactly when no such text is too long (`BoundedWithinAndIdempotent`).
- The compaction ladders do not always reach their budget. Every built pack but the capital summary does
  (`OrdinaryPacksFit`), and the exact condition is `BuiltWithinBudgetIff`; a capital pack whose admission values hold
  long keys ends over it (`CapitalPackCanExceed`).
- A pack over its budget can come back untouched: when it already is what the last rung makes (`FitUntouchedIff`,
  `UntouchedThoughTooLarge`). For the shipped packs other than the capital summary, untouched means within budget
  (`OrdinaryUntouchedIff`).
- A projection ends within its budget exactly when one of its three rungs, each of a size known in closed form, is
  small enough (`ProjectionWithinBudgetIff`). It is over when a claim is too long (`ProjectionCanExceed`), or when the
  keys left out are: unselected summary keys and unknown top-level keys are listed in full twice, in the projection and
  in a gap, on every rung (`OmittedKeysCanExceed`, `UnselectedKeyCanExceed`).
- A bundle may exceed its profile budget by the omission notices written after the last accepted pack
  (`BundleWithinBudgetPlusNotices`). That happens for projected packs under every profile (`ProjectedPacksCanExceed`),
  and never when all packs together fit (`AllIncludedIffWholeFits`).
- A stored write whose identity binding has expired is never cleared and blocks its request for good
  (`ExpiredBlocksForGood`); 128 of them block every write (`FullOfExpiredBlocksAll`). The error then asks for operator
  reconciliation, for which the browser code has no step.
- `projected_chars` is measured while the field holds 0, so it understates the size by its extra digits
  (`ReportedSizeExact`).
- A scan spells paths under the root as given, an update under its real path. When the two differ, an updated
  receipt appears twice and the index is not the rescan (`SpellingDecidesAgreement`).
- An update indexes whatever receipt it is handed, a scan only those in its own directories. The work loop hands over
  Capital World audits (`src/finharness/agent_work_loop.py:995-1005`), which no scan lists (`AuditsNotScanned`), so the
  index then holds receipts a rebuild would drop: it equals the rescan exactly when no update since the last rebuild
  read such a receipt (`FreshIndexIsRescan`).
- A world recovery whose target equals the previous World, begun on a paused Mission, cannot be run again after it
  finished; its work is then done and the rerun refuses without a change (`RerunFinishes`,
  `SecondRunAcceptedIffRerunnable`). `recover_world` refuses a Mission that has not drifted
  (`src/finharness/agent_shell.py:541-542`), so outside a race no caller passes such a record.
- A world recovery tests the Mission once and the store then reads it again: a Mission that another writer puts in
  place in between, on any World, can be taken to the target exactly when it is not closed (`OvertakenMovesIffOpen`).
  The swap itself loses no update (`RecoveryLosesNoUpdate`), and when nobody acts between the two reads the version
  moved is one the tests accept (`MovedVersionWasTested`).

## Model

| member | source | states |
|---|---|---|
| `MutationRegistry.RegistryStore.ValidRegistryUniqueness` | frontend/api.js:327-347 | the one-pass loop with two sets answers true exactly when keys and logical requests are pairwise distinct |
| `MutationRegistry.RegistryStore.ReadMutationRegistry` | frontend/api.js:349-402 | an absent registry is read as empty, a stored one exactly when it has at most 128 valid, pairwise distinct attempts; a legacy value is refused as unbound, anything else as corrupt, and storage that throws is a storage error |
| `MutationRegistry.RegistryStore.WriteMutationRegistry` | frontend/api.js:404-424 | the whole new stored value: absent when empty, unchanged when storage throws |
| `MutationRegistry.RequireSameBinding` | frontend/api.js:572-634 | passes exactly when the attempt's binding is unexpired and differs from the current one at most in its expiry, and otherwise names the first of expiry, principal, runtime and epoch that fails |
| `MutationRegistry.RegistryStore.BeginMutationAttempt` | frontend/api.js:636-698 | result and new stored value of the locked section |
| `MutationRegistry.BeginJoins` | frontend/api.js:647-669 | a request already stored is never stored twice; the same attempt and key come back exactly under an unexpired matching identity, when storage can be read |
| `MutationRegistry.BeginMints` | frontend/api.js:671-697 | a new request is appended under the fresh key exactly when there is room and the write succeeds, and the registry still passes its reader |
| `MutationRegistry.RegistryStore.ClearStoredAttempt` | frontend/api.js:748-783 | result and new stored value of the locked section |
| `MutationRegistry.ClearRemovesExactlyOne` | frontend/api.js:700-784 | clearing removes exactly the given attempt and keeps the order of the others |
| `MutationRegistry.ClearOfAbsentIsNoop` | frontend/api.js:754-782 | clearing an attempt already gone changes nothing, even when its key is stored under another binding id |
| `MutationRegistry.ClearRefusesImpostor` | frontend/api.js:761-771 | a stored entry with the same key and binding id but other content is never cleared |
| `MutationRegistry.UnreadableIsLeftAlone` | frontend/api.js:349-402 | a registry that cannot be read is never changed by beginning or clearing a write, and the reader's own reason comes back |
| `MutationProtocol.ResolveBinding` | frontend/api.js:469-557 | yields the reported binding exactly for a report of the exact shape, echoed, valid, and unexpired by server and browser time; expiry is told apart from unavailability |
| `MutationProtocol.RegistryAlwaysReadable` | frontend/api.js:327-424 | after every run the stored registry passes its own reader and an empty one is absent |
| `MutationProtocol.NewKeyOnlyAfterRemoval` | frontend/api.js:636-698 | in every run a logical request gets a new key only after every earlier attempt for it was removed |
| `MutationProtocol.RemovalOnlyWhenSettled` | frontend/api.js:717-784 | in every run an attempt leaves the registry only by a clear of that very attempt after an accepted or terminal answer bearing its binding, under an identity reported for the clear that matches it; everything else stays, in order |
| `MutationProtocol.UnsettledAttemptStaysStored` | frontend/api.js:849-923 | in every run an attempt with no settling answer received is still stored |
| `MutationProtocol.ExpiredBlocksForGood` | frontend/api.js:572-669 | from any reachable state, an attempt past its expiry that no context is already about to clear stays stored for good as time goes on, and every later begin of its request, in any context and under any identity, ends without storing or sending anything |
| `MutationProtocol.FullOfExpiredBlocksAll` | frontend/api.js:671-679 | a registry full of such attempts never changes again, and no context can begin any write |
| `MutationProtocol.SentOnlyUnderMatchingIdentity` | frontend/api.js:825-870 | in every run what is sent was begun under an identity the server reported to that context, and a re-sent attempt was unexpired when joined |
| `MutationProtocol.MintedIsRemovedPlusStored` | frontend/api.js:636-784 | keys minted for a request are its removed attempts plus the stored one, if any |
| `MutationProtocol.EffectsBounded` | frontend/api.js:825-968 | over every interleaving, effects per logical request are at most removed attempts plus one and at least the acknowledged writes |
| `MutationProtocol.AcknowledgedWasConfirmed` | frontend/actions.js:34-40 | in every run an acknowledged key has a received answer that is OK, bears its binding and whose body forbids execution |
| `MutationProtocol.AnswerDecides` | frontend/api.js:872-968 | from any reachable state, receiving an answer, acknowledging and clearing ends with the key acknowledged exactly when the answer confirms the write, and the attempt removed exactly when it confirms or finally refuses it, each under the attempt's own unexpired identity; every other attempt stays |
| `MutationProtocol.RefusesExactly` | frontend/api.js:786-812 | an answer ends an attempt without success exactly when it is not OK, bears the binding, has none of the four ambiguous codes and is not a status worth a retry without the middleware's receipt |
| `MutationProtocol.ClearFails` | frontend/api.js:748-783 | a clear that storage refuses changes nothing and leaves the context idle |
| `MutationProtocol.SubmitSendsOneKey` | frontend/api.js:825-862 | a new request is stored and sent once under a fresh key and the identity just reported; a request already stored under that identity is sent with the key stored, and nothing is added |
| `MutationProtocol.LossLeavesRegistry` | frontend/api.js:849-870 | a lost response or a stopped context leaves the registry as it was |
| `MutationProtocol.RetryReusesKey` | frontend/api.js:849-870 | after that, the same request under the attempt's unexpired identity is sent with the very same key |
| `MutationProtocol.WriteCompletes` | frontend/actions.js:24-40 | a new write that the server runs and confirms ends executed, acknowledged and cleared, with every other attempt left as it was |
| `MutationProtocol.StepKeepsInv` | frontend/actions.js:24-40 | every step keeps the protocol invariant, by which an acknowledged key was confirmed, a removed one settled and a sent one begun under a reported identity; and forgets nothing |
| `ReceiptIndex.IndexFiles.ScanReceipts` | src/finharness/agent_receipt_search.py:188-206 | entries, failures and high-water mark of the scanned receipts in order, an entry kept even when its stat fails |
| `ReceiptIndex.IndexFiles.WriteReceiptSearchIndex` | src/finharness/agent_receipt_search.py:241-265 | the exact disk after each number of completed writes of a rebuild |
| `ReceiptIndex.IndexFiles.UpdateReceiptSearchIndex` | src/finharness/agent_receipt_search.py:268-312 | the exact disk after each number of completed writes of an update, falling back to a rebuild |
| `ReceiptIndex.IndexFiles.LoadCommittedEntries` | src/finharness/agent_receipt_search.py:353-399 | the loop over checkpoint and segments returns the replay of every committed entry, or missing or corrupt |
| `ReceiptIndex.IndexFiles.SearchWithStatus` | src/finharness/agent_receipt_search.py:402-435 | the first `limit` matches in path order with the view's status, stopping early |
| `ReceiptIndex.IndexFiles.SearchReceiptIndex` | src/finharness/agent_receipt_search.py:336-350 | the list form answers exactly when the index is readable and complete |
| `ReceiptIndexHistory.SearchIsFirstMatches` | src/finharness/agent_receipt_search.py:411-434 | whatever is on disk, the results of searching a readable index are matches in path order, and a match is left out only when the limit is reached and it does not come before any result; a blank query gives none |
| `ReceiptIndexHistory.HitExact` | src/finharness/agent_receipt_search.py:315-333 | an entry is a hit exactly when its kind is asked for and some field contains the query; the fields reported are exactly those, in fixed order; a snippet is given exactly for a match in the text, and is its first 200 characters |
| `ReceiptIndexHistory.OrphansNeverRead` | src/finharness/agent_receipt_search.py:353-381 | the view depends only on files the manifest refers to |
| `ReceiptIndexHistory.LoadsExactly` | src/finharness/agent_receipt_search.py:353-381 | an index loads exactly when manifest, checkpoint and every segment up to the generation are usable, each segment bearing its own number; a missing manifest is told apart from a corrupt index |
| `ReceiptIndexHistory.NeverOverwritesReferenced` | src/finharness/agent_receipt_search.py:241-312 | no operation overwrites a checkpoint or segment the readable manifest refers to |
| `ReceiptIndexHistory.CrashLeavesOldOrNew` | src/finharness/agent_receipt_search.py:237-312 | stopping after any file write leaves exactly the old view or exactly the new one |
| `ReceiptIndexHistory.OverlayLastWins` | src/finharness/agent_receipt_search.py:363-377 | the replay is last-write-wins: a path is present exactly when an entry names it, with the latest such entry |
| `ReceiptIndexHistory.FreshIndexIsRescan` | src/finharness/agent_receipt_search.py:150-206 | along every history with one spelling of paths, when no scanned receipt is stale the scanned part of the loaded map is the full rescan; the whole map is, and searches agree, exactly when no update since the last rebuild read a receipt no scan lists |
| `ReceiptIndexHistory.SpellingDecidesAgreement` | src/finharness/agent_receipt_search.py:268-298 | after a rebuild and an update the index is the rescan exactly when a scan lists every receipt the update read; with one spelling, exactly when they all lie in the scanned directories; with two, never once it read one that does |
| `ReceiptIndexHistory.AuditsNotScanned` | src/finharness/capital_world_audit.py:463-468 | a Capital World audit is in no scanned directory |
| `ReceiptIndexHistory.ScannedExactly` | src/finharness/agent_receipt_search.py:188-206 | a scan lists exactly the JSON files directly inside the nine kind directories |
| `ReceiptIndexHistory.GatheredLists` | src/finharness/agent_receipt_search.py:188-206 | the entries are those of the sources that parse and the failures the names of those not read and dated, both in order |
| `ReceiptIndexHistory.RebuildReports` | src/finharness/agent_receipt_search.py:188-206 | a rebuild reports exactly the scanned receipts it could not read and date, by relative path |
| `ReceiptIndexHistory.UpdateReports` | src/finharness/agent_receipt_search.py:283-291 | an update reports exactly those of its references, cut before any #, that lead nowhere or to a receipt it could not read and date |
| `ReceiptIndexHistory.RebuildManifestExact` | src/finharness/agent_receipt_search.py:241-265 | the manifest of a rebuild sums up what was gathered, at the next generation, or at 1 when the old manifest cannot be read |
| `ReceiptIndexHistory.UpdateManifestExact` | src/finharness/agent_receipt_search.py:299-311 | the manifest of an update adds what was gathered to the old one and keeps its checkpoint |
| `ReceiptIndexHistory.EarlierManifestStaysReadable` | src/finharness/agent_receipt_search.py:353-381 | a reader holding an older manifest still loads that manifest's view while the writer goes on |
| `ReceiptIndexHistory.CountersAlwaysRight` | src/finharness/agent_receipt_search.py:253-310 | along every history complete means no unreadable source, the failure list has min(20, count) names, and the map is at most the recorded count |
| `ReceiptIndexHistory.RebuildCompleteIffAllRead` | src/finharness/agent_receipt_search.py:245-263 | a rebuild is complete exactly when every scanned receipt could be read and dated |
| `ReceiptIndexHistory.HighWaterCovers` | src/finharness/agent_receipt_search.py:198-206 | the high-water mark is at or above the marker of every receipt gathered |
| `ReceiptIndexHistory.GenerationAndHighWaterAdvance` | src/finharness/agent_receipt_search.py:279-311 | a finished operation advances the generation by one, and an update never lowers the high-water mark |
| `DomainReceipt.ReceiptFile.CreateExclusive` | src/finharness/statecore/receipt_io.py:296-325 | creates exactly when the path is free, and never replaces |
| `DomainReceipt.ReceiptFile.CompareAndSwap` | src/finharness/statecore/receipt_io.py:234-293 | replaces exactly an intact pending version with the expected hash by an intact one, and otherwise leaves the file alone |
| `DomainReceipt.ReceiptFile.Begin` | src/finharness/agent_shell.py:1140-1179 | succeeds exactly when the path is free or holds this very pending receipt |
| `DomainReceipt.ReceiptFile.Complete` | src/finharness/agent_shell.py:1047-1075 | completes the stored pending receipt, or returns an equal stored record, or fails without change; what it returns bears the response given, and if newly completed the time given and the hash of the pending version |
| `DomainReceipt.ReceiptOnlyAdvances` | src/finharness/agent_shell.py:1011-1088 | in every run a receipt goes only absent, pending, completed: by a begin with the fixed fields given, then by a completion whose response and time are stored; fixed fields never change; hashes match; the completed version's previous hash is the pending one's |
| `DomainReceipt.OneCompletionWins` | src/finharness/agent_shell.py:1182-1230 | in every run at most one completion wins, and every caller told of success holds the one stored record with the response it gave |
| `DomainReceipt.CompletionIsTold` | src/finharness/agent_shell.py:1047-1075 | a process that begins and completes is told so and its response is stored; a second one that reads the file is told of success exactly when it gives the same response |
| `DomainReceipt.LosersAreAnswered` | src/finharness/agent_shell.py:1182-1230 | a process that lost a race is told of success exactly when the file holds the very record it tried to store, and changes nothing |
| `LaunchRecords.LaunchDirectory.BeginLaunch` | src/finharness/agent_shell.py:868-918 | stores a record only for a new id, with distinct derived ids, the request and the time given, and returns the stored one exactly when the request matches |
| `LaunchRecords.LaunchesAgree` | src/finharness/agent_shell.py:868-918 | for any racing callers and crashes, successful launches of one principal, runtime and request id return one identical record, and different content conflicts |
| `LaunchRecords.LaunchRecordImmutable` | src/finharness/agent_shell.py:900-902 | a launch record is never replaced |
| `LaunchRecords.RecordsAreLaunches` | src/finharness/agent_shell.py:868-918 | in every run each stored record bears the principal, runtime, request and time of a launch made, and the ids derived in one record or in two are never the same |
| `LaunchRecords.LaunchIsAnswered` | src/finharness/agent_shell.py:896-918 | whatever others did in between, a launch ends with the record stored under its id when that was made for its request, and with the conflict otherwise |
| `WorldRecovery.MissionStore.ApplyWorldRecoveryCheckpoint` | src/finharness/agent_shell.py:603-650 | the exact ending and artifacts after each number of durable writes |
| `WorldRecovery.MissionStore.CreateCheckpoint` | src/finharness/capital_agent.py:329-337 | an immutable artifact is created once; a different one under the same id conflicts |
| `WorldRecovery.RunFinishesIffReady` | src/finharness/agent_shell.py:618-650 | an uninterrupted run leaves the Mission active on the target World exactly when the Mission is open, on the previous or target World, and unchanged while on the previous one; otherwise it refuses and changes nothing |
| `WorldRecovery.RecoveredFields` | src/finharness/capital_agent.py:509-553 | a finished recovery leaves one checkpoint with the target World, the recovery's Belief, the stripped note and the recorded time, and the Mission active on the target World pointing at it; a paused one is resumed now without its stop reason |
| `WorldRecovery.WritesInOrder` | src/finharness/agent_shell.py:638-650 | first the checkpoint alone, then the Mission moved with its state as it was, and only then, if paused, resumed |
| `WorldRecovery.RefusalReasons` | src/finharness/agent_shell.py:618-637 | which refusal comes back, in the order of the tests |
| `WorldRecovery.TransitionTouchesOnlyItsOwn` | src/finharness/capital_agent.py:509-553 | wherever it stops, other Missions, Beliefs and stored checkpoints are unchanged |
| `WorldRecovery.RerunFinishes` | src/finharness/agent_shell.py:603-650 | after any number of crashes at any points, re-running with the same record leaves the recovery finished; the rerun succeeds, with the same Mission up to its update time, exactly when the record can be rerun or no crash came after the third write, and otherwise refuses without a change |
| `WorldRecovery.SecondRunAcceptedIffRerunnable` | src/finharness/agent_shell.py:623-634 | a finished recovery can be run again exactly when the target differs from the previous World or the Mission was active |
| `WorldRecoveryRace.RecoveryLosesNoUpdate` | src/finharness/capital_agent.py:339-354 | however other writers interleave, each write replaces exactly the version last read, a closed Mission is never written, success means active on the target World, and a Mission the tests reject or a checkpoint that conflicts stops the recovery |
| `WorldRecoveryRace.MovedVersionWasTested` | src/finharness/agent_shell.py:618-645 | however others interleave, the version moved is the one standing at the store's own read and the tests were passed by the one standing at the first read, so with nobody in between the moved version is one the tests accept |
| `WorldRecoveryRace.OvertakenMovesIffOpen` | src/finharness/capital_agent.py:509-553 | a Mission put in place by another writer between the two reads, on any World, can be taken to the target if and only if it is not closed |
| `ContextBounding.TruncationBoundExact` | src/finharness/agent_context.py:645-648 | every truncated text is within its limit exactly when the limit is at least 15 |
| `ContextBounding.TruncationForm` | src/finharness/agent_context.py:645-648 | a truncated text is a leading part of the original ended at a non-blank, with nothing but blanks left out of the room before the mark |
| `ContextBounding.BoundedWithinAndIdempotent` | src/finharness/agent_context.py:600-625 | bounding is within limits at every depth, and idempotent, exactly when no overlong value is coerced to text |
| `ContextBounding.BoundedKeepsFirst` | src/finharness/agent_context.py:610-618 | a bounded list is its first items, in order, each bounded |
| `ContextBounding.BoundedKeepsFirstFields` | src/finharness/agent_context.py:601-609 | a bounded object is its first fields, in order, keys unchanged and each value bounded |
| `ContextBounding.BoundedLeaves` | src/finharness/agent_context.py:600-625 | what is no container and not too long is left as it is, and a value JSON rejects becomes its text exactly where the code coerces it |
| `ContextBounding.BoundedNeverGrows` | src/finharness/agent_context_projection.py:705-731 | bounding never increases the serialized size of any tree |
| `ContextBounding.SummaryKeepsKeys` | src/finharness/agent_context_projection.py:734-748 | the summary form keeps every top-level key in order |
| `JsonText.SizeIsLength` | src/finharness/agent_context_projection.py:795-796 | the size every budget counts is the length of the serialized text, for every tree and both styles, escapes included |
| `Refs.DedupeLoop` | src/finharness/agent_context.py:659-667 | the loop with a seen set returns the first occurrences |
| `Refs.DedupeExact` | src/finharness/agent_context.py:659-667 | exactly the non-empty texts, each once, in the order of their first occurrence |
| `Refs.CleanRefsExact` | src/finharness/agent_context_projection.py:783-792 | exactly the non-empty stripped texts, each once, in the order of their first occurrence |
| `Refs.CleaningNeverGrows` | src/finharness/agent_context_projection.py:783-796 | cleaning a list never increases its serialized size |
| `ContextPack.CompactionIsAnnounced` | src/finharness/agent_context.py:462-511 | a pack the ladder changed carries a gap naming the budget and the rung taken |
| `ContextPack.LadderIsMinimal` | src/finharness/agent_context.py:462-511 | each rung is taken only when the one before is too large: a pack that fits is untouched; one whose compacted form fits keeps every summary key in order, its references, claims and gaps; one that fits with a marker still keeps references, claims and gaps |
| `ContextPack.FitUntouchedIff` | src/finharness/agent_context.py:462-511 | a pack comes back as it was exactly when it fits, or when no rung helps and it already is what the last one makes of it |
| `ContextPack.UntouchedThoughTooLarge` | src/finharness/agent_context.py:487-511 | the second case does arise |
| `ContextPack.PreparedExact` | src/finharness/agent_context.py:436-459 | before fitting: every summary key with its value bounded, the least references in order up to the limit with a gap when there were more, each gap and claim once |
| `ContextBudget.BuiltWithinBudgetIff` | src/finharness/agent_context.py:436-511 | a pack ends within its budget, whatever its references, gaps and claims are and whatever its summary has besides the marker, exactly when the budget is at least the size of its last rung |
| `ContextBudget.OrdinaryPackWithinBudgetIff` | src/finharness/agent_context.py:462-511 | every pack of a name other than the capital summary ends within its budget exactly when the budget holds the name, its own digits and 274 or 275 fixed characters |
| `ContextBudget.OrdinaryPacksFit` | src/finharness/agent_context.py:93-136 | each shipped pack other than the capital summary is always within its budget |
| `ContextBudget.OrdinaryUntouchedIff` | src/finharness/agent_context.py:462-464 | each of them comes back as prepared exactly when that is within its budget |
| `ContextBudget.CapitalPackCanExceed` | src/finharness/agent_context.py:514-524 | a capital pack with an admission value holding a key longer than the budget ends over it on every rung |
| `ContextPack.BuildSurvives` | src/finharness/agent_context.py:436-524 | a built capital summary keeps every admission key, with booleans, numbers, nulls and short strings unchanged |
| `ContextProjection.ProjectionCompactionIsAnnounced` | src/finharness/agent_context_projection.py:576-628 | a projection not flagged truncated is only measured, and one that is ends with a gap in the words of the rung taken, naming the pack |
| `ContextProjection.ProjectionLadderIsMinimal` | src/finharness/agent_context_projection.py:545-628 | each rung is taken only when the one before is too large, with what it keeps: all keys and references when compacting, the first reference with the marker, and name, claims, receipts and what was dropped on every rung |
| `ContextProjection.UnfittedSummary` | src/finharness/agent_context_projection.py:349-419 | the summary handed to the ladder has the selected keys and no others, each value bounded |
| `ContextProjection.UnfittedLists` | src/finharness/agent_context_projection.py:349-419 | the first references and gaps, each once, up to their limits, and a gap for each kind of thing left out |
| `ContextProjection.SpecForListed` | src/finharness/agent_context_projection.py:94-104 | a pack's spec is the first its profile lists for its name |
| `ContextProjection.CapitalSpecSelects` | src/finharness/agent_context_projection.py:117-315 | every profile selects every admission key of the capital summary |
| `ContextProjection.ProjectionSurvives` | src/finharness/agent_context_projection.py:349-419 | projecting a capital summary keeps every admission key under every profile |
| `ContextProjection.AdmissionKeysSurvive` | src/finharness/agent_context.py:36-50 | through both ladders every admission key stays, and boolean, numeric, null and short string values are unchanged |
| `ContextProjection.ReportedSizeExact` | src/finharness/agent_context_projection.py:571-574 | the reported size is the real one less the digits beyond the first |
| `ProjectionBudget.ProjectedSizeExact` | src/finharness/agent_context_projection.py:638-671 | the serialized size of any projection, part by part: texts, lists, receipts, digits and 591 fixed characters |
| `ProjectionBudget.ProjectionWithinBudgetIff` | src/finharness/agent_context_projection.py:349-628 | for every payload, its projection ends within its budget exactly when the unfitted projection, the compacted one or the marker form is small enough, each size in closed form |
| `ProjectionBudget.ProjectionCanExceed` | src/finharness/agent_context_projection.py:397-399 | a payload with a claim longer than the budget ends over it on every rung |
| `ProjectionBudget.OmittedKeysCanExceed` | src/finharness/agent_context_projection.py:371-380 | keys left out are listed in full twice on every rung: when that alone is over the budget, so is the projection |
| `ProjectionBudget.UnselectedKeyCanExceed` | src/finharness/agent_context_projection.py:694-702 | one unselected summary key longer than half the budget is too much for every pack whose spec selects its keys |
| `ProjectionBundle.SortIsStable` | src/finharness/agent_context_projection.py:480-483 | packs are ordered by priority, each priority's packs in their given order |
| `ProjectionBundle.ProjectedDescribed` | src/finharness/agent_context_projection.py:631-635 | the name, priority and references the bundle reads of a projected pack are those its JSON holds |
| `ProjectionBundle.MorePacksCostMore` | src/finharness/agent_context_projection.py:486-502 | adding packs never makes a bundle smaller, with its references deduplicated across packs |
| `ProjectionBundle.BuildBundle` | src/finharness/agent_context_projection.py:473-526 | the loop builds the greedy selection with its cleaned gaps |
| `ProjectionBundle.BundleExact` | src/finharness/agent_context_projection.py:510-526 | the finished bundle holds the packs included and each gap once without blanks at its ends, and is flagged truncated exactly when there is any |
| `ProjectionBundle.NoticeNamesPack` | src/finharness/agent_context_projection.py:503-509 | an omission gap contains the name of its pack |
| `ProjectionBundle.EveryPackAccountedFor` | src/finharness/agent_context_projection.py:486-509 | the bundle is a priority-ordered selection and every other pack is named in an omission gap |
| `ProjectionBundle.BundleWithinBudgetPlusNotices` | src/finharness/agent_context_projection.py:486-526 | once a pack is accepted the bundle is at most the budget plus the notices after the last accepted pack |
| `ProjectionBundle.AllIncludedIffWholeFits` | src/finharness/agent_context_projection.py:486-526 | every pack is included if and only if the bundle of all of them fits the budget, and then the finished bundle fits it too |
| `ProjectionBundle.NoticeOverrunsBudget` | src/finharness/agent_context_projection.py:503-526 | a full first pack and an omitted second one overrun the budget by exactly the notice less one |
| `ProjectionBundle.PlainBudgetBoundFailsIff` | src/finharness/agent_context_projection.py:503-526 | over packs that are JSON objects with a name, some make a bundle over its budget exactly when the profile has room for one small pack |
| `BundleOverrun.ProjectedPacksCanExceed` | src/finharness/agent_context_projection.py:456-526 | under every profile a payload exists that, given twice, makes a bundle of projected packs that holds one of them and is over its budget |
| `CapitalBundle.CapitalPackIncludedIff` | src/finharness/agent_context_projection.py:456-470 | under every profile the one capital pack among the projected packs is in the bundle exactly when the bundle of it alone fits, whatever the others are |
| `CapitalBundle.CapitalPackFitsAlone` | src/finharness/agent_context_projection.py:117-315 | that is so under every profile whenever the capital pack fits its own budget |
| `CapitalBundle.AdmissionKeysReachBundle` | src/finharness/agent_context_projection.py:422-470 | then the projected capital pack in the finished bundle has every admission key of the summary handed to the builder, with booleans, numbers, nulls and short strings unchanged |
| `AvailabilityCache.ToolAvailability.CheckToolAvailabilityCached` | src/finharness/agent_tool_availability.py:130-203 | answer with its reason, and whole new cache, of one call |
| `AvailabilityCache.CacheIsJustified` | src/finharness/agent_tool_availability.py:166-199 | a cached entry is the latest real success or a real failure, with its reason, at its own time |
| `AvailabilityCache.AnswersAreEarned` | src/finharness/agent_tool_availability.py:116-203 | over any history, available means a real success now or the latest one less than max(TTL, grace) ago; unavailable for a registered tool means a real failure now or less than TTL ago; the reason is that of the check the answer rests on |
| `AvailabilityCache.GraceRunsOut` | src/finharness/agent_tool_availability.py:181-203 | once max(TTL, grace) has passed since the latest success, only a new real success makes the tool available |
| `AvailabilityCache.CacheIsLastStored` | src/finharness/agent_tool_availability.py:158-199 | over any history the cache holds, for each tool, exactly the last check stored since it was cleared |
| `AvailabilityCache.AnswerIsRepeated` | src/finharness/agent_tool_availability.py:155-164 | within TTL of the last stored check none is run, its answer and reason are repeated and the cache stays |
| `AvailabilityCache.SuccessIsStored` | src/finharness/agent_tool_availability.py:158-179 | past TTL, or with nothing stored, a check is run, and a success is answered and stored as it is |
| `AvailabilityCache.GraceIsOwed` | src/finharness/agent_tool_availability.py:181-192 | less than max(TTL, grace) after the latest success, with nothing cleared and no unavailable answer since, the answer is available; a failed check inside the grace leaves the cache unchanged and is told with the age of that success |
| `AvailabilityCache.UnregisteredIsRefused` | src/finharness/agent_tool_availability.py:148-153 | an unregistered tool is refused by name and nothing is stored |
| `CallGraph.ReachableFunctionNodes` | scripts/check_capital_import_entrypoints.py:70-92 | the walk ends on cyclic graphs and returns each function reachable by call name exactly once |
| `CallGraph.ReachableCallNames` | scripts/check_capital_import_entrypoints.py:95-102 | exactly the names called in some reachable function |
| `TaskExposure.DiscoverTaskExposures` | scripts/check_capital_import_entrypoints.py:428-472 | the loop ends with the least set holding the direct tasks and closed under mentioning a discovered task |
| `TaskExposure.LeastSetUnique` | scripts/check_capital_import_entrypoints.py:447-472 | that set is unique, so iteration order does not matter |
| `TaskExposure.FoundExactly` | scripts/check_capital_import_entrypoints.py:450-471 | a task is found exactly when its block contains a script path, an adapter symbol, a function reference that is no path, or the name of another task found |
| `DocNavigation.CurrentMarkdownPaths` | scripts/sync_current_docs.py:429-446 | the walk ends with exactly the maintained documents reachable through maintained documents, each once, in order |
| `DocNavigation.LinkGraphExact` | scripts/sync_current_docs.py:429-446 | the nodes are the maintained Markdown documents, the edges their links to Markdown files |
| `DocNavigation.ValidateNavigation` | scripts/sync_current_docs.py:449-470 | the failures are those of every link out of those documents, in order: one for each that leaves the repository or does not exist, so the check is clean exactly when there is none |
| `TrustMap.TrustExtraction.ExtractContextTrustMap` | src/finharness/agent_context_trust_map.py:39-71 | the loops end with exactly the trust each reference has by the payload, and every finding in order |
| `TrustMap.TrustExtraction.ExtractPackTrust` | src/finharness/agent_context_trust_map.py:81-117 | pack claims fill in, item claims override |
| `TrustMap.TrustExtraction.ExtractItemsTrust` | src/finharness/agent_context_trust_map.py:120-153 | item claims in order, with a finding for each malformed or unreferenced item |
| `TrustMap.TrustPrecedence` | src/finharness/agent_context_trust_map.py:39-153 | for any payload: if some item with valid trust names the reference, its trust is that of the last such item, whatever the packs say; else that of the first pack with valid trust naming it; else it is absent. Items name references by source_refs and receipt_ref, packs by source_refs, receipt_refs and context_pack_refs |
| `TrustMap.FindingsExact` | src/finharness/agent_context_trust_map.py:39-153 | the findings are exactly the faults of packs and items: malformed ones, malformed trust, and valid trust without a reference, each with its place |
| `WeightedMedian.WeightedMedian` | scripts/run_scf_capital_dogfood.py:115-124 | for nonempty rows with nonnegative weights the loop returns the least value with half the weight at or below it |
| `WeightedMedian.MedianSplitsWeight` | scripts/run_scf_capital_dogfood.py:115-124 | at most half the weight is strictly below that value and at most half strictly above |
| `WeightedMedian.MedianIgnoresOrder` | scripts/run_scf_capital_dogfood.py:116-123 | the median does not depend on the order of rows or ties |
| `WeightedMedian.SelectHousehold` | scripts/run_scf_capital_dogfood.py:127-147 | the choice is an eligible household minimizing (distance to the median, id) |

## Left out

- Concurrent writers of the receipt index: the code takes no lock there; one writer is modelled, with slow readers.
- Loosely typed payload fields of a context pack (`_field_values` on numbers or nested values, a pack without a name): fields are texts or lists of texts.
- Non-string dictionary keys, and `str(key)` collisions, in bounded values: objects have string keys.
- `_fit_pack_to_budget` of the projection updates dictionaries in place: it is modelled on values, so aliasing of the shared gap list and of nested refs is not captured.
- Sorting of keys in serialized text: fields are written in their own order, which has the same length.
- `_entry_from_path` field extraction: an entry's fields are given, with its path.
- Case folding in search, `Path.resolve`, and link extraction from Markdown: parameters of the model.
- Path order of `current_markdown_paths`: results are listed in text order, not by path components.
- Parsing of task blocks, the call graph and registry binding text: given as data.
- Decimal rounding in the weighted median: reals are used.
- Timestamps and their formats: integers, or `None` when the text does not parse.
- DOM rendering, HTTP, subprocess and provider calls, model conversation, gate ordering and tool metadata: they would add only easy members.
- `CapitalAgentStore` beyond Mission, Belief and checkpoint artifacts, identity claims and Capital World resolution.
