# Verified models of a novel-writing backend

Dafny models of six cores of the backend, with proofs about all their inputs,
runs and interleavings.

- **Transport lifecycle** (`Transport*.dfy`). The shared OpenAI transport is a
  class whose methods are the locked regions of the transport; `TransportRuns`
  interleaves any number of `start`, `aclose` and request callers with the
  internal start and close tasks and with cancellation at every wait.
- **Planning aggregate** (`Planning*.dfy`, `Completion*.dfy`,
  `ChapterOutlines.dfy`, `ImportIdentities.dfy`, `OutlineImport.dfy`). A
  revisioned tree of volumes, plots, blocks, stages and tasks: normalising a
  draft, patching after a finalised chapter, runs of save and confirm, generated
  continuations, and renaming on import. The canonical hash is the free
  injective one.
- **Canon conflicts** (`Canon*.dfy`). The pairwise interval rule, its meaning as
  satisfiability of all facts at every chapter, and the scan.
- **Streaming SSE parser** (`Sse*.dfy`, `Utf8.dfy`). The byte machine and its
  agreement with the batch reading of sections 9.2.5 and 9.2.6 of the WHATWG
  HTML Living Standard under every chunking.
- **Corpus** (`Corpus*.dfy`, `Composition.dfy`, `NormalizedText.dfy`,
  `Retrieval.dfy`, `CandidateCollector.dfy`). Byte and character offsets of
  chapters, fragments, normalised text with the span of every character, excerpt
  windows and the streaming top twenty. Composition follows section 3.11 of the
  Unicode Standard.
- **Canonical forms** (`PackageRecords.dfy`, `PackageReader.dfy`,
  `ChapterLinks.dfy`, `ManuscriptVolumes.dfy`). The strict record reader against
  the one canonical print, and the canonical volume structure of a manuscript.

`Ordering.dfy` holds the stable sort by key that several of them share,
`Wrappers.dfy` the option and result types. `Instances.dfy` shows that what the
theorems assume can be met: a record format with one line per record, the real
UTF-8 encoding of corpus sources with its strict decoder, and an identity map for
every aggregate.

Code that works step by step is modelled by methods with loops or by classes, each
proved equal to a specification function or to a stated property; the lemmas are
about those functions. Library behaviour enters as function parameters with the
laws they are used for: JSON parsing, the Unicode character database, codecs,
UUIDs, the id factory, the field types of the request models.

Where code and documentation disagree the code is followed. Some results are
sharper than the design suggests.

- A change of the creative basis can break the chain of confirmed plans, because
  the next draft starts empty and saves on the new basis are judged against
  nothing. `PlanningBasisChange.LosingRun` is such a run. The chain survives
  exactly when every confirmation finds a draft that keeps the head
  (`PlanningSurvival.ChainSurvivesIff`): saves alone on a new basis keep nothing
  of the old head, an accepted load keeps all of it, and a save after a load keeps
  all of it iff its content names every node.
- The package printer can print two revisions of one identity, which the reader
  refuses; `PackageRecords.PrintedIsRead` gives the exact condition.
- Composing a fragment unit by unit is composing it exactly while no unit reaches
  back into the one before it (`NormalizedText.UnitsComposeIff`). Texts with a
  trail jamo behind a precomposed syllable, or with a halfwidth voiced mark behind
  the letter it voices, are not of that kind.
- An imported plot with an explicit null character design is hashed with the null
  and read without it, so the next save revises it
  (`PlanningImportGuarantees.ArrivedIsFixedPointIff`).

## Model

| member | source | states |
|---|---|---|
| `Transport.OpenAIJSONTransport.Start` | backend/gateways/openai_json_transport.py:295-372 | one pass of the entry region of `start`: a waiter is counted on the running start, an owner on the open transport, a new generation begins only from NEW or CLOSED with no close pending, and nothing else changes |
| `Transport.OpenAIJSONTransport.StartPublishes` | backend/gateways/openai_json_transport.py:281-292 | the start task publishes its client and OPEN, or clears the generation and goes BROKEN, and clears the start task only if it is its own |
| `Transport.OpenAIJSONTransport.EnsureIntent` | backend/gateways/openai_json_transport.py:421-442 | a close intent is set once: a close that waits for the start while STARTING, a draining close while OPEN, none otherwise |
| `Transport.OpenAIJSONTransport.FinishStart` | backend/gateways/openai_json_transport.py:444-472 | the waiter leaves its generation, becomes an owner if it claims, and a rollback begins a close only when nobody is left in the current generation |
| `Transport.OpenAIJSONTransport.RollbackStart` | backend/gateways/openai_json_transport.py:474-499 | an unowned start withdraws, giving up its ownership if it had one, and begins a close only when nobody is left in the current generation |
| `Transport.OpenAIJSONTransport.DrainOnce` | backend/gateways/openai_json_transport.py:515-520 | one test of the drain condition: with active calls the close sleeps on, with none it takes the client and enters CLOSING |
| `Transport.OpenAIJSONTransport.ClosePublishes` | backend/gateways/openai_json_transport.py:536-545 | the close publishes CLOSED or BROKEN by whether the client closed, ends the generation and clears only its own close task |
| `Transport.OpenAIJSONTransport.AfterStart` | backend/gateways/openai_json_transport.py:547-576 | a close that waited for a start ends in BROKEN when the start failed and drains when it succeeded |
| `Transport.OpenAIJSONTransport.Close` | backend/gateways/openai_json_transport.py:578-606 | the entry region of `aclose`: CLOSED from NEW, the running close joined, a close begun from STARTING or OPEN, an error on a broken transport nobody closes |
| `Transport.OpenAIJSONTransport.Forget` | backend/gateways/openai_json_transport.py:607-612 | the last region of `aclose` clears the close task only when it is the one waited for |
| `Transport.OpenAIJSONTransport.CallEnds` | backend/gateways/openai_json_transport.py:622-640 | a call ends: the count falls by one and the drain condition is notified exactly at zero |
| `Transport.OpenAIJSONTransport.AdmitCall` | backend/gateways/openai_json_transport.py:642-652 | a call is admitted only on an OPEN transport with a client and no close intent, and is then counted |
| `TransportRuns.StepKeepsInv` | backend/gateways/openai_json_transport.py:295-652 | the invariant of the lifecycle is kept by every step of every caller, task and call in any interleaving, with cancellation at any wait |
| `TransportRuns.RunKeepsInv` | backend/gateways/openai_json_transport.py:208-235 | every interleaving from a new transport keeps that invariant |
| `TransportGuarantees.CallsHoldTheClient` | backend/gateways/openai_json_transport.py:512-545 | in every reachable state the admitted, unfinished calls number exactly the active count, each holds the current unclosed client, and while a client is being closed there are none |
| `TransportGuarantees.ClientsAreConserved` | backend/gateways/openai_json_transport.py:259-293 | clients ever created are exactly those closed, held, on their way to being published, or being closed, with no client in two of these |
| `TransportGuarantees.LifecycleShape` | backend/gateways/openai_json_transport.py:512-576 | STARTING iff a start task is set; a client is held iff OPEN or DRAINING; DRAINING or CLOSING has a live close task; the live close is the recorded one |
| `TransportGuarantees.EntryFailsOnlyWhenBroken` | backend/gateways/openai_json_transport.py:295-372 | the branches of `start` and `aclose` that find no task to wait for run exactly on a broken transport nobody is closing |
| `TransportGuarantees.CloseTaskFindsItsPhase` | backend/gateways/openai_json_transport.py:547-576 | a close that waited for a start finds OPEN or that start's BROKEN, and a drain finds DRAINING with a client |
| `TransportGuarantees.BrokenIsForever` | backend/gateways/openai_json_transport.py:287-293 | no step leaves BROKEN |
| `TransportGuarantees.FinishedCloseClearsNothing` | backend/gateways/openai_json_transport.py:607-620 | the clearing at the end of `aclose` never removes a newer close task |
| `TransportGuarantees.StartsAreCounted` | backend/gateways/openai_json_transport.py:295-419 | each generation's waiters and owners equal the registered `start` callers, and OPEN with no close task is wanted by at least one of them |
| `TransportGuarantees.CloseBeginsWithTheLastInterest` | backend/gateways/openai_json_transport.py:444-499 | a start that finishes or rolls back begins a close iff it withdraws as the last interest in the current generation with no close pending; from an older generation it touches nothing newer |
| `TransportGuarantees.NothingAdmittedWhileClosing` | backend/gateways/openai_json_transport.py:642-652 | once a close intent exists an admission changes nothing |
| `TransportGuarantees.AdmissionIs` | backend/gateways/openai_json_transport.py:642-652 | in every reachable state a call is admitted, counted and lent the held client iff the transport is OPEN with no close intent, however many calls are running; otherwise nothing changes |
| `TransportGuarantees.CallEndsAlone` | backend/gateways/openai_json_transport.py:622-640 | a call that ends leaves the others running, and wakes the closes asleep on the drain iff it is the last |
| `TransportGuarantees.StartEntryIs` | backend/gateways/openai_json_transport.py:295-372 | what a start finds at its entry decides where it goes: a close to wait for, an open transport to own at once, a running start to join, a broken one to fail on, and else it begins a start of its own |
| `TransportGuarantees.StartTaskPublishes` | backend/gateways/openai_json_transport.py:244-293 | a start task that made a client opens the transport with it, one that made none breaks it; the task ends with that answer |
| `TransportGuarantees.WaiterOutcome` | backend/gateways/openai_json_transport.py:374-420 | a start that waited to the end owns its generation iff the start it waited for succeeded, and fails otherwise; it begins no close |
| `TransportGuarantees.CancelledStartLeaves` | backend/gateways/openai_json_transport.py:364-392 | a cancelled start never owns: it leaves at once, or waits for the close its leaving began or met |
| `TransportGuarantees.CloseEntryIs` | backend/gateways/openai_json_transport.py:578-606 | what an `aclose` finds at its entry: CLOSED from NEW or CLOSED, the live close to settle, an error on a broken transport, and else a close begun, waiting for the start while STARTING and draining while OPEN |
| `TransportGuarantees.CloserOutcome` | backend/gateways/openai_json_transport.py:606-620 | an `aclose` that settled a close returns iff the client was closed, and fails otherwise |
| `TransportGuarantees.StepRank` | backend/gateways/openai_json_transport.py:512-545 | no step raises the rank of a live close and every progress step lowers it |
| `TransportGuarantees.CloseIsNeverStuck` | backend/gateways/openai_json_transport.py:512-576 | a live close can always be moved on by an internal task or a call that ends |
| `TransportGuarantees.CloseEndsClosedOrBroken` | backend/gateways/openai_json_transport.py:536-545 | a close that ends leaves CLOSED or BROKEN by its answer and no close task |
| `TransportGuarantees.CloseTerminates` | backend/gateways/openai_json_transport.py:512-576 | whatever the callers do meanwhile, a run with more progress steps than the rank of a live close passes through its end in CLOSED or BROKEN |
| `Canon.EventKeyInjective` | backend/domain/canon.py:408-424 | the sort key tells any two well-formed events apart |
| `Canon.ReportedOnce` | backend/domain/canon.py:496-515 | every unordered hard pair the scan compares is reported in exactly one order |
| `CanonMeaning.PairwiseIsSatisfiable` | backend/domain/canon.py:358-405 | facts of one cardinality a field are pairwise free of conflict iff one assignment of values to all chapters satisfies them all |
| `CanonMeaning.ScanDecidesSatisfiability` | backend/domain/canon.py:454-521 | over satisfiable existing facts the scan reports nothing iff existing and incoming facts together are satisfiable at every chapter |
| `CanonMeaning.RunStaysSatisfiable` | backend/domain/canon.py:454-521 | appending only conflict-free batches keeps the whole history satisfiable |
| `CanonScan.UniqueSortedEvents` | backend/domain/canon.py:427-439 | the events in strict key order, each once |
| `CanonScan.StableGroups` | backend/domain/canon.py:442-451 | each scope's stable events in the order given, and no scope without any |
| `CanonScan.ScopeConflicts` | backend/domain/canon.py:496-515 | the hard pairs of one scope, old with new and new with new, each unordered pair once |
| `CanonScan.FindHardConflicts` | backend/domain/canon.py:454-521 | fails iff a scope mixes cardinalities; otherwise lists in order precisely the conflicting unordered pairs of confirmed stable events, each once |
| `CanonScan.ReportDependsOnSets` | backend/domain/canon.py:454-521 | the report is the same for any order and any duplicates of the two inputs |
| `CanonOrder.EventsInOrder` | backend/domain/canon.py:408-424 | events are ordered by entity, field path, kind, status, operator, cardinality, start, end, value and evidence: texts alphabetically, an open start before every chapter, an open end behind every chapter |
| `CanonOrder.ConflictsInOrder` | backend/domain/canon.py:516-521 | the reported conflicts are ordered by the old event and then by the new one |
| `Sse.OpenAITextSSEParser.Feed` | backend/gateways/openai_sse.py:103-126 | a chunk is accepted, emits and leaves the parser as feeding its bytes one by one does, a chunk after the end is refused |
| `Sse.OpenAITextSSEParser.Finish` | backend/gateways/openai_sse.py:128-133 | `finish` succeeds iff flushing the pending line leaves no line, no data and the end mark seen |
| `Sse.OpenAITextSSEParser.TakeByte` | backend/gateways/openai_sse.py:109-125 | one byte: a pending CR ends its line unless LF follows, CR and LF never enter the line, every byte is counted |
| `Sse.OpenAITextSSEParser.EndLine` | backend/gateways/openai_sse.py:140-166 | a finished line is a comment, a data field, an ignored field or, if blank, an event to dispatch |
| `SseMeaning.FeedBounded` | backend/gateways/openai_sse.py:135-170 | held line bytes and pending data bytes never exceed the counted event bytes, and those never exceed the limit |
| `SseMeaning.RecheckNeverFires` | backend/gateways/openai_sse.py:172-180 | the size recheck when an event is dispatched can never fail |
| `SseMeaning.FinishDiscardsNothing` | backend/gateways/openai_sse.py:128-133 | when `finish` succeeds the line it flushed carried no text |
| `SseMeaning.ChunkingIsInvisible` | backend/gateways/openai_sse.py:103-126 | for every way of cutting a byte stream the feeds accept, emit and end as one feed of the whole |
| `SseMeaning.DoneRefuses` | backend/gateways/openai_sse.py:103-112 | after the end mark any further byte is refused |
| `SseBatch.WholeIsLines` | backend/gateways/openai_sse.py:140-170 | a stream is its lines, split at CR, LF or CRLF with CRLF counting once, even across a cut |
| `SseBatch.LinesAreEvents` | backend/gateways/openai_sse.py:140-220 | stepping line by line accepts and emits as collecting the data of each event up to its blank line does |
| `SseBatch.StreamMeansBatch` | backend/gateways/openai_sse.py:103-220 | any chunked stream that finishes gives the text of the batch reading: split into lines, then dispatch at blank lines; and fails exactly when that fails |
| `SseStreams.StreamsAreRead` | backend/gateways/openai_sse.py:103-220 | a stream written as events, each line as `data: `, `data:`, a bare `data` or a comment, ended by LF, CR or CRLF, the last event `[DONE]`: in whatever chunks it comes it is accepted iff every event is within 65536 bytes and 1024 lines and its lines joined by newlines are answered, and it then emits exactly the answers in order |
| `SseStreams.ForeignIsRefused` | backend/gateways/openai_sse.py:140-166 | a stream with a line of any other field, or with a line that is not UTF-8, is refused however it is cut |
| `Utf8.DecodesWhatIsEncoded` | backend/gateways/openai_sse.py:152-155 | strict UTF-8 decoding gives every encoded text back |
| `Utf8.DecodedIsEncoded` | backend/gateways/openai_sse.py:152-155 | and decodes nothing but encodings: no overlong form, no surrogate, nothing beyond the last code point |
| `PlanningNormalizer.NormalizePlanningAggregate` | backend/domain/planning.py:389-655 | the run with its allocation and level loops returns exactly the formal aggregate of an acceptable draft and fails on every other |
| `PlanningNormalizer.Allocate` | backend/domain/planning.py:434-461 | ids are given node by node; succeeds iff new ids are non-empty, new to the server, nobody's client key and all ids differ |
| `PlanningNormalizer.AcceptsByLevel` | backend/domain/planning.py:414-620 | the walk over all draft nodes checks the same as the loops over volumes, plots, blocks, stages and tasks |
| `PlanningAcceptance.AcceptedIff` | backend/domain/planning.py:314-655 | a draft is accepted iff: its references differ and none of an existing node is empty; orders differ on each level; each existing node is at the revision, hash and kind of its newest version and stays retired if it was confirmed so; every confirmed id is named; each block names a volume and different plots of the draft; the active reference names an active block; and the ids drawn are non-empty, new, different and nobody's client key |
| `PlanningAcceptance.WalkHasAll` | backend/domain/planning.py:275-282 | the walk over the draft meets the nodes of every level and no others |
| `PlanningAcceptance.NewNodesDraw` | backend/domain/planning.py:434-461 | the i-th node of the result is the i-th of the walk under its own id, or under the id drawn after those of the new nodes before it |
| `PlanningIdentity.AcceptedNodesAreCurrent` | backend/domain/planning.py:314-351 | optimistic locking: an accepted draft names each existing node at the revision, hash and kind of its last version |
| `PlanningIdentity.NewNodesGetNewIds` | backend/domain/planning.py:434-461 | a new node starts at revision 1 under a non-empty id unknown to both previous versions and to the draft's client keys |
| `PlanningIdentity.ResultMirrorsDraft` | backend/domain/planning.py:354-386 | place by place the result has the draft's lifecycle, order and fields, a true hash, and a revision raised by one iff the hash changed |
| `PlanningIdentity.ReferencesResolve` | backend/domain/planning.py:511-627 | a volume, plot or container reference becomes the id of the very node it names, and so does the active block's |
| `PlanningClosed.FormalIds` | backend/domain/planning.py:434-461 | the i-th node of the result is the i-th draft node under its assigned id |
| `PlanningClosed.NormalizedIsCanonical` | backend/domain/planning.py:389-655 | whatever ids the factory yields, the result is closed: volumes and distinct plots exist, stages and tasks name their container, ids and orders are unique, the active block exists and is active, all hashes are true |
| `PlanningFixedPoint.EditsReviseNodeByNode` | backend/domain/planning.py:354-386 | editing fields of the latest aggregate is always accepted and gives the aggregate revised node by node |
| `PlanningFixedPoint.LatestIsFixedPoint` | backend/domain/finalization_planning.py:42-55 | normalising the editable form of the latest aggregate returns it unchanged, for every factory |
| `PlanningFixedPoint.EditsAllocateNothing` | backend/domain/finalization_planning.py:97-109 | the editable form has no new node, so no id is asked for |
| `PlanningRuns.SavedDraftFollows` | backend/domain/planning.py:314-374 | a saved draft keeps every node of the confirmed aggregate: same kind, revision not lower, equal revision only with equal hash, retired stays retired |
| `PlanningRuns.StepKeepsInv` | backend/services/planning.py:185-480 | creating, saving, loading, discarding, confirming, patching and a change of basis all keep: confirmed revisions closed and confirmable, each following its predecessor of the same basis, the draft following the head |
| `PlanningRuns.ConfirmedChain` | backend/services/planning.py:306-480 | in every run each confirmed revision is closed and confirmable, and follows every earlier one while the basis stays |
| `PlanningRuns.ConfirmedNodesEndure` | backend/domain/planning.py:314-374 | while the basis stays, over any run no confirmed node is lost, retyped, reactivated or lowered, and one id and revision is one content |
| `PlanningRuns.RevisionsNameOneContent` | backend/domain/planning.py:354-374 | a node id with a revision names one and the same node in an aggregate and any that follows it |
| `PlanningRuns.ChangedBasisStartsOver` | backend/services/planning.py:206-213 | after a change of basis the next created draft is empty and follows no head that has nodes |
| `PlanningSteps.SaveStepIs` | backend/services/planning.py:229-304 | a save on a standing draft takes the normalised content iff that is acceptable against the newest revision of the same basis and the draft, and otherwise changes nothing; on any other draft it only drops the draft |
| `PlanningSteps.LoadStepIs` | backend/services/planning_generation.py:555-572 | a generated draft is taken into a standing draft iff it is acceptable against the newest revision on whatever basis and the draft |
| `PlanningSteps.CreateStepIs` | backend/services/planning.py:180-227 | a standing draft is returned as it is; otherwise the new draft holds the newest revision if that is of the basis, and no node if not |
| `PlanningSteps.ConfirmStepIs` | backend/services/planning.py:306-480 | a standing draft fit for confirmation becomes the newest revision on the current basis and is gone; an unfit one stays, and one that does not stand is dropped |
| `PlanningSurvival.SaveFollowsIff` | backend/domain/planning.py:314-374 | a save judged against the head, or against nothing with new ids that avoid the head, follows the head iff its content names every node of it, the retired ones as retired |
| `PlanningSurvival.JudgedNamesAll` | backend/domain/planning.py:640-647 | content accepted against the head names every node of it, the retired ones as retired |
| `PlanningSurvival.TakenKeeps` | backend/services/planning.py:240-304 | in any reachable state an accepted save or load, on the head's basis or another, leaves a draft that follows the head iff its content names all of it |
| `PlanningSurvival.KeepingDecides` | backend/services/planning.py:185-304 | in every run, whatever the changes of basis, the standing draft follows the head iff it was created from it on its basis or the last accepted save or load names all of it |
| `PlanningSurvival.ChainSurvivesIff` | backend/services/planning.py:185-455 | in every run, whatever the changes of basis, each confirmed revision follows every earlier one iff every confirmation found a draft whose steps keep the head in that sense |
| `PlanningSurvival.LoadKeepsHead` | backend/services/planning_generation.py:555-572 | an accepted load with no save after it leaves a draft that follows the head, whatever the basis |
| `PlanningSurvival.SavesKeepNothing` | backend/services/planning.py:259-270 | on another basis than the head's, drafts made by any number of creations and saves alone hold no node of the head |
| `PlanningSurvival.StartingOverBreaks` | backend/services/planning.py:306-455 | confirming such a draft adds a revision that holds no node of its predecessor and does not follow it |
| `PlanningBasisChange.LosingRun` | backend/services/planning.py:185-455 | a run in which two revisions are confirmed with a change of basis between them and the second holds no node of the first |
| `PlanningBasisChange.SurvivingRun` | backend/services/planning_generation.py:555-572 | from any state with a head: change the basis, create, load the editable head, confirm; the new revision is the old plan on the new basis |
| `PlanningConfirmation.ValidateConfirmablePlanning` | backend/domain/planning.py:664-712 | the check before confirmation succeeds iff every active design has nodes with something filled in, the last block of the active id is active with an active stage and task, and the last volume and plots of the ids it names are active, for any aggregate |
| `PlanningConfirmation.ChecksConfirmable` | backend/domain/planning.py:664-712 | where node ids are distinct the dictionaries decide exactly what confirmation asks for |
| `PlanningRuns.PatchedIsConfirmable` | backend/domain/planning.py:664-712 | patches of the allowed fields keep an aggregate fit for confirmation |
| `PlanningPatches.ApplyPlanningPatches` | backend/domain/finalization_planning.py:72-109 | patches are applied in order, stopping at the first that targets an implemented, missing or stale node, then normalised |
| `PlanningPatches.NodesByType` | backend/domain/finalization_planning.py:58-69 | the dictionary by type and id is the per-kind dictionary of the aggregate's nodes |
| `PlanningPatches.PatchesAccepted` | backend/domain/finalization_planning.py:72-109 | a patch list is accepted iff it is empty or no patch is refused and the new fields fit; normalising never fails on it |
| `PlanningPatchAcceptance.PatchesAcceptedIff` | backend/domain/finalization_planning.py:72-109 | patches are accepted iff each names a node of its kind that nobody implemented, at that node's revision and hash, and every field then has a value its type takes |
| `PlanningPatchAcceptance.FirstBadPatch` | backend/domain/finalization_planning.py:83-95 | the first bad patch decides the error: implemented, missing, or stale in revision or hash |
| `PlanningPatchAcceptance.PatchStepIs` | backend/services/finalization_commit.py:440-470 | in a run, good patches append the patched head on the head's basis and leave draft and basis alone; a bad one leaves everything as it was |
| `PlanningPatches.PatchesAreLocal` | backend/domain/finalization_planning.py:72-109 | every node keeps place, id, kind, lifecycle, order and relations; only targeted ones may change, by exactly one revision iff their fields changed, however many patches hit them |
| `PlanningPatches.PatchesWriteLastValues` | backend/domain/finalization_planning.py:83-95 | a field holds the last replacement addressed to it, or what it held before |
| `PlanningPatches.PatchedIsCanonical` | backend/domain/finalization_planning.py:97-106 | a patched aggregate is again closed |
| `PlanningRuns.PatchedFollows` | backend/domain/finalization_planning.py:72-109 | a patched aggregate follows the one it patches |
| `ChapterOutlines.ProtectedOutlineNodeIds` | backend/domain/finalization_planning.py:14-28 | the collected set holds exactly the ids some outline mentions |
| `ChapterOutlines.SliceOkIff` | backend/domain/chapter_outlines.py:189-236 | the checks pass iff volume, block, stages and tasks are nodes of their kind in the aggregate, active and at the referenced revision and hash, the block is the active one in that volume, stages belong to it, tasks to a selected stage, and no stage or task is named twice |
| `ChapterOutlines.ReferenceSurvives` | backend/domain/chapter_outlines.py:144-154 | a reference to a protected node resolves to the identical node after patching |
| `ChapterOutlines.ReferenceSurvivesIff` | backend/domain/chapter_outlines.py:144-154 | any reference survives patching iff the node's fields came out as they were |
| `ChapterOutlines.OutlinesSurvivePatches` | backend/domain/chapter_outlines.py:205-236 | every outline whose nodes are protected still passes its reference, lifecycle, active-block and ownership checks on the patched aggregate |
| `ImportIdentities.BuildImportIdentityMap` | backend/domain/project_import_plans.py:1363-1405 | succeeds iff the identities are closed, distinct, hold exactly one project and their targets do not collide; the map is then total and injective |
| `Instances.EveryPlanCanBeImported` | backend/domain/project_import_plans.py:1363-1405 | every aggregate has an injective map of its ids to non-empty ones |
| `PlanningImport.RewritePlanning` | backend/domain/project_import_plans.py:335-361 | fails iff some id slot is unmapped; otherwise every id slot holds its mapped id and nothing else changes |
| `PlanningImport.RehashPlanningNodes` | backend/domain/project_import_plans.py:578-603 | every node's hash becomes that of its public payload and nothing else changes |
| `PlanningImport.ImportPlanning` | backend/domain/project_import_plans.py:744-748 | both passes and the aggregate hash give the imported aggregate, or the import is invalid |
| `PlanningImportNodes.ImportableIff` | backend/domain/project_import_plans.py:335-361 | an aggregate can be imported iff the map has every id slot of every node under its literal type, and the active block's |
| `PlanningImportNodes.ImportMovesNodes` | backend/domain/project_import_plans.py:335-361 | node by node: each id slot holds the map's value for its literal type and old id, at its own place; volumes, blocks, stages and tasks keep their fields exactly, plots all but the design's entity; revision, lifecycle and order stay and the hash is true |
| `PlanningImportGuarantees.ImportedIsCanonical` | backend/domain/project_import_plans.py:335-361 | renaming a closed aggregate by an injective map and rehashing it gives a closed aggregate with true hashes, whatever hashes it came with |
| `PlanningImportGuarantees.ImportedNodes` | backend/domain/project_import_plans.py:578-603 | node by node: same place, kind, revision, lifecycle and order, the mapped id and a true hash |
| `PlanningImportGuarantees.RenamedFieldsKeep` | backend/domain/project_import_plans.py:305-311 | of a plot's own fields only the character design's entity is renamed, by the map |
| `PlanningImportGuarantees.ImportedIsFixedPoint` | backend/domain/project_import_plans.py:335-361 | the imported aggregate is a fixed point of the normaliser |
| `PlanningImportGuarantees.ArrivedIsFixedPointIff` | backend/domain/project_import_plans.py:578-603 | as the models read it back, an imported aggregate edited nowhere is accepted, raises by one exactly the nodes whose stored fields do not read back as they were hashed, and is unchanged iff there are none |
| `PlanningImportGuarantees.OnlyNullFailsToReadBack` | backend/domain/planning.py:78-88 | when reading drops an explicit null character design, those nodes are the ones that hold one |
| `OutlineImport.ImportOutline` | backend/domain/project_import_plans.py:375-388 | references are renamed by type, or the import is invalid, and pinned to the hashes of the rewritten aggregate |
| `OutlineImport.NodeHashes` | backend/domain/project_import_plans.py:617-634 | the table of node hashes by id |
| `OutlineImport.ReferenceFollowsImport` | backend/domain/project_import_plans.py:606-641 | a rewritten reference resolves to the renamed image of the node it named before |
| `OutlineImport.OutlineFollowsImport` | backend/domain/project_import_plans.py:606-641 | an outline passing its checks before the import is mapped and passes them after it |
| `OutlineImport.OutlineMoved` | backend/domain/project_import_plans.py:375-388 | reference by reference, at its own place: the map's id for the literal type, the old revision, and the hash of the rewritten node |
| `Completion.FillsTransitive` | backend/domain/planning_completion.py:69-96 | however often a node is completed, what was written first is never overwritten |
| `Completion.FilledIsFixed` | backend/domain/planning_completion.py:69-96 | a value with no gap can only be left as it is |
| `Completion.OverlayTwice` | backend/domain/planning_completion.py:8-21 | laying a patch over a value twice is laying it over once |
| `Completion.CompletionIsIdempotent` | backend/domain/planning_completion.py:8-21 | an accepted completion only fills, and completing again with the same patch changes nothing |
| `CompletionMeaning.AcceptedIffSuits` | backend/domain/planning_completion.py:8-96 | a patch is accepted iff it knows the shape of the node and writes only blank texts and empty lists; protected keys and written values it can only repeat |
| `CompletionMeaning.CompletionTakesThePatch` | backend/domain/planning_completion.py:8-21 | at every leaf of the node an accepted completion has the patch's value if the patch has one, and what was there if not |
| `PlanningFills.BlockFillsMeans` | backend/domain/planning_completion.py:69-96 | filling a block keeps identity, order, lifecycle, relations and every written text and list of the block and of each stage and task it had |
| `PlanningExpansionRuns.BlockFillsKeepRef` | backend/domain/planning_completion.py:69-96 | filling a block keeps its reference and order |
| `PlanningExpansionRuns.StepGrows` | backend/domain/planning_expansion.py:103-188 | an accepted next, fill or revise step leaves plots alone, extends block and volume references only at the end by at most one, and keeps block references and orders distinct |
| `PlanningExpansionRuns.RunOnlyAppends` | backend/domain/planning_expansion.py:103-188 | the same over any run of accepted steps |
| `PlanningExpansionRuns.ProtectedPartsEndure` | backend/domain/planning_expansion.py:126-161 | fill and revise steps leave every protected node, with all below it, where it was |
| `PlanningExpansionRuns.MergesGrow` | backend/domain/planning_expansion.py:16-72 | what a continuation, adjustment or completion merge returns only grew the draft at its end |
| `PlanningMerges.ContinuationIff` | backend/domain/planning_expansion.py:60-72 | a continuation succeeds iff the output has exactly the volume and block that are missing, each new and behind the others, and the block it makes active is active, populated and in its volume; it then appends them |
| `PlanningMerges.AdjustmentIff` | backend/domain/planning_expansion.py:16-23 | an adjustment succeeds iff the block carries the reference of the active target, its volume and order, is active with stages, and keeps every protected part; it then replaces that block alone |
| `PlanningMerges.CompletionIff` | backend/domain/planning_expansion.py:31-57 | a completion succeeds iff it sends exactly what has gaps, fills it, and leaves a complete active block in the volume that keeps protected parts; what was sent then stands in its place, or last, and is active |
| `PlanningMerges.InitialIff` | backend/domain/planning_expansion.py:160-168 | a first block is accepted iff there was none, and it is the only one, active, populated, and in the active volume of the lowest order |
| `PlanningExpansionRuns.CompletionKeepsComplete` | backend/domain/planning_expansion.py:31-57 | completion leaves complete blocks exactly as they were |
| `CorpusText.CoreSplits` | backend/domain/corpus.py:196-199 | newline normalisation and composition distribute over a split after a newline that no byte-order mark follows |
| `CorpusText.StripIs` | backend/domain/corpus.py:202-207 | stripping gives nothing iff the text is blank, and otherwise starts and ends on a non-blank |
| `CorpusChapters.BuildByteOffsets` | backend/domain/corpus.py:214-240 | succeeds iff all boundaries lie in the text, and maps each to the byte-order mark plus the encoded length of the prefix before it |
| `CorpusChapters.OffsetsCutRaw` | backend/domain/corpus.py:214-240 | the raw bytes between two offsets are the encoding of the text between the positions |
| `CorpusParser.ChapterSpans` | backend/domain/corpus.py:267-286 | one span per heading, one before them iff there is text, one for all without a heading |
| `CorpusParser.ParseChapters` | backend/domain/corpus.py:289-357 | the pass with its two cursors returns exactly the chapters of the spans that hold text |
| `CorpusHeadings.HeadingsAreChapters` | backend/domain/corpus.py:267-357 | each heading starts a chapter of its own: the section up to the next heading, if it holds text, is the chapter numbered one after the sections with text before it, under that heading's title and with raw bytes that decode to it; so is text before the first heading, as 前言; and there are no other chapters |
| `CorpusHeadings.NoHeadingsOneChapter` | backend/domain/corpus.py:267-274 | a source without headings is the one chapter 全文, or none if it holds no text |
| `CorpusText.NewlinesBecomeLf` | backend/domain/corpus.py:196-199 | a CR LF pair and a lone CR each become one LF and nothing else changes |
| `CorpusParse.CoreCut` | backend/domain/corpus.py:318-355 | the normalised core of a span is the cut of the whole core between the cursors |
| `CorpusParse.RawSliceDecodes` | backend/domain/corpus.py:321-331 | the recorded raw bytes of a span decode to exactly its text, so strict decoding never fails there |
| `CorpusParse.ChaptersPartitionTheText` | backend/domain/corpus.py:289-357 | every chapter is the slice of the whole normalised text at its recorded range and of its raw bytes, chapters are numbered and in order, and outside the ranges there is only whitespace |
| `Instances.Utf8SourcesQualify` | backend/domain/corpus.py:152-190 | a UTF-8 source, with or without a byte-order mark, meets all the parser asks of codecs |
| `CorpusFragments.FragmentEnd` | backend/domain/corpus.py:360-366 | a fragment ends at the bound, or behind the last newline of the bound's second half when it has one; a text within the bound is one fragment |
| `CorpusFragments.CutIsUnique` | backend/domain/corpus.py:360-366 | that description leaves one place to cut |
| `CorpusFragments.FragmentChapter` | backend/domain/corpus.py:369-417 | fragments are numbered, contiguous, within the bound and join to the chapter; all but the last are more than half full and end at the last newline the bound leaves |
| `Retrieval.RawWindow` | backend/domain/corpus_recommendations.py:170-173 | the window holds the hit in at most 200 characters: fifty before it and 150 from it on, or moved to the end of the text it would cross |
| `Retrieval.BestWindow` | backend/domain/corpus_recommendations.py:169-178 | the trimmed window is the stripped text of the raw one, at its true place |
| `NormalizedText.NormalizationUnits` | backend/domain/corpus_recommendations.py:68-85 | the units run from each cut to the next: a cut is every place but before a mark and within a lead jamo with its vowel and the trail behind them |
| `NormalizedText.UnitsAreContiguous` | backend/domain/corpus_recommendations.py:68-85 | the units cover the text without a gap and none is empty |
| `Composition.PiecewiseIff` | backend/domain/corpus_recommendations.py:94-95 | composing the pieces of a text one by one composes the text iff no piece starts with a character that forms a composite with the last starter of the piece before it |
| `Composition.CanonicalOrdering` | backend/domain/corpus_recommendations.py:94-95 | canonical ordering leaves every starter where it is with the same characters before it, lets the classes of the marks between starters rise, and keeps marks of one class in their order |
| `NormalizedText.UnitsComposeIff` | backend/domain/corpus_recommendations.py:88-111 | the same for the units of a text whose starters decompose to starters |
| `NormalizedText.TrailBehindSyllable` | backend/domain/corpus_recommendations.py:75-85 | a precomposed Hangul syllable without a trail and a trail jamo behind it are parted, and such a text never composes unit by unit |
| `NormalizedText.MarkOnItsOwn` | backend/domain/corpus_recommendations.py:83-85 | a halfwidth voiced mark, a starter that decomposes to a mark, is parted from the letter it would join |
| `NormalizedText.NormalizeWithBoundaries` | backend/domain/corpus_recommendations.py:88-111 | refuses iff what the units fold to is not what the text folds to; otherwise the result is the normalised text, each character is a space or occurs in what its span folds to, and spans lie in the text and ascend |
| `NormalizedText.TidyStep` | backend/domain/corpus_recommendations.py:95-107 | the loop with its pending separator adds to the text what splitting into words and joining by single spaces does |
| `NormalizedText.UnreachedIsNormalized` | backend/domain/corpus_recommendations.py:109-111 | a text in which no unit reaches back passes the boundary check |
| `Retrieval.TopOfTop` | backend/domain/corpus_recommendations.py:240-242 | sorting and truncating row by row keeps the first twenty of the stable sort of all rows |
| `Retrieval.TopIgnoresOrder` | backend/domain/corpus_recommendations.py:240-242 | with distinct fragment ids the result does not depend on the order of the rows |
| `Retrieval.TopIsBest` | backend/domain/corpus_recommendations.py:240-242 | at most twenty entries, best first; no entry left out has a higher score than one kept, and equal scores go by fragment id |
| `Retrieval.RatedIff` | backend/domain/corpus_recommendations.py:204-239 | a row is rated iff it has a hit, a positive score and a window that is not all whitespace; the entry is that window's text between its outer whitespace, at its true place in the chapter |
| `Retrieval.HitsWeigh` | backend/domain/corpus_recommendations.py:210-219 | a wanted gram counts eight in the tags, six in the display name, five in the chapter title, one in the text |
| `CandidateCollector.CorpusCandidateCollector.AddRows` | backend/domain/corpus_recommendations.py:199-243 | after any page the ranked entries are the top of everything rated so far; pages over 500 rows are refused |
| `CandidateCollector.CorpusCandidateCollector.RateRow` | backend/domain/corpus_recommendations.py:204-239 | a row is rated by its weighted gram hits with its window, or passed over |
| `CandidateCollector.CorpusCandidateCollector.Result` | backend/domain/corpus_recommendations.py:245-253 | the 4000-character budget drops no ranked candidate |
| `CandidateCollector.PagingIsInvisible` | backend/domain/corpus_recommendations.py:199-243 | however rows are paged, the collector ends with the first twenty of the stable sort of all |
| `PackageReader.StreamRecords` | backend/domain/project_import_plans.py:1507-1552 | the chunked reader returns what reading the delivered bytes line by line returns; its buffer size check can never fire |
| `PackageReader.TakeLines` | backend/domain/project_import_plans.py:1529-1545 | every complete line leaves the buffer as the next record, in strictly ascending order, or the bytes are refused |
| `PackageReader.AcceptsExactlyCanonical` | backend/domain/project_import_plans.py:1507-1552 | for any chunking, bytes are accepted with some records iff they are the canonical print of those records, in order, no identity twice, within the count |
| `PackageRecords.AcceptedIsCanonical` | backend/domain/project_packages.py:328-335 | accepted bytes are precisely the canonical form of the records they give |
| `PackageRecords.PrintedIsRead` | backend/domain/project_packages.py:324-335 | what was printed is read back in key order iff no identity occurs twice and there are not too many records |
| `PackageRecords.ReadsExactly` | backend/domain/project_import_plans.py:1493-1504 | the line reader accepts exactly the lines of good records and returns those |
| `PackageRecords.KeysInOrder` | backend/domain/project_packages.py:324-325 | records are ordered by entity type, logical id, revision and order, texts alphabetically |
| `PackageRecords.ReadInOrder` | backend/domain/project_import_plans.py:1529-1545 | accepted records come strictly in that order, no type and logical id twice, at most twenty thousand |
| `Instances.FormatExists` | backend/domain/project_packages.py:328-335 | a format that prints every record on one line of its own and parses it back exists |
| `ChapterLinks.ValidateAndSort` | backend/domain/finalized_chapter_structure.py:20-64 | links are accepted iff numbers are distinct, id and order with title determine each other, orders are positive and never fall with the chapter number; the result is sorted by number |
| `ChapterLinks.LinksAgree` | backend/domain/finalized_chapter_structure.py:32-47 | the two dictionaries detect exactly disagreement between id, order and title |
| `ChapterLinks.RunsRise` | backend/domain/finalized_chapter_structure.py:49-63 | the pass over runs succeeds iff the order never falls and is positive |
| `ManuscriptVolumes.CanonicalizeManuscriptVolumes` | backend/domain/manuscripts.py:143-198 | the loops return the chapters in global order grouped into runs, or refuse an empty volume or inconsistent links |
| `ManuscriptVolumes.AcceptedVolumes` | backend/domain/manuscripts.py:143-198 | accepted iff no volume is empty, no chapter number occurs twice, ids, orders and titles of volumes agree with positive orders, and no later chapter stands in an earlier volume |
| `ManuscriptVolumes.CanonicalEntries` | backend/domain/manuscripts.py:143-198 | no chapter is lost, none is added, and each keeps its volume |
| `ManuscriptVolumes.CanonicalIsIdempotent` | backend/domain/manuscripts.py:143-198 | canonicalising twice is canonicalising once |
| `ManuscriptVolumes.CanonicalRunsRise` | backend/domain/manuscripts.py:143-158 | volume orders rise strictly, so every volume is one continuous run |
| `ManuscriptVolumes.InputOrderIsInvisible` | backend/domain/manuscripts.py:143-198 | the order in which volumes and chapters are given does not matter |

## Left out

- HTTP requests, responses, timeouts and secret scanning of the transport: only its admission and the end of a call are modelled.
- The borrowed inner HTTP transport, task names, the number of cancellations delivered again to a caller and the identity of generation objects: generations are ids in a map and a cancelled caller is only marked as cancelled.
- Cancellation of the internal start and close tasks from outside, and the event loop's fairness: termination is stated against the number of progress steps.
- Transport.OpenAIJSONTransport.Count: the model keeps every generation it has ever seen, where the transport drops the object when nobody refers to it.
- Error messages and error subclasses: each operation has the failures a caller can tell apart and no texts.
- Length limits and patterns of request fields: records are taken as already typed; the patch model takes the field types as a parameter.
- JSON member checks, usage metadata and the text extraction of one SSE event: a partial function from the data string to optional text.
- The state of the SSE parser after it has raised an error: a failed parser is not used again.
- The key cache of the conflict scan and the iteration order of scopes: the final sort makes both invisible, and the scan visits scopes in an arbitrary order.
- SHA-256, UUIDv5 and canonical JSON: injective or abstract functions; a digest is the payload it was taken of.
- PlanningPatches.ApplyPlanningPatches: node dictionaries shared between the payload tree and the lookup table are an overlay of edits by node id, so aliasing is expressed by lookup.
- PlanningImportGuarantees.ArrivedIsFixedPointIff: reading back is any function of a node's own fields; a stored node that leaves out its lifecycle, which the models then fill in, is not described.
- PlanningSurvival.ChainSurvivesIff: asks that a save on another basis than the head's draws no new id that the head already uses, which random UUIDs meet; a repeated id would otherwise be taken for a new node.
- Patches addressed to a node's revision or hash: no patch can be, since its own validator admits only the listed fields of its kind (`PlanningPatches.WellFormed`, backend/domain/finalization.py:288-294), so the entries the payload dictionaries keep for both are never overwritten.
- PlanningImport.RewritePlanning: nested dictionaries are sequences whose slots the loops overwrite; the half-rewritten copy left behind by a failed import is not described.
- The rewriting of planning drafts that still hold client keys, of bibles, corpora, contracts and quality reports on import, and the pinning of chapters to a story block.
- PlanningMerges.ContinuationIff: asks that the blocks of the draft are called differently and differ in order, as those of every accepted draft do, and that the merge is called in its own modes, as backend/gateways/planning_provider.py:202-214 does.
- PlanningMerges.AdjustmentIff: asks the same.
- PlanningMerges.CompletionIff: asks the same, and that the volumes of the draft are called differently.
- PlanningExpansion.MergeCompletion: takes the completed nodes as typed values; that they come from overlaying a partial JSON patch is the separate model in Completion.
- Authority hashes, character reference checks, the guard of a manual continuation and idempotency of confirmation requests: they only refuse, which a run models as a step that changes nothing.
- Preparing an expansion from the writing progress: it reads state outside the aggregate and fixes the mode and targets the merges are given.
- Planning authority, capacity and projection checks of outline normalisation: equality tests on values outside the aggregate.
- The heading expression and the prose policy of the chapter parser: headings are any increasing list of line starts that no byte-order mark opens, their titles a parameter.
- Decoding of GB18030 corpus sources: codecs are per-character encodings with a strict inverse; only UTF-8 is concrete.
- NormalizedText.UnitsComposeIff: asks that every starter decompose to a text that starts with a starter, which all but U+0F73, U+0F75, U+0F81, U+FF9E and U+FF9F do; for the last two MarkOnItsOwn gives a text that fails.
- NormalizedText.UnreachedIsNormalized: one direction, since folding can hide a difference in composition.
- Cutting grams and finding the best hit for retrieval: a parameter gives each text's grams and the place of the best hit, or none when the boundaries are refused.
- The limits on retrieval queries at construction: single comparisons.
- ZIP reading, the manifest, package size limits and sensitive-key scanning: the reader starts from delivered chunks and a parser of one line.
- Asset eligibility, markets, seeds, topics, workbench, readiness, disputes, downloads and prompts: finite case checks that would only add easy members.
