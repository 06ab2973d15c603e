# StateFuse: a verified model

StateFuse is an append-only log of operations with a state derived from it. Full materialization of
the log is the oracle; nearly everything else is a faster or distributed way of staying equal to it.
This project models those ways in Dafny and proves that they do.

- **Incremental materialization.** `State.StateOf` says what state a set of operations denotes.
  `Materialize` computes it from the whole log, `Incremental` from the state of a log and further
  operations, in any order, batching or repetition. `ConflictIndex` and `Findings` prove the per-key
  conflict index equal to the quadratic pair scan; `Lifecycle` and `Refold` prove that refolding the
  affected conflict references is the global fold; `Checkpoint` is the round trip through a checkpoint.
- **What the tables say.** `LogTables`, `LogHistories` and `LogLifecycle` tell the state of any log by
  its operations alone: which claims are active, what each list holds in which order, which findings
  stand with which pairs and labels (`Reported`, `Labelled`), and who decides a lane (`LastWord`).
- **The cache.** `Memories` is the `Memory` object: cursor, registry revision, bounded delta history,
  checkpoint, and a rebuild that races other writers. `Deltas` and `Caching` say what remembered
  deltas promise, `Readers` what they are worth to whoever reads them, `Limits` and `UnseenRules`
  what a change of rules does to both.
- **Replica sync.** `OpLogs`, `Store`, `Paging` and `Replica` are the log, the batch-structured store,
  soft-limited pages and interval progress. `Sync` is the protocol as a transition system, with safety
  over every run and convergence; `ReplicaSync` proves the methods to be its steps.
- **Projection.** `Projection` and `Exactness` prove the projected delta to be the difference of two
  full projections; `IndexSync` and `Service` drive an unreliable index to the projection, and
  `ServiceRuns` follows whole runs of it beside a memory that is used by others in between.
- **View, scopes, compaction, merge, resolvers.** `View`, `Shown`, `Scopes`, `Reopening`, `Compaction`,
  `Kept`, `Equivalence`, `Labels`, `Suggestions`, `CompactLog`, `CompactionReports`, `Merge` and `Causal`.

Objects the program updates in place are classes, its loops are methods with invariants, and each is
proved against a specification function whose own properties are lemmas. Digests and derived
identifiers are the payloads they digest, so they are injective; timestamps are integers; identifiers
are totally ordered. Other writers appear as parameters: `arrivals` are the operations that land
between the two reads of a rebuild, `meanwhile` those a peer commits between a manifest and its
payload, `answers` is how an external index responds.

## Promises with a limit

Six promises do not hold on all inputs. Each has the condition under which it holds, proved in both
directions, and an input that breaks it.

- *A delta tells a reader everything.* Taking a delta that is not a full rebuild gives the projection
  now if and only if, outside what the delta names, the reader held the projection of the state the
  delta was folded from (`Exactness.ExactForReader`, `Readers.ReadSince`). That is the state at the
  reader's position, except where the cache was built with operations beyond it
  (`Readers.SettledReaderExact`). A reader standing where a rebuild raced an append is not told of the
  claim that landed (`Readers.RebuildHidesArrival`).
- *A position says whether anything changed.* Rules can change at an unchanged position. The empty
  delta is then exact if and only if the same claims stay retracted and the same findings stand
  (`Limits.RuleChangeShowsExactly`); a rule registered after a read can remove a finding that the
  reader goes on showing (`UnseenRules.RuleChangeGoesUnseen`).
- *A checkpoint with the right token is the state of its operations.* It is, if and only if the rules
  in use now would have written the same checkpoint (`Checkpoint.RestoreCoherent`,
  `Memories.Memory.ReadCheckpoint`); a token given to a memory with one rule more brings back a finding
  that does not stand (`UnseenRules.StaleTokenRestores`). `Memory.Readable` says that no such
  checkpoint is waiting to be restored. A memory that has a cache never restores, so any registration
  is safe then (`Memories.Memory.RegisterRule`).
- *A failed delete leaves its record alone.* The accounting of the index survives one if and only if
  the record was unreferenced or is as it was (`IndexSync.FailedDeleteExactly`); otherwise the index
  can go stale (`IndexSync.FailedDeleteWithEffectGoesStale`).
- *Heuristics suggest the same after compaction.* They do for a standing finding if and only if each
  retraction naming one of its candidates as a replacement also names what it retracts
  (`Suggestions.HeuristicsAgreeExactly`). A log of two conflicting claims and one retraction without a
  target has another view once compacted (`Suggestions.UntargetedReplacementChangesView`).
- *A merge into a compacted log finds the same.* Active claims, conflict identifiers and lifecycle
  always agree (`Equivalence.MergedCompactionEquivalent`); provenance labels agree if and only if no
  source type is reached through evidence lost to the compaction alone (`Labels.MergedLabelsAgree`),
  in particular when what is merged cites no dropped evidence (`Labels.MergedFindingsEqual`). Evidence
  cited only by a retracted claim and cited again by what is merged loses its label
  (`Labels.MergeLosesLabel`).

## Model

| member | source | states |
|---|---|---|
| `Incremental.ApplyOperationsIncrementally` | src/statefuse/materialize.py:646-996 | raises exactly when the operations collide with each other or with the log; otherwise the result is, table by table, the state full materialization gives for the log together with the operations, whatever their order, batching or re-delivery; the delta names everything that changed, with the namespaces of its keys, and is silent when only records already held were delivered again |
| `Materialize.Materialize` | src/statefuse/materialize.py:423-643 | raises exactly when some record identifier carries two payloads; otherwise returns the state denoted by the set of operations, independent of the order they are listed in, at every instant and context asked for |
| `LogTables.RetiredExactly` | src/statefuse/materialize.py:522-524 | a claim of the log is inactive exactly when a retraction in the log names it, or names the reference made of its key, kind, context and value, normalized where its rule says so for references |
| `LogTables.FiledTogetherExactly` | src/statefuse/conflict.py:86-104 | two claims are filed under one reference exactly when key, kind, context and that value agree |
| `LogTables.ActiveExactly` | src/statefuse/materialize.py:525-539 | a key's list holds exactly the claims of the log on it that nothing retires and that hold at the instant and in the context asked for, in identifier order |
| `LogHistories.RetractionsExactly` | src/statefuse/materialize.py:541-548 | the four retraction lists hold exactly the retractions of the log that name their key, by time and then identifier |
| `LogHistories.HistoriesExactly` | src/statefuse/materialize.py:595-598 | the histories of a reference and of a lane hold exactly the log's resolutions and events of it, by time and then identifier |
| `LogHistories.LinksExactly` | src/statefuse/materialize.py:588-594 | the cross-indexes of claims, evidence, sources, derivations and classified claims, told by the records |
| `LogHistories.FindingsExactly` | src/statefuse/materialize.py:562-579 | for every log: the three finding tables hold exactly one finding per key with a clash, with the pairs, candidates, identity and labels that the claims and records give it |
| `Materialize.GatherOp` | src/statefuse/materialize.py:449-520 | one operation is refused exactly when its record collides; otherwise the tables become those of the operations read so far |
| `Materialize.DirectConflicts` | src/statefuse/conflict.py:777-825 | one finding for each key two of whose claims differ, by the comparison of their predicate or failing one by its normalized values, and overlap; it reports exactly those pairs in order with the instants and dimensions they share, exactly the claims in them, and labels that say what the records say of these |
| `Materialize.RunConflictDetectors` | src/statefuse/conflict.py:848-900 | after detectors have reported: raises exactly when a finding names a claim that is not active, bears a forged identity, or clashes with another; otherwise keeps each finding once |
| `Materialize.DirectFindingsAdmissible` | src/statefuse/conflict.py:857-900 | the built-in detector's findings always pass those checks, so detection alone never raises |
| `Materialize.TabulateFindings` | src/statefuse/materialize.py:562-579 | the dictionaries by identifier, reference and key hold exactly the admitted findings |
| `Materialize.RebuiltIndexesExact` | src/statefuse/materialize.py:570-587 | full materialization builds each per-key index from the key's finding alone, and that is the index of the key's claims |
| `AbsorbAll.AbsorbOps` | src/statefuse/materialize.py:703-843 | the loop over operations raises exactly on a collision, keeps all cross-indexes equal to those of the operations seen, marks every key, claim, reference and resolution that changed, and marks nothing for re-delivered records |
| `Retire.ApplyClaim` | src/statefuse/materialize.py:730-754 | a new claim is linked, marked, and active unless a retraction of it or of its reference came first |
| `Retire.ApplyRetraction` | src/statefuse/materialize.py:755-791 | a retraction takes its place in four lists, retires what it names even before it is known, and marks it |
| `Absorb.ApplySource` | src/statefuse/materialize.py:704-715 | a late source marks every key whose claims cite evidence from it |
| `Absorb.ApplyEvidence` | src/statefuse/materialize.py:716-729 | late evidence is linked to its source and marks every key whose claims cite it |
| `Absorb.ApplyDerivation` | src/statefuse/materialize.py:795-810 | a late derivation marks every key whose claims name it |
| `Absorb.ApplyResolution` | src/statefuse/materialize.py:810-830 | a new resolution enters its histories and links and marks its reference |
| `Absorb.ApplyEvent` | src/statefuse/materialize.py:831-836 | a new lifecycle event enters its histories and marks its reference |
| `Retire.RetractionsGrow` | src/statefuse/materialize.py:1253-1260 | appending a retraction to the sorted lists gives the lists of the larger set; one already there changes nothing |
| `Refresh.RefreshKey` | src/statefuse/materialize.py:858-913 | one affected key: its index, its finding in three tables and the reported identifiers become those of the new active claims, every other key keeps what it had |
| `Offmarks.MixedEnds` | src/statefuse/materialize.py:858-913 | refreshing only the marked keys leaves the tables equal to a full detection over all keys |
| `Refold.RefoldAll` | src/statefuse/materialize.py:916-932 | refolding only the affected references gives the global fold |
| `Affected.CoveredCompose` | src/statefuse/memory.py:858-902 | what two consecutive batches mark covers both together |
| `ConflictIndex.UpdateDirectConflictIndex` | src/statefuse/conflict.py:560-644 | whatever claims the index held and whatever set is wanted, the result is the index of the wanted set (exactly the incompatible overlapping pairs, with symmetric adjacency); k additions onto n retained claims make at most k*n + k(k-1)/2 comparisons and removals none |
| `ConflictIndex.DropClaim` | src/statefuse/conflict.py:575-583 | removing one claim removes exactly its incident pairs and leaves the index of the rest |
| `ConflictIndex.AddClaim` | src/statefuse/conflict.py:586-632 | comparing one more claim with those indexed gives the index of them all, with at most one comparison each |
| `ConflictIndex.BudgetClosedForm` | src/statefuse/conflict.py:564-565 | the comparison bound in closed form |
| `Findings.ConflictFromDirectIndex` | src/statefuse/conflict.py:647-683 | the finding read from the index is the one the quadratic pair scan reports |
| `Findings.DetectAtKey` | src/statefuse/conflict.py:780-824 | the scan of one key finds a conflict exactly when the index of its claims holds a pair, with the same candidates, order and witness |
| `Findings.ScanFindsPairSet` | src/statefuse/conflict.py:785-791 | the nested scan lists each incompatible pair once, in the order the index sorts them |
| `Findings.BuildDirectConflictIndex` | src/statefuse/conflict.py:506-557 | pairs and adjacency are rebuilt from the stored witness alone |
| `Findings.RebuiltFromFinding` | src/statefuse/conflict.py:506-557 | for a finding that was detected, that rebuilt index is the index of its claims |
| `Findings.SourceTypesFrame` | src/statefuse/conflict.py:734-774 | labels depend on records only through what they say of the candidates |
| `Reported.FindingReports` | src/statefuse/conflict.py:780-824 | for any list of a key's claims: a finding exactly when two of them cannot both hold, told by the fields of the registered rule, with exactly these pairs and the claims in them |
| `Reported.IndexExactly` | src/statefuse/conflict.py:560-644 | the index holds exactly the pairs that cannot both hold, and the neighbours they give |
| `Labelled.LabelsOf` | src/statefuse/conflict.py:716-774 | class and subclass by the kinds present, provenance by the sources cited, hops by the derivations named, representation by the values, aggregate exactly when no instant and context suits all, distinct values without repetition |
| `Applicability.PairOverlapMeaning` | src/statefuse/conflict.py:387-409 | two claims overlap exactly when some instant and some context naming every dimension of both make both apply |
| `Applicability.HasAggregateApplicability` | src/statefuse/conflict.py:467-486 | the loops over candidates decide joint applicability exactly |
| `Applicability.AggregateMeaning` | src/statefuse/conflict.py:467-486 | a finding is not aggregate exactly when one instant and one context make all its candidates apply |
| `Applicability.Helly` | src/statefuse/conflict.py:467-486 | pairwise overlapping validity means a common instant: in one dimension pairs decide the whole |
| `Lifecycle.FoldLifecycle` | src/statefuse/materialize.py:309-409 | the two loops compute, lane by lane, the replayed timeline checked against the standing conflict |
| `LastWord.LastResolutionDecides` | src/statefuse/materialize.py:325-342 | of a lane's resolutions in force and its events, a resolution that comes after all others, by time, resolutions before events, then identifier, is the active one |
| `LastWord.LastEventDecides` | src/statefuse/materialize.py:344-366 | an event that comes last clears the lane and leaves its own status; one that says resolved restores the resolution it names if that is of the same lane and observed conflict and in force, and otherwise leaves the lane open |
| `LastWord.ActiveAgainstConflict` | src/statefuse/materialize.py:368-407 | against a standing finding the active resolution is effective exactly when it observed the claims it classifies, classifies every candidate, and keeps them all or selects exactly one; otherwise deferred or reopened, as written |
| `LogLifecycle.LastResolutionActive` | src/statefuse/materialize.py:309-409 | the same told by the operations of the log, for every log, scope and instant |
| `LogLifecycle.LastEventDecidesLane` | src/statefuse/materialize.py:309-409 | likewise for an event that comes last |
| `LogLifecycle.SilentLane` | src/statefuse/materialize.py:368-371 | a lane of which the log says nothing in force has nothing active; a standing finding is then open |
| `LogLifecycle.ActiveSettles` | src/statefuse/materialize.py:374-407 | what is effective on a lane whose finding stands, for every log |
| `Lifecycle.ResolvedMeansEffective` | src/statefuse/materialize.py:368-407 | where a conflict stands, resolved means effective and conversely; the effective resolution is the active one, observed exactly what it classifies and classifies every candidate |
| `Lifecycle.UnclassifiedReopens` | src/statefuse/materialize.py:368-407 | an unclassified candidate under an active resolution reopens the lane |
| `Lifecycle.LaneIsLocal` | src/statefuse/materialize.py:325-366 | a lane's outcome depends on its own history, resolutions and conflict only, though events look resolutions up globally |
| `Lifecycle.ReplaceLifecycleFoldForRef` | src/statefuse/materialize.py:1303-1337 | refolding one reference's history alone leaves its lanes as the global fold has them and every other lane unchanged |
| `Reopening.IncompatibleAreCandidates` | src/statefuse/conflict.py:785-798 | two incompatible active claims are candidates of their key's standing finding |
| `Reopening.NewClaimReopens` | src/statefuse/materialize.py:336-407 | for every log and batch: an unclassified claim that joins an incompatible pair under an active resolution, when nothing else is said on the lane, leaves it reopened, with the same active resolution no longer effective |
| `Checkpoint.MemoryStateFromCheckpoint` | src/statefuse/materialize.py:1028-1191 | a checkpoint read back restores every table, history, fold and per-key index if and only if the rules in use now would have written the same checkpoint, always under the rules it was written under; what is read back writes the same checkpoint again, with its findings as they were written |
| `Checkpoint.RestoreCoherent` | src/statefuse/materialize.py:1028-1191 | reading a checkpoint back under any rules gives the state those rules denote if and only if they would have written the same checkpoint |
| `Checkpoint.PayloadOf` | src/statefuse/materialize.py:999-1025 | what a checkpoint stores of a reached state, and that nothing else is needed |
| `Checkpoint.FindingRoundTrip` | src/statefuse/materialize.py:1071-1092 | a finding stored with candidate identifiers only is restored whole |
| `OpLogs.OpLog.Add` | src/statefuse/oplog.py:18-25 | stores a new operation, reports a known one, refuses a different payload and then changes nothing |
| `OpLogs.OpLog.AddMany` | src/statefuse/oplog.py:27-40 | all or nothing: succeeds exactly when no operation of the batch collides with the log or within the batch; flags say which were new |
| `OpLogs.OpLog.IterOps` | src/statefuse/oplog.py:48-49 | every operation once, by identifier |
| `Merge.Merge` | src/statefuse/merge.py:18-23 | fails exactly when one identifier carries two payloads, otherwise the union, leaving both logs as they were |
| `Merge.JoinCommutes` | src/statefuse/merge.py:18-23 | definedness and result are commutative |
| `Merge.JoinAssociates` | src/statefuse/merge.py:18-23 | definedness and result are associative |
| `Merge.JoinIdempotent` | src/statefuse/merge.py:18-23 | merging a log with itself is defined and gives the log |
| `Merge.JoinLeast` | src/statefuse/merge.py:18-23 | the merge is the least log above both, and exists whenever any log holds both |
| `Merge.MergeChecked` | src/statefuse/merge.py:50-81 | total; keeps every operation of the first log; each operation of the second is listed as added, duplicate or quarantined exactly by what it is, with the reason and what was kept; quarantines nothing exactly when the strict merge succeeds, and then gives its result |
| `Merge.SortingPartitions` | src/statefuse/merge.py:58-74 | each incoming operation is in exactly one of added, duplicate and quarantined |
| `Merge.SortingSound` | src/statefuse/merge.py:58-74 | each list holds what it says, with the reason and the operation kept |
| `Merge.SortingReports` | src/statefuse/merge.py:58-81 | for any screen, the lists say exactly of each incoming operation whether it is new, already there, refused or colliding |
| `Merge.NothingQuarantined` | src/statefuse/merge.py:50-81 | nothing is quarantined exactly when no payloads collide |
| `Merge.MergeCheckedAuthenticated` | src/statefuse/merge.py:132-195 | what the merge brings in is exactly what the policy trusts and does not collide; the three lists say of every incoming operation what became of it, with the policy's reason or the colliding operation kept |
| `Merge.NoReasonIsTrusted` | src/statefuse/merge.py:84-129 | the decision gives no reason exactly for operations that pass every rule of the policy |
| `Replica.AdvanceReplicaProgress` | src/statefuse/replica.py:101-133 | a non-empty range is united with what was received; the result is canonical: strictly separated ranges beyond a cursor that is the least position not received; an empty range changes nothing and a backwards one raises |
| `Replica.CursorIsLeast` | src/statefuse/replica.py:122-128 | the cursor of canonical progress is the least position not received |
| `Replica.CanonicalUnique` | src/statefuse/replica.py:101-133 | equal sets of received positions have equal progress |
| `Replica.OrderIndependent` | src/statefuse/replica.py:101-133 | progress after any deltas does not depend on their order or repetition |
| `Replica.NeverMovesBack` | src/statefuse/replica.py:101-133 | nothing received is forgotten and the cursor never moves back |
| `Store.InMemoryStore.AppendOp` | src/statefuse/store.py:101-107 | a new operation is appended as a batch of its own; a known or refused one changes nothing |
| `Store.InMemoryStore.AppendMany` | src/statefuse/store.py:109-116 | the new operations become one batch at the end, or, on a collision, nothing is stored |
| `Store.InMemoryStore.FindOps` | src/statefuse/store.py:126-128 | exactly the stored operations among the identifiers asked for |
| `Store.InMemoryStore.ReadAfter` | src/statefuse/store.py:134-155 | raises exactly off a batch boundary or on a zero limit; otherwise one page of whole batches, the shortest that reaches the limit |
| `Paging.PageUnique` | src/statefuse/store.py:134-155 | a cursor and a limit determine the page |
| `Paging.PageBounds` | src/statefuse/store.py:148-149 | a page makes progress unless nothing is left and overshoots the limit by less than its last batch |
| `Paging.ReadAgain` | src/statefuse/memory.py:568-575 | reading again with the page's own length as the limit gives the same page, even after more appends |
| `Paging.PagesConcatenate` | src/statefuse/store.py:134-155 | following pages from 0 under any limits gives the append order and splits no batch |
| `Paging.BatchesFlatten` | src/statefuse/store.py:40-47 | cutting a page into its batches loses and reorders nothing |
| `Memories.Memory.Materialize` | src/statefuse/memory.py:426-450 | whatever the cache was, with or without writers racing a rebuild, the result is full materialization of the loaded log; a current cache stays current and is not built again, a stale one is built again no earlier than at the end of the log as it was |
| `Memories.Memory.MaterializeCanonicalIncrementally` | src/statefuse/memory.py:752-793 | the cached path ends in the state of the whole log, with the cache valid again, or raises exactly on colliding records; a read that had to build the cache leaves it built at the end of the log as it was, with what landed in between |
| `Memories.Memory.MaterializeWithDelta` | src/statefuse/memory.py:452-490 | the state is that of the whole log; a full rebuild is reported exactly when no position is given or no remembered step starts at it, never to a reader at the last position read when nothing was rebuilt; any other delta names every change since the state it was folded from, which is the state at the position or, where the cache was last built, the state it was built with; it is empty exactly when the position is current |
| `Memories.Memory.Rebuild` | src/statefuse/memory.py:828-838 | position read first, log loaded later: operations landing in between leave a cache that holds at least what its position says |
| `Memories.Memory.TryRestore` | src/statefuse/memory.py:795-825 | succeeds exactly when a checkpoint with the right version and token is stored and the log does not collide, and then gives the state of the whole log |
| `Memories.Memory.ReadCheckpoint` | src/statefuse/memory.py:795-810 | a stored checkpoint is read exactly when its version and token fit; what is read is the state of the operations it was written for if and only if the current rules would have written the same |
| `UnseenRules.StaleTokenRestores` | src/statefuse/memory.py:795-810 | the input on which it is not: a checkpoint saved under a token, then a memory given that token and one rule more; what is read back holds a finding that does not stand |
| `Memories.Memory.CatchUpStep` | src/statefuse/memory.py:773-793 | the suffix is folded in, its delta remembered with its positions, the cache is exact at the end of the log, and a checkpoint is saved exactly when 100 operations were folded since the last |
| `Memories.Memory.CommitBatch` | src/statefuse/memory.py:110-115 | appending keeps the cache sound and stores all or nothing |
| `Memories.Memory.RegisterRule` | src/statefuse/conflict.py:47-62 | any registration, whatever the token, leaves the cache recognisably stale and still sound for the former rules, to be rebuilt at the next read |
| `Caching.DeltasSince` | src/statefuse/memory.py:471-489 | the remembered steps from a position are returned exactly when they reach the present without a gap |
| `Caching.CombinedSound` | src/statefuse/memory.py:858-902 | remembered steps combined name every change from the first position to the present |
| `Caching.StepStays` | src/statefuse/memory.py:104 | a step is remembered as long as fewer than 1024 came after it, and no longer |
| `Deltas.CoversCombine` | src/statefuse/memory.py:858-902 | the union of two consecutive deltas covers the change across both |
| `Registries.PredicateRegistry.Register` | src/statefuse/conflict.py:47-66 | every registration is a new revision with the rule replaced |
| `UnseenRules.RuleChangeGoesUnseen` | src/statefuse/memory.py:452-469 | the other input on which a delta is not exact: a rule registered with nothing appended removes a finding that stood, while the delta since the last position is empty, so whoever held the projection keeps a record that is no longer in it |
| `Limits.RuleChangeShowsExactly` | src/statefuse/integrations/projection.py:38-69 | two sets of rules project one log to the same records in every namespace, so that an empty delta between them is exact, if and only if the same claims stay retracted and the same findings stand, up to their lists of values |
| `Limits.SameCheckpointProjectsAlike` | src/statefuse/materialize.py:999-1025 | rules that write the same checkpoint cannot be told apart in any projection |
| `Readers.ReadSince` | src/statefuse/memory.py:452-490 | for the delta and its projection together: unless a full rebuild is reported, taking the changes gives the projection of the whole log if and only if, outside what they name, the reader held the projection of the state the delta was folded from |
| `Readers.SettledReaderExact` | src/statefuse/memory.py:452-490 | so whoever held the projection at a position holds the projection now, also at a position restored from a checkpoint, unless the cache was built there with more than the operations up to it |
| `Readers.RebuildHidesArrival` | src/statefuse/memory.py:828-838 | the input on which it was: a live claim lands between the two reads of a rebuild; a reader at the position read is told of nothing and does not show the claim, though it is in the projection |
| `Limits.MultiValuedNeverConflicts` | src/statefuse/conflict.py:782-783 | no finding stands on a multi-valued predicate |
| `Sync.RunsAreSafe` | src/statefuse/memory.py:597-666 | in every run of commits, exports, pulls, late and repeated deliveries, partial writes and resets, each sender position counted as received holds an operation the receiver has with the same payload, and progress stays on batch boundaries |
| `Sync.StepKeeps` | src/statefuse/memory.py:597-666 | each step keeps that invariant |
| `Sync.FreshReceiver` | src/statefuse/replica.py:64-88 | a receiver without progress satisfies it beside any sender |
| `Sync.SyncAdvances` | src/statefuse/memory.py:641-666 | with the sender stopped a sync strictly shortens what is left, until nothing is |
| `Sync.SyncsConverge` | src/statefuse/memory.py:641-666 | with the sender stopped, as many syncs as operations left, whatever the page sizes and whatever else the receiver writes between them, leave nothing to receive |
| `Sync.EverythingHeld` | src/statefuse/memory.py:641-666 | with nothing left the receiver holds the sender's whole log |
| `ReplicaSync.SyncFrom` | src/statefuse/memory.py:641-666 | goes through whenever the cursor is on a boundary, the limit positive and nothing collides; then the whole page is held and counted; when it raises, progress is untouched |
| `ReplicaSync.ApplyReplicaDelta` | src/statefuse/memory.py:597-639 | goes through exactly when the sender is another replica and nothing collides; all operations are written before progress moves, so a failure leaves progress behind |
| `ReplicaSync.ExportReplicaDelta` | src/statefuse/memory.py:543-557 | the page of operations after a boundary cursor, with its batches |
| `ReplicaSync.ExportReplicaManifest` | src/statefuse/memory.py:525-541 | identifiers and digests of that page |
| `ReplicaSync.PageStillThere` | src/statefuse/memory.py:568-575 | however much the sender commits in between, the check that the stream did not change cannot fail |
| `ReplicaSync.ExportManifestDelta` | src/statefuse/memory.py:559-590 | exactly the wanted operations of the described page, batch by batch; it never raises for its own manifest |
| `ReplicaSync.CompareManifest` | src/statefuse/memory.py:650-663 | finds exactly the unknown operations, and raises only on a different payload |
| `ReplicaSync.SyncFromIsSync` | src/statefuse/memory.py:641-666 | what that method does is a step of the transition system |
| `ReplicaSync.ApplyIsDelivery` | src/statefuse/memory.py:597-639 | likewise for an applied delta, late or repeated |
| `Projection.ProjectState` | src/statefuse/integrations/projection.py:38-69 | exactly the live claims, standing findings and concerned resolutions of the namespace have a record; a claim's names exactly the findings that list it, a finding's carries its candidates, pairs and labels with the status of its global lane or open, a resolution's what it observed with the status of its own lane or resolved |
| `Projection.ProjectionShows` | src/statefuse/integrations/projection.py:642-738 | that content of the records holds of every projection of a state, however it was arrived at |
| `Projection.ProjectStateDelta` | src/statefuse/integrations/projection.py:72-127 | for a delta that is not a rebuild: upserts and deletes are exactly what it touches that projects, or no longer does |
| `Exactness.ProjectionDeltaExact` | src/statefuse/integrations/projection.py:72-127 | removing the deletes from the projection before and overlaying the upserts gives exactly the projection after, in every namespace, for any delta that covers the change, combined ones included |
| `Exactness.ExactForReader` | src/statefuse/integrations/projection.py:72-127 | for a reader holding any records, the changes give the projection now if and only if, outside what they name, it held the projection the delta starts from |
| `Service.ProjectionService.ProcessOne` | src/statefuse/integrations/projection.py:424-481 | each branch of the loop settles its record or leaves it pending with the reference kept or dropped as the code does |
| `Service.ProjectionService.RefreshPendingDeltas` | src/statefuse/integrations/projection.py:230-283 | afterwards the index with its pending changes tracks the projection of the whole log |
| `Service.ProjectionService.Synchronize` | src/statefuse/integrations/projection.py:402-488 | an identifier with nothing pending is in the index exactly as the projection of the whole log wants it; when no call fails nothing stays pending and the index is the projection |
| `ServiceRuns.Run` | src/statefuse/integrations/projection.py:402-488 | every run of synchronizing, appending, committing, reading at any rules and instant, receiving and pulling from a peer, and registering rules keeps the service sound: what is not pending is in the index as wanted, and a run that ends with a synchronization ends as it promises; a run stops only before a registration that no later delta would make up for |
| `Service.FollowsStays` | src/statefuse/memory.py:452-490 | whatever appends, reads, rebuilds and syncs happen to the memory between two calls, what the service holds is still what the next delta is relative to |
| `IndexSync.DeltaTracked` | src/statefuse/integrations/projection.py:253-282 | moving the wanted projection by an exact delta keeps every identifier settled or rightly pending |
| `IndexSync.RebuildTracked` | src/statefuse/integrations/projection.py:249-252 | a rebuild delta does so from any index whose contents are referenced or pending |
| `IndexSync.ProcessKeeps` | src/statefuse/integrations/projection.py:424-481 | whatever the repository answers, the accounting survives and an answered change is settled |
| `IndexSync.FailedDeleteExactly` | src/statefuse/integrations/projection.py:427-438 | after a delete reported as failed the accounting survives exactly when the record was unreferenced or is as it was |
| `IndexSync.FailedDeleteWithEffectGoesStale` | src/statefuse/integrations/projection.py:427-447 | the input on which the index goes stale: a failed delete that took effect, then the same record wanted again |
| `View.BuildView` | src/statefuse/view.py:125-292 | of the findings of the state, unresolved are exactly those whose commitment is not applied, whatever a resolver suggests; selections come from the single-key findings, then rejected candidates of other applied findings are withdrawn |
| `Shown.ViewOfLogExactly` | src/statefuse/view.py:125-230 | the view of any log, key by key: where a finding stands and a resolution is effective, the one candidate it selects, or none if it preserves; otherwise nothing is selected, and what the resolver names is suggested unless an abstention, deferral or reopened resolution withholds it; claims that are no candidates are compatible; where none stands, an unbeaten claim if the values agree and otherwise all claims side by side |
| `Shown.ViewExactly` | src/statefuse/view.py:125-230 | the same for any state whose findings are direct |
| `Shown.UnresolvedOfLog` | src/statefuse/view.py:232-292 | unresolved are exactly the standing findings with no effective resolution on the lane asked |
| `Shown.RejectedWithdrawn` | src/statefuse/view.py:232-275 | the loop over the other findings withdraws every candidate that an effective choice rejects, wherever the view held it, and holds nothing it did not hold before |
| `Shown.ExcludeExactly` | src/statefuse/view.py:243-270 | excluding a claim withdraws it, drops no other compatible claim and leaves other keys alone |
| `View.UnresolvedExactly` | src/statefuse/view.py:232-292 | in every view of a state with direct findings, the unresolved are exactly the findings without an applied commitment |
| `View.AppliedMeansResolved` | src/statefuse/view.py:64-114 | a choice is applied exactly when the lane is resolved; a claim is then chosen exactly when the resolution does not preserve, and it is a selected candidate |
| `View.BestClaimIsBest` | src/statefuse/view.py:33-44 | the deterministic choice is a claim no other beats |
| `Scopes.ViewUnique` | src/statefuse/view.py:125-292 | a state, scope and resolver determine the view |
| `Scopes.ScopesDoNotInterfere` | src/statefuse/view.py:47-114 | adding any resolutions and events of one scope leaves the view of every other scope, and of none, unchanged at every instant and context |
| `CompactLog.CompactOplog` | src/statefuse/compaction.py:115-171 | raises exactly when the log does not materialize; otherwise keeps exactly the claims no retraction names, the retractions that name something, the evidence cited by either or by a resolution, and all other records |
| `CompactionReports.CompactWithReport` | src/statefuse/compaction.py:115-201 | the report never finds other active claims or findings on the compacted log; it finds the same view exactly when one view is the view of both, and so with no resolver, or with any heuristic when replacements name what they retract |
| `Equivalence.CompactionEquivalent` | src/statefuse/compaction.py:171-200 | for every log, instant and context the compacted log has the same active claims, findings with labels, and lifecycle |
| `Equivalence.CompactionSameView` | src/statefuse/compaction.py:54-99 | the view is the same for every scope, instant and context, without a resolver or with resolvers that suggest the same |
| `Equivalence.ResolverFactsKept` | src/statefuse/compaction.py:142-151 | the facts a heuristic reads of a candidate survive exactly when every retraction naming it as a replacement names a target |
| `Suggestions.FactsExactly` | src/statefuse/resolver.py:162-202 | what a heuristic reads of a candidate: the evidence of the log that it cites, the sources of the log, and the retractions that name it as a replacement, by time and then identifier |
| `Equivalence.HeuristicsAgree` | src/statefuse/compaction.py:115-201 | when each retraction naming a candidate of a standing finding as a replacement also names what it retracts, every heuristic suggests the same on the compacted log, for all findings at once |
| `Suggestions.HeuristicsAgreeExactly` | src/statefuse/compaction.py:142-164 | for a standing finding, all heuristics suggest the same on the compacted log if and only if each retraction naming one of its candidates as a replacement names what it retracts |
| `Suggestions.UntargetedReplacementChangesView` | src/statefuse/compaction.py:162-164 | the log on which one does not: two conflicting claims, one named as a replacement by a retraction without a target; some heuristic then chooses a claim on the original only, and the two views differ in every scope |
| `Equivalence.MergedCompactionEquivalent` | src/statefuse/compaction.py:153-171 | after merging the same operations into both logs, active claims, findings up to provenance labels, conflict identifiers and the whole lifecycle agree |
| `Labels.MergedLabelsAgree` | src/statefuse/compaction.py:136-158 | after the merge a finding has the same labels if and only if every source type its candidates reach through evidence lost to the compaction they also reach through evidence that is left |
| `Labels.MergedFindingsEqual` | src/statefuse/compaction.py:136-158 | in particular all findings are equal, labels included, when what is merged cites no evidence that compacting dropped |
| `Labels.MergeLosesLabel` | src/statefuse/compaction.py:155-158 | the input on which labels differ: evidence from a known source cited only by a retracted claim, and a merged pair of incompatible claims, one of which cites it |
| `Compaction.LifecycleKept` | src/statefuse/materialize.py:368-407 | the lifecycle depends on findings only through identity and candidates |
| `Causal.ResolveCausally` | src/statefuse/resolution_policy.py:216-281 | selects exactly when the assertions are made, every candidate carries a clock of whole counters, and the counters in one candidate's provenance are nowhere below and somewhere above every other's, and then that candidate; otherwise reports exactly the candidates none is ahead of, or abstains |
| `Causal.DominatesPointwise` | src/statefuse/resolution_policy.py:297-302 | dominance is the strict pointwise order with missing entries as 0 |
| `Causal.DominanceIsTransitive` | src/statefuse/resolution_policy.py:297-302 | dominance is transitive |
| `Causal.ClimbToMaximal` | src/statefuse/resolution_policy.py:246-253 | every clock is a maximal one or dominated by one |
| `Causal.UniqueMaximalDominates` | src/statefuse/resolution_policy.py:246-254 | a single maximal clock dominates all others, and conversely |
| `Causal.SelectionIgnoresOrder` | src/statefuse/resolution_policy.py:246-281 | the selection does not depend on how candidates are listed |
| `Causal.ResolveLatest` | src/statefuse/resolution_policy.py:137-196 | selects exactly when the assertions are made, all candidates share one branch and their times differ; the selected one is later than every other |
| `Records.RecordStep` | src/statefuse/materialize.py:449-520 | inserting one operation raises exactly when the set with it is no longer collision-free, and otherwise gives the tables of that set |
| `Records.InsertAgrees` | src/statefuse/materialize.py:1243-1250 | the incremental insertion refuses exactly what the full one refuses, stores the same, and reports exactly whether the record is new |
| `Lifecycle.ReplayedResolved` | src/statefuse/materialize.py:336-366 | a replayed lane is resolved only under an active resolution that does not abstain, and its status follows the active resolution |
| `Memories.Memory.EnsureBuilt` | src/statefuse/memory.py:754-772 | a stale cache is rebuilt, a missing one restored or built; a current one is left as it is |
| `Memories.Memory.SaveCheckpoint` | src/statefuse/memory.py:840-852 | the checkpoint stored is of the cached state, under the token |
| `Sync.DeliverKeeps` | src/statefuse/memory.py:597-639 | a delivery, late or repeated, keeps the invariant |
| `Equivalence.EvidenceKept` | src/statefuse/compaction.py:139-158 | evidence an active claim cites is kept |
| `Compaction.ActiveClaimsKept` | src/statefuse/compaction.py:159-164 | active claims are the same at every instant and context |
| `Service.ProjectionService.ProcessPending` | src/statefuse/integrations/projection.py:424-481 | after the loop only changes whose call failed are pending, and the index is accounted for |
| `View.ViewKeys` | src/statefuse/view.py:147-230 | the loop over keys decides each key from its own finding, lane and claims |

## Left out

- Memories.Memory.MaterializeCanonicalIncrementally: like the other canonical reads it asks for `Readable`; of a checkpoint under other rules only what is read back is modelled, not what the operations after it make of it.
- Materialize.Materialize: custom conflict detectors are not run; of them only the admission checks are modelled (`Materialize.RunConflictDetectors`).
- Materialize.TabulateFindings: one finding per key, as the built-in detector gives; findings of custom detectors that share a key are not tabled.
- ReplicaSync.ApplyReplicaDelta: the report's applied and duplicate lists are not modelled.
- Service.ProjectionService.Synchronize: one repository and namespace; the report's created, updated and unchanged lists are not modelled.
- ServiceRuns.Run: a registration is taken only once the memory has a cache and the service has not read to the end of the log; what goes wrong otherwise is shown in `UnseenRules`.
- Suggestions.HeuristicsAgreeExactly: a heuristic is any function of the finding and of what it looks up of each candidate; the scores of the built-in ones are not modelled.
- CompactionReports.CompactWithReport: views are compared without their explanation texts, and findings are listed by a given order.
- Causal.ResolveCausally: an integral number counts as an integer whether or not it was written as a float; the audit record and reason texts are not modelled.
- Merge.MergeCheckedAuthenticated: signature status, revocation and timestamp parsing are functions given by the policy.
- Projected records carry everything the code renders of a claim, finding or resolution; a finding's list of distinct values is not rendered.
- JSON equality is structural: Python's `True == 1` and `1 == 1.0` comparisons are not distinguished from it.
- Identifier tuples the code keeps sorted are sets, and decisions are a map rather than the list sorted by time.
- Explanation strings, reason texts, record titles and text of projected records: formatting.
- Field validation of the dataclasses and the JSON form of single records.
- `find_conflicts` and its filter by context; local text search and the merging of search hits.
- JSONL and SQLite storage, locks and file cursors: the in-memory store carries the same contract.
- The asynchronous projection service, external connectors, the LLM resolver and LangGraph helper.
- Signing, ISO time parsing and digests: library primitives.
- Comparisons made by the index are bounded per key, not over a whole batch.
- The heuristic resolvers' scoring, `PreserveResolver` and the resolver registry.
