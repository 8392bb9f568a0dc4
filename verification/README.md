# Verified model of the agent harness

This project states and proves what the durable parts of the agent harness promise: the live tool catalog, the
execution ledger, durable goals with bounded continuation, the patch engine and the output archive, and history
compaction. `dafny verify dfyconfig.toml` checks all of it.

## What is modelled

- **Execution ledger** (`ExecutionLedger`, `LedgerLog`, `LedgerAppends`, `LedgerPaging`, `LedgerPages`, `LedgerCas`). The bounded state is shown to
  abbreviate an unbounded log, and paging with event-ID anchors to stay exact while that log moves on.
- **Compare-and-swap loops** (`Cas`, `CasProgress`). One state machine of many writers that load, compute, swap, lose, retry, give up
  or crash; the ledger, the catalog, the goal store and the decision ledger are instances of it.
- **Tool catalog** (`Catalog`, `CatalogInvariants`, `CatalogRuns`, `CatalogAccepts`, `CatalogRefs`, `CatalogState`,
  `CatalogService`, `CatalogCursors`, `CatalogQueries`, `Resource`). Publish, Renew and Revoke with pruning, over whole runs; the in-place code as a class;
  snapshots and cursors; resource paths.
- **Goals** (`Goals`, `GoalService`, `GoalStore`, `Decisions`, `GoalRuntime`, `GoalOutcomes`, `GoalBound`, `GoalTolerance`,
  `GoalTurn`). Lifecycle and accounting of
  goals; the append-only decision ledger; AfterTurn as a protocol of processes that overlap, fail and crash, and as one
  undisturbed method that is shown to be that protocol.
- **Patches and output** (`PatchText`, `PatchGrammar`, `PatchRoundTrip`, `PatchChunks`, `Patch`, `OutputBuffer`). Parsing, matching and splicing of chunks; the
  staged transaction with commit and rollback; the head and ring buffer of a command's output.
- **Compaction** (`WorldState`, `MergeLaws`, `Compaction`, `Compactors`, `Offloads`). Merging of world states as an idempotent
  monoid, all compactors, and what they put away.

`Base`, `Text` and `Order` hold result types, the parts of Go's string handling the code relies on, and sorting.

Specification functions say what an operation does; the methods beside them have the loops and field updates of the
source and are proved equal to them; the lemmas are about the specification functions. Strings stand for Go strings:
characters where the source counts runes or compares text, bytes where it counts or cuts bytes. Times are integers and
clocks are inputs of each step. Failures of disks, blob stores, queues, sinks and verifiers are inputs as well.

## Where promises and code differ

- A patch is documented to compute every resulting file as if applied in order; a path deleted or moved away and created
  again in the same patch keeps its old mode. `Patch.PatchIsItsOperationsInTurn` gives the exact condition (the scan
  `StaleModes` over the operations and the modes on disk), `Patch.RecreatedFileKeepsItsMode` an example.
- Rolling a patch back rewrites a file of mode 0 with mode 0644 (`Patch.RollbackIsExact`).
- A budget-exhausted goal is documented in the README.md of the repository (lines 260-262) to block before another turn; the
  code grants one wrap-up turn first. `GoalTolerance.ExhaustedBudgetBlocks` says exactly when it blocks at once.
- The comment at pkg/goal/ledger.go:43-46 promises exactly one round beyond the budget; a tolerated verifier error buys further
  rounds under its own reason. `GoalTolerance.BoundHoldsExactly` gives the settings under which MaxContinuations + 1 is a bound,
  `GoalTolerance.ToleratedErrorsBuyRounds` the runs that exceed it under all others, and
  `GoalTolerance.ToleratedErrorsAreCounted` what such errors can buy.
- A state configured for compaction on top of the history can be overruled by a message that is kept:
  `Compactors.ConfiguredStateSurvives` gives the exact condition on the history, `Compactors.ConfiguredStateCanBeOverruled` an
  example.
- A tool reference that a publication leaves out may return with other content in the same generation
  (`CatalogRefs.DroppedRefMayReturnChanged`); `CatalogRefs.RefKeepsContent` gives the exact condition.
- A patch text with two carriage returns before a line feed creates a file whose line keeps one of them
  (`PatchRoundTrip.CarriageReturnIsLost`).
- An empty write to a full output buffer is reported as truncation (`OutputBuffer.EmptyWriteReportsTruncation`), and an
  archive limit of one byte keeps two (`OutputBuffer.RetentionBound`).
- An update that deletes every line of a file leaves a line break behind (`PatchChunks.RewrittenFileReadsBack`).

## Model

| member | source | states |
|---|---|---|
| LedgerLog.RunRefines | pkg/executionledger/ledger.go:211-370 | after any sequence of appends, refused ones included, the bounded state keeps exactly the last maxEvents events of the whole log with sequences 1, 2, 3, ... ending at its length; branch heads, terminal head and pinned model are those of the whole log, evicted events included; and the state is valid |
| LedgerLog.AppendRefines | pkg/executionledger/ledger.go:228-293 | one accepted append extends the log by one entry; a replay answers an event of the log and changes nothing |
| LedgerLog.StepRefines | pkg/executionledger/ledger.go:211-294 | one call of any outcome keeps both the refinement and validity |
| LedgerLog.StoreRefines | pkg/executionledger/ledger.go:269-289 | storing one event and evicting the oldest keeps the state equal to the cut of the longer log |
| LedgerLog.HeadsStayOpen | pkg/executionledger/ledger.go:282-286 | the recorded branch heads are exactly the last events of the branches whose turn is still open |
| LedgerLog.SuffixOfSuffix | pkg/executionledger/ledger.go:278-281 | evicting after every append is cutting the whole log once |
| LedgerLog.RunLinked | pkg/executionledger/ledger.go:237-246 | in every reachable log each event hangs on the anchor of its moment: the open event of its own branch, or the last finished turn of any branch; and a turn starts only on an inactive branch |
| LedgerLog.StepLinked | pkg/executionledger/ledger.go:237-289 | every call keeps the parent links of the log correct |
| LedgerLog.ParentIsAnchor | pkg/executionledger/ledger.go:237-246 | the parent picked from heads and terminal head is the one the whole log dictates |
| LedgerLog.LinkResolves | pkg/executionledger/ledger.go:237-246 | with fresh event IDs and no caller-chosen parents a link names an event with a smaller sequence, the anchor of its branch |
| LedgerLog.TurnIsOneChain | pkg/executionledger/ledger.go:237-289 | following stored parents from an event visits exactly the events of its own turn and branch, newest first: concurrent branches never mix |
| LedgerLog.TurnStartsAtTerminal | pkg/executionledger/ledger.go:244-246 | the first event of a turn hangs off the terminal head of that moment |
| LedgerLog.FreshCallsFreshLog | pkg/executionledger/ledger.go:247-265 | if the generator never repeats an event ID the log never does |
| LedgerLog.NewEventId | pkg/executionledger/ledger.go:247-278 | a call adds at most one event, under the trimmed ID it was given |
| LedgerLog.LogOnlyGrows | pkg/executionledger/ledger.go:278-281 | the log of a run extends the log of each of its prefixes |
| LedgerLog.PositionIsUnique | pkg/executionledger/ledger.go:253-257 | an event ID names one position of a log |
| ExecutionLedger.AppendKeepsValid | pkg/executionledger/ledger.go:312-370 | validation is inductive: whatever an accepted append leaves validates |
| LedgerAppends.LogIsWhatWasAsked | pkg/executionledger/ledger.go:228-293 | the whole log of any run is what its calls asked for: the calls that wrote, in their order, one entry each, every entry under the operation, event ID, session and time of its call, saying what that call asked field by field (trimmed, an error cut to the longest part that fits), with a parent chosen by the ledger only where none was asked for |
| LedgerAppends.AppendWritesWhatWasAsked | pkg/executionledger/ledger.go:211-293 | one accepted append that is no replay writes exactly that event under the next sequence |
| LedgerAppends.AnswerSaysWhatWasAsked | pkg/executionledger/ledger.go:228-236 | the event an append answers with, replayed or not, says what this call asked for |
| LedgerAppends.ReachableAppendIsDecided | pkg/executionledger/ledger.go:211-294 | after any calls whatever, the whole log decides exactly which append is accepted next, and exactly which is refused as invalid: retained operations, open branches, taken event IDs and the room for branches are those of the log |
| LedgerAppends.AppendIsDecided | pkg/executionledger/ledger.go:211-294 | the same on any valid ledger that stands for a log |
| LedgerAppends.WriteIsDecided | pkg/executionledger/ledger.go:237-293 | each check of the part that writes, in its order, in terms of the whole log: what is refused and with which error |
| LedgerAppends.FitIsAcceptable | pkg/executionledger/ledger.go:148-198 | a request is normalized exactly if it fits: kind, identities, and the fields that its kind requires |
| ExecutionLedger.WriteKeepsValid | pkg/executionledger/ledger.go:237-293 | the same for the part of an append that writes |
| ExecutionLedger.EntriesStayValid | pkg/executionledger/ledger.go:337-368 | adding the next event and evicting keeps entries contiguous, distinct and well-formed |
| ExecutionLedger.SuffixStaysValid | pkg/executionledger/ledger.go:279-281 | eviction keeps the retained entries valid |
| ExecutionLedger.HeadsStayValid | pkg/executionledger/ledger.go:282-286 | updating branch heads keeps them valid identities |
| ExecutionLedger.ReplayIsExact | pkg/executionledger/ledger.go:228-236 | a retained operation answers with its own event, or conflicts if the request differs, and changes nothing |
| ExecutionLedger.CorruptOnlyForEventId | pkg/executionledger/ledger.go:274-276 | on a valid state an append is refused as corrupt only for an over-long or unprintable event ID |
| ExecutionLedger.NormalizedRevalidates | pkg/executionledger/ledger.go:148-198 | a normalized request with its parent filled in normalizes again, so stored events revalidate |
| ExecutionLedger.PrepareAppend | pkg/executionledger/ledger.go:211-236 | the append with its search for a retained operation, equal to the specification the log refines |
| ExecutionLedger.WriteEvent | pkg/executionledger/ledger.go:237-293 | choice of the parent, identity checks and storing, equal to the specification |
| ExecutionLedger.StoreEntry | pkg/executionledger/ledger.go:269-289 | the field updates on the cloned state, equal to the specification |
| ExecutionLedger.EventIdTaken | pkg/executionledger/ledger.go:253-265 | true exactly if a retained event, the terminal head or a branch head has the ID |
| ExecutionLedger.ValidateState | pkg/executionledger/ledger.go:312-370 | the loops accept exactly the valid states |
| ExecutionLedger.ValidateHeads | pkg/executionledger/ledger.go:329-336 | the loop over branch heads accepts exactly valid ones |
| ExecutionLedger.ValidateEntries | pkg/executionledger/ledger.go:337-368 | the loop with its two sets of seen IDs accepts exactly distinct, contiguous, well-formed entries |
| ExecutionLedger.MemoryStore.Append | pkg/executionledger/memory.go:45-68 | stores what the specification computes for this session and touches no other; an error changes nothing |
| LedgerLog.PinnedIsLastPin | pkg/executionledger/ledger.go:287-289 | the pinned model of a reachable store is the model of the last pin ever logged, evicted or not, and empty without one |
| LedgerPaging.WalkIsExact | pkg/executionledger/ledger.go:413-462 | following page tokens with any limits while events are appended and evicted yields exactly the matching events of the first page that are still retained when the last page is read |
| LedgerPaging.TokensDescend | pkg/executionledger/ledger.go:413-462 | every token makes strict progress: n pages that leave a token have moved at least n positions down |
| LedgerPaging.ReachableWalkIsExact | pkg/executionledger/ledger.go:413-462 | the same on reachable ledgers: paging at any moments of any run whose generator never repeats an event ID, a finished walk yields, in strictly descending sequence, exactly the events wanted by the query that were logged by the first page and are still retained at the last one |
| LedgerPages.PageHoldsWhatWasAsked | pkg/executionledger/ledger.go:372-378 | a page has at most as many events as were asked for, 20 if nothing was said; one that leaves a token has exactly that many and its token names the last of them |
| LedgerPages.WalkIsPaged | pkg/executionledger/ledger.go:413-462 | a walk that always asks for the same number reads as many events a page, up to the last one |
| LedgerPages.PageFills | pkg/executionledger/ledger.go:440-461 | a scan that stops before the oldest event has filled the page and stops at its last event |
| LedgerPages.QueryIsDecided | pkg/executionledger/ledger.go:380-438 | a page is answered exactly if limit, kinds and identities are acceptable and the token belongs to this session and these filters and its event is retained; it is refused as invalid otherwise |
| LedgerPages.TokenIsBound | pkg/executionledger/ledger.go:413-438 | a token is only taken by a query for the same session that wants the same events |
| LedgerPaging.WantedMatches | pkg/executionledger/ledger.go:464-484 | the filters of a query select an event exactly if it has one of the kinds, the branch, the task and the reference asked for, trimmed, where they were asked for |
| LedgerPaging.ReadingsGrow | pkg/executionledger/ledger.go:278-281 | what is read at each moment of a run is the retained end of a log that only grows and never repeats an event ID |
| LedgerPaging.MatchesAreExact | pkg/executionledger/ledger.go:464-484 | what a walk yields is each matching event of the range once, newest first |
| LedgerPaging.WalkFrom | pkg/executionledger/ledger.go:430-461 | the induction behind both: a walk from any position covers a contiguous range of the whole log |
| LedgerPaging.PageCovers | pkg/executionledger/ledger.go:413-462 | one page covers a range of positions of the whole log and leaves its token at the lower end, or none when nothing older is retained |
| LedgerPaging.AnchorFound | pkg/executionledger/cursor.go:42-52 | an anchor ID is found at its position in the log unless it was evicted, and then the page is refused |
| LedgerPaging.QueryState | pkg/executionledger/ledger.go:413-462 | the two downward loops compute the specified page |
| LedgerPaging.ScanDown | pkg/executionledger/ledger.go:440-461 | one loop from a position down stops at a full page or at the oldest retained event |
| LedgerCas.ReplicasAppendSerially | pkg/executionledger/cas.go:98-144 | any interleaving of replicas leaves the state of a sequential run of the appends that won, each winner once and nobody else |
| LedgerCas.SerialIsRun | pkg/executionledger/cas.go:117-144 | a serial use of the blob is a run of the ledger |
| LedgerCas.CasStore.Append | pkg/executionledger/cas.go:117-144 | success stores exactly one value computed from the one just before it; refusals, replays and exhausted retries store nothing |
| LedgerCas.Blob.CompareAndSwap | pkg/casblob/store.go:15-19 | swaps exactly if the complete stored value is the expected one |
| LedgerCas.Blob.Create | pkg/casblob/store.go:15-19 | stores exactly if nothing is stored |
| Cas.Serializable | pkg/catalog/live_service.go:919-947 | for any number of writers, any interleaving, crashes and exhausted retries, the stored value is the serial run of the operations that won, for revision tokens as for full-value tokens |
| Cas.WinnersWrite | pkg/catalog/live_service.go:919-947 | each operation that won wrote, on the serial run of those before it |
| Cas.RunKeepsInv | pkg/catalog/live_service.go:919-947 | the invariant over every run: a chain of swaps, each one sequential step from the value before, each winner one link, everybody else none |
| Cas.StepKeepsInv | pkg/catalog/live_service.go:919-947 | every load, swap, lost swap and crash keeps that invariant, although with full-value tokens a value may come back |
| Cas.CommitKeepsInv | pkg/catalog/live_backend.go:131-146 | a successful swap extends the chain by exactly one link |
| Cas.ChainIsSerial | pkg/catalog/live_service.go:919-947 | a chain of links is the serial run of its operations |
| Cas.QuietStep | pkg/catalog/live_service.go:919-947 | any other step changes the phase of one writer and nothing else |
| CasProgress.UndisturbedWins | pkg/catalog/live_service.go:919-947 | a writer that loads and commits with nobody in between stores what it computed and wins, or answers without writing |
| CasProgress.LostMeansOvertaken | pkg/catalog/live_service.go:919-947 | a swap is lost only if somebody has won since the load |
| CasProgress.NobodyGivesUp | pkg/catalog/live_service.go:919-947 | over all runs and interleavings a writer gives up only after at least as many swaps were won as it may retry, each by another writer |
| CasProgress.EnoughRetries | pkg/catalog/live_service.go:919-947 | nobody gives up where there are no more writers than retries |
| CasProgress.RunTries | pkg/catalog/live_service.go:919-947 | at every moment a writer has tried no more often than somebody has won |
| CatalogRuns.NoReplay | pkg/catalog/live_service.go:295-340 | a generation revoked, replaced or past its lease at time t gets no call accepted before t plus the retention, over any run with a clock that does not run backwards, also when rejected calls never stored their pruning |
| CatalogRuns.NoReplayInAnyOrder | pkg/catalog/live_service.go:322-324 | what a tombstone remembers takes no call as long as every clock is before its end, in whatever order the clocks were read |
| CatalogRuns.DepartureShuts | pkg/catalog/live_service.go:295-331 | a generation that was current before an accepted call and is not after it is shut from that moment |
| CatalogRuns.ShutStep | pkg/catalog/live_service.go:919-964 | one call of any outcome keeps a shut generation shut and is not accepted for it |
| CatalogRuns.SequencesIncrease | pkg/catalog/live_service.go:295-331 | within the retention the accepted sequences of a generation strictly increase through any other mutations, in the order of a clock that does not run backwards |
| CatalogRuns.SequencesIncreaseInAnyOrder | pkg/catalog/live_service.go:295-331 | they do in any order of the clocks as long as these stay within one retention |
| CatalogRuns.SequencesIncreaseWhileCurrent | pkg/catalog/live_service.go:295-331 | while a generation stays current they strictly increase without any bound on time |
| CatalogRuns.AcceptedIsHeld | pkg/catalog/live_service.go:326-345 | an accepted sequence is remembered by its publication or its tombstone |
| CatalogRuns.HeldStep | pkg/catalog/live_service.go:919-964 | and stays remembered through every call |
| CatalogRuns.HeldRun | pkg/catalog/live_service.go:919-964 | so a remembered sequence is exceeded by every later accepted one |
| CatalogRuns.StoneBlocks | pkg/catalog/live_service.go:1073-1089 | a tombstone blocks its generation and lasts, even when clocks of other replicas run differently, as long as they are before its end |
| CatalogRuns.LapsedBlocks | pkg/catalog/live_service.go:949-964 | a publication found past its lease blocks its generation and becomes a tombstone |
| CatalogRuns.LiveGoesOn | pkg/catalog/live_service.go:295-331 | a live generation goes on with a sequence no smaller, or leaves a tombstone |
| CatalogRuns.ExecuteKeepsWellFormed | pkg/catalog/live_service.go:919-1034 | every accepted call keeps the catalog well-formed by itself: the post-check never fires and the expired-lease branches of Publish and Renew are unreachable |
| CatalogAccepts.ExecuteDecides | pkg/catalog/live_service.go:275-430 | on every well-formed stored catalog an admitted Publish, Renew or Revoke is accepted if and only if it is acceptable, and is refused with a reason if and only if it has just that objection. Renew and Revoke are acceptable exactly for a live publication of the generation, from its own route, with a larger sequence; Publish exactly if the generation is not retired, no tombstone of the registration names another route, and a live publication of the registration gives way: from its route, as an allowed replacement or as the same generation with a larger sequence and unchanged revisions |
| CatalogAccepts.PublishDecides | pkg/catalog/live_service.go:275-345 | the same for Publish on the pruned catalog |
| CatalogAccepts.HolderDecides | pkg/catalog/live_service.go:349-430 | the same for Renew and Revoke on the pruned catalog |
| CatalogAccepts.CurrentDecides | pkg/catalog/live_service.go:369-428 | what Renew and Revoke answer about a live publication: a foreign route first, then a sequence that is not larger, otherwise accepted |
| CatalogAccepts.HeldDecides | pkg/catalog/live_service.go:289-341 | what Publish answers about a registration that is taken by a live publication |
| CatalogAccepts.FreeDecides | pkg/catalog/live_service.go:320-341 | what Publish answers about a free registration: only tombstones can object |
| CatalogAccepts.AdmitsExactly | pkg/catalog/live_service.go:1091-1218 | which calls get as far as the catalog, and that only the lease is cut on the way, to the maximum |
| CatalogAccepts.EveryPublicationHasACall | pkg/catalog/live_service.go:275-430 | in every catalog reached from the empty one each publication is what the last accepted Publish of its registration asked for, with the sequence and the lease, cut to the maximum, of the last accepted call for it; only renewals came in between |
| CatalogAccepts.CurrentComesFromCalls | pkg/catalog/live_service.go:275-430 | the induction behind it, from any catalog whose publications have such calls |
| CatalogAccepts.PrunedView | pkg/catalog/live_service.go:919-1081 | pruning and sorting change nothing that the decision depends on |
| CatalogRuns.ChangeKeepsWellFormed | pkg/catalog/live_service.go:295-426 | the same for each change closure on a pruned state |
| CatalogRuns.PruneKeepsWellFormed | pkg/catalog/live_service.go:930-964 | both prunes together keep well-formedness and leave exactly the live publications, with a tombstone for every other |
| CatalogRuns.PublishChanges | pkg/catalog/live_service.go:295-340 | exactly which publications, routes and tombstones a Publish leaves, and why it was entitled to |
| CatalogRuns.RenewChanges | pkg/catalog/live_service.go:367-385 | the same for Renew |
| CatalogRuns.RevokeChanges | pkg/catalog/live_service.go:408-426 | the same for Revoke |
| CatalogRuns.PublishEntitled | pkg/catalog/live_service.go:295-331 | a Publish is accepted only from the owning route, with a larger sequence or the right to replace |
| CatalogRuns.OnlyOwnerChanges | pkg/catalog/live_service.go:296-331 | an accepted call from another route, or for another registration, leaves a live registration exactly as it was |
| CatalogRuns.RecentOwnerKeepsRegistration | pkg/catalog/live_service.go:323-331 | no other route takes a registration over while a tombstone remembers its last owner |
| CatalogRuns.AcceptedLater | pkg/catalog/live_service.go:919-947 | accepted calls of a run are no earlier than its start |
| CatalogRefs.RefKeepsContent | pkg/catalog/live_service.go:1220-1243 | while its generation stays current, a tool reference is offered with its content at every moment if and only if the generation never publishes again without it |
| CatalogRefs.RepublishAccepted | pkg/catalog/live_service.go:296-331 | a live generation may publish again if and only if its owner asks with a larger sequence and an admissible lease, no other route is remembered for the registration, and no reference of the current publication changes its content |
| CatalogRefs.RevisionsDecide | pkg/catalog/live_service.go:303-320 | the same inside the retry loop, on the pruned state |
| CatalogRefs.DropIsAccepted | pkg/catalog/live_service.go:303-320 | a publication that leaves a reference out is accepted exactly under these conditions |
| CatalogRefs.RefStep | pkg/catalog/live_service.go:1220-1243 | one call of any outcome keeps the content of such a reference |
| CatalogRefs.PublicationStep | pkg/catalog/live_service.go:295-345 | what an accepted call makes of the entries of a publication that stays current |
| CatalogRefs.DroppedRefMayReturnChanged | pkg/catalog/live_service.go:1220-1243 | beyond that the content is not fixed: three accepted publications of one generation, current throughout, the second listing another tool in its place, after which the reference is offered with another content |
| CatalogInvariants.PruneTombstonesKeepsWellFormed | pkg/catalog/live_service.go:1073-1081 | keeps exactly the tombstones whose retention is not over |
| CatalogInvariants.PruneExpiredKeepsWellFormed | pkg/catalog/live_service.go:949-964 | expired publications leave with their routes and exactly one tombstone each |
| CatalogInvariants.NormalizeKeepsWellFormed | pkg/catalog/live_service.go:1036-1071 | sorting changes no contents and no lookup |
| CatalogInvariants.NormalizedInOrder | pkg/catalog/live_service.go:1036-1071 | a normalized catalog lists publications, routes and tombstones in the order of their identifiers |
| CatalogInvariants.ConfinedIsWithin | pkg/catalog/live_service.go:1176-1203 | a context is confined to a required one exactly if it has every value that is required |
| CatalogInvariants.RemovalKeepsWellFormed | pkg/catalog/live_service.go:1323-1332 | taking a publication out with its route, leaving a tombstone, keeps the catalog well-formed |
| CatalogInvariants.RenewalKeepsWellFormed | pkg/catalog/live_service.go:367-385 | replacing sequence and lease in place keeps the catalog well-formed |
| CatalogInvariants.EnterAdds | pkg/catalog/live_service.go:332-338 | entering a publication adds it and its route and changes no other lookup |
| CatalogInvariants.DisplaceClears | pkg/catalog/live_service.go:296-322 | whatever Publish clears away leaves no publication of the registration |
| CatalogInvariants.FoundIsUnique | pkg/catalog/live_service.go:1305-1312 | the search finds the one publication of a registration |
| CatalogState.Draft.Publish | pkg/catalog/live_service.go:295-340 | the in-place Publish, equal to the specified change or refusing with the state unspoiled for the caller |
| CatalogState.Draft.Renew | pkg/catalog/live_service.go:367-385 | the in-place Renew, equal to the specified change |
| CatalogState.Draft.Revoke | pkg/catalog/live_service.go:408-426 | the in-place Revoke, equal to the specified change |
| CatalogState.Draft.MakeWay | pkg/catalog/live_service.go:296-322 | the in-place part of Publish that clears the current publication away or refuses, equal to the specification |
| CatalogState.Draft.AdmittedBy | pkg/catalog/live_service.go:323-331 | the loop over tombstones refuses a retired generation or a recently foreign registration |
| CatalogState.Draft.PruneTombstones | pkg/catalog/live_service.go:1073-1081 | the loop keeps what the specification keeps |
| CatalogState.Draft.PruneExpiredPublications | pkg/catalog/live_service.go:949-964 | the loop that retires expired publications one by one, equal to the specification |
| CatalogState.Draft.RemoveProviderRoute | pkg/catalog/live_service.go:1323-1332 | the filtering loop, equal to the specification |
| CatalogState.Draft.ProviderRouteFor | pkg/catalog/live_service.go:1314-1321 | the search loop, equal to the specification |
| CatalogState.Draft.IndexOf | pkg/catalog/live_service.go:1305-1312 | the search loop for a registration |
| CatalogState.Draft.ImmutableRevisions | pkg/catalog/live_service.go:1220-1243 | the loops compare each entry with the last previous one of its reference |
| CatalogState.Draft.Validate | pkg/catalog/live_service.go:981-1034 | the three passes with sets of seen keys accept exactly the well-formed catalogs |
| CatalogState.Draft.ValidateRoutes | pkg/catalog/live_service.go:998-1011 | routes are distinct, not empty and belong to current generations |
| CatalogState.Draft.ValidateTombstones | pkg/catalog/live_service.go:1012-1032 | tombstones are distinct and never current |
| CatalogService.ReplicasMutateSerially | pkg/catalog/live_service.go:919-947 | any interleaving of replicas, by revision or by full value, leaves a well-formed catalog that a single writer gets from the calls that won, in the order they won |
| CatalogService.SerialIsAfter | pkg/catalog/live_service.go:919-947 | a serial use of the backend is a run of the catalog |
| CatalogService.ReplicasNeverReplay | pkg/catalog/live_service.go:919-947 | however the calls of many replicas overlap and in whatever order their clocks were read, from the moment a tombstone remembers a generation no call for it wins before the end of the tombstone |
| CatalogService.ReplicasSequencesIncrease | pkg/catalog/live_service.go:919-947 | and the sequences that win for one generation strictly increase from one call to a later one as long as the clocks of the winners from the one to the other stay within one retention |
| CatalogService.ReplicasSequencesIncreaseWhileCurrent | pkg/catalog/live_service.go:919-947 | and, while the generation stays current after each winner from the one to the other, whatever the clocks read |
| CatalogService.CarriedWhileCurrent | pkg/catalog/live_service.go:919-947 | after any number of further winners the current publication of such a generation has at least the sequence that won |
| CatalogService.WinnersAccepted | pkg/catalog/live_service.go:919-947 | every call that won was accepted by the state the winners before it left |
| CatalogService.LiveService.Call | pkg/catalog/live_service.go:919-947 | success stores exactly one state, computed from the one just before it; refusals and exhausted retries store nothing, not even pruning |
| CatalogService.LiveService.Mutate | pkg/catalog/live_service.go:919-947 | one attempt, from loading to the final check, equal to the specification |
| CatalogService.MemoryBackend.CompareAndSwapState | pkg/catalog/live_backend.go:131-146 | swaps exactly if nothing was stored since the token was handed out |
| CatalogService.MemoryBackend.LoadState | pkg/catalog/live_backend.go:116-129 | hands out the last stored state with its revision |
| CatalogQueries.QueryReadsVisible | pkg/catalog/live_service.go:477-509 | a query is refused exactly if two visible entries of live matching publications share a reference; otherwise its pages show exactly these entries, each once, in strictly increasing key order, in ceil(n/limit) pages and at least one, with one list of ambiguous names, whatever the backend serves in between |
| CatalogQueries.FoundInCatalog | pkg/catalog/live_service.go:692-753 | a query on the stored catalog finds exactly the visible entries of the publications whose lease has not run out and whose context has every value the caller requires, each with the context and the route of its own publication; on an absent catalog nothing |
| CatalogQueries.ContinueIsDecided | pkg/catalog/live_service.go:885-917 | a cursor is answered exactly if it is unexpired, was made for this caller and query and its snapshot is still held; the page then has as many of the next records as were asked for or are left, and a cursor at its end exactly if more are left |
| CatalogQueries.AmbiguousInOrder | pkg/catalog/live_service.go:1284-1297 | the names that need a qualified reference come in strictly increasing order |
| CatalogQueries.RefKeyIsInjective | pkg/catalog/live_service.go:1301-1303 | two references without zero characters share a key only if they are the same |
| CatalogQueries.RunIsSound | pkg/catalog/live_service.go:859-883 | after any queries and continuations every retained snapshot is held under its own identity with records in strict order |
| CatalogQueries.AskKeepsSound | pkg/catalog/live_service.go:859-883 | one query keeps that |
| CatalogQueries.LiveQueries.First | pkg/catalog/live_service.go:692-753 | the query without a cursor in its own form: collect, sort and check, retain, answer the first page |
| CatalogQueries.Collect | pkg/catalog/live_service.go:702-742 | the loops over publications and entries collect exactly what the query may see |
| CatalogQueries.Valid | pkg/catalog/live_service.go:1395-1442 | the check of a retained snapshot accepts exactly strictly ordered ones within the limits |
| CatalogCursors.QueryReadsWholeSnapshot | pkg/catalog/live_service.go:477-509 | the first page and the pages its cursors lead to are the whole held snapshot, each record once, in ceil(n/limit) pages and at least one, with one list of ambiguous names |
| CatalogCursors.FollowFrom | pkg/catalog/live_service.go:477-502 | the same from any position, whatever the backend is asked for in between |
| CatalogCursors.ContinueHeld | pkg/catalog/live_service.go:477-502 | a cursor of a held, unexpired snapshot is answered with its page |
| CatalogCursors.HeldThrough | pkg/catalog/live_backend.go:148-185 | a stored snapshot survives every other request until it expires |
| CatalogCursors.StoredIsHeld | pkg/catalog/live_aether.go:95-132 | storing is set-if-absent: what is handed back is held, new or not |
| CatalogCursors.PagesLeftIsCeiling | pkg/catalog/live_service.go:885-917 | the number of pages is the quotient rounded up |
| CatalogCursors.CandidatesExact | pkg/catalog/live_service.go:692-753 | a snapshot has exactly the visible entries of the live publications whose context matches, with the route of their publication |
| CatalogCursors.VisibleExact | pkg/catalog/live_service.go:692-753 | the same for the entries of one publication |
| CatalogCursors.SortAndCheck | pkg/catalog/live_service.go:1262-1270 | it is refused exactly if two records share a reference; otherwise the result is a strictly ordered permutation of the records |
| CatalogCursors.SortIsOrdered | pkg/catalog/live_service.go:1262-1265 | sorting by reference key orders the records |
| CatalogCursors.AmbiguousRecordNames | pkg/catalog/live_service.go:1284-1297 | the loops list the repeated names |
| CatalogCursors.CountNames | pkg/catalog/live_service.go:1284-1288 | the loop counts how many records carry each name |
| CatalogCursors.AmbiguousMeansTwice | pkg/catalog/live_service.go:1284-1297 | a name is listed exactly if two records have it |
| CatalogCursors.MemoryBackend.Store | pkg/catalog/live_backend.go:148-163 | set if absent after pruning, answering what is retained |
| CatalogCursors.MemoryBackend.Load | pkg/catalog/live_backend.go:165-177 | answers a snapshot exactly if it is there and not expired |
| CatalogCursors.MemoryBackend.PruneSnapshots | pkg/catalog/live_backend.go:179-185 | the loop removes exactly the expired snapshots |
| Resource.SegmentRoundTrip | pkg/catalog/resource.go:99-125 | percent-encoding by sections 2.1 and 2.3 of RFC 3986 is invertible on every accepted value and never yields a slash or the sentinel |
| Resource.SegmentInjective | pkg/catalog/resource.go:99-125 | equal segments come from equal values, and an absent optional value from no value |
| Resource.DecodeEncoded | pkg/catalog/resource.go:112-124 | decoding undoes encoding in front of any further text |
| Resource.EncodeResourceSegment | pkg/catalog/resource.go:99-125 | the byte loop, equal to the specification |
| Resource.EntryPathInjective | pkg/catalog/resource.go:53-97 | one resource path, one entry: equal paths come from equal contexts, providers and tool names, absent optional fields told apart from all values |
| Resource.JoinInjective | pkg/catalog/resource.go:53-97 | pieces without slashes are read off a joined path in only one way |
| Resource.EncodedIsPlain | pkg/catalog/resource.go:112-124 | an encoded value has neither slash nor sentinel in it |
| Resource.SegmentIsDecided | pkg/catalog/resource.go:99-125 | a value is encoded exactly if it spells code points and is not the sentinel; an absent one exactly if it is optional; a missing and a reserved value have their own errors |
| Resource.BytesAreEscaped | pkg/catalog/resource.go:99-125 | an unreserved character stands for itself, every other byte is written as a percent sign and its two hexadecimal digits in capitals |
| Resource.ValidIsSpelled | pkg/catalog/resource.go:99-125 | the accepted bytes are exactly those that spell code points in UTF-8, section 3 of RFC 3629 |
| Resource.PathIs | pkg/catalog/resource.go:53-97 | a path is accepted exactly if all eight values are, and shows them under their labels in order |
| GoalRuntime.OncePerTurn | pkg/goal/runtime.go:306-502 | for any number of repeated, overlapping, failing and crashing calls of AfterTurn one (goal, assistant message) pair is charged at most once, has one first decision, and causes at most one delivery, for which a planned record was in the ledger before |
| GoalRuntime.RunKeepsInv | pkg/goal/runtime.go:286-502 | the invariant over every run of the protocol |
| GoalRuntime.NextKeepsInv | pkg/goal/runtime.go:306-502 | each step of each process keeps it |
| GoalRuntime.FirstDecisionKeepsInv | pkg/goal/runtime.go:425-464 | the atomic first decision finds nothing of its turn on record and nobody handling it |
| GoalRuntime.DeliveryKeepsInv | pkg/goal/runtime.go:466-500 | only the process that planned may deliver, and only once |
| GoalRuntime.FollowUpKeepsInv | pkg/goal/runtime.go:466-500 | the audit record behind a plan is written at most once |
| GoalRuntime.RecordsOfTurn | pkg/goal/ledger.go:166-181 | the records of a turn are one first decision and, only behind a planned one, at most one audit record |
| GoalRuntime.NothingOfTurn | pkg/goal/ledger.go:322-329 | a turn without a record was neither delivered nor is it being handled |
| GoalBound.ContinuationsAreBounded | pkg/goal/runtime.go:72-116 | when the calls of AfterTurn for a session do not overlap, a goal gets at most MaxContinuations follow-up turns within its budget, none if the maximum is zero or the host takes no follow-up turns, and one wrap-up beyond it that is the last turn ever planned, also across block and resume; the planned turns are exactly these and those bought by tolerated verifier errors |
| GoalTolerance.BoundHoldsExactly | pkg/goal/runtime.go:72-116 | MaxContinuations + 1 bounds the planned turns of every goal in every sequential run if and only if follow-ups are disabled, the host takes none, the first verifier error blocks, or no goal can be charged that often anyway |
| GoalTolerance.ContinuationsWithoutVerifierErrors | pkg/goal/runtime.go:322-464 | in runs whose verifier never errs the bound is MaxContinuations + 1 |
| GoalTolerance.NoFailureRecorded | pkg/goal/runtime.go:332-364 | such runs record no verifier failure, however their calls overlap |
| GoalTolerance.ToleratedErrorsBuyRounds | pkg/goal/runtime.go:393-396 | with verifier errors it is not: a run in which they buy any number of rounds beyond the budget, up to the 4096 messages a goal can be charged, with the wrap-up still to come |
| GoalTolerance.ToleratedErrorsAreCounted | pkg/goal/runtime.go:337-364 | in any stretch of a run tolerated errors buy at most one round less than the configured streak for each run of records without another reason |
| GoalTolerance.StreakStep | pkg/goal/runtime.go:674-699 | one record ends the streak, or keeps it, or adds one to it for a newly planned turn |
| GoalTolerance.ExhaustedBudgetBlocks | pkg/goal/runtime.go:85-110 | a goal beyond its budget is blocked at once exactly if the verifier failed once too often, follow-ups are disabled or its wrap-up was planned before, and otherwise gets one more turn if the host takes it |
| GoalTolerance.PlansArePaid | pkg/goal/runtime.go:306-464 | whatever overlaps or crashes, a goal has at most one planned turn per message charged to it, so at most 4096 |
| GoalTolerance.NextCharged | pkg/goal/runtime.go:306-500 | each step of each process keeps every decision one of a charged message |
| GoalBound.RunBounded | pkg/goal/runtime.go:322-464 | the invariant over every sequential run |
| GoalBound.NextBounded | pkg/goal/runtime.go:322-464 | each step keeps it |
| GoalBound.ConclusionBounded | pkg/goal/runtime.go:322-411 | the conclusion of a turn that read the whole ledger may be recorded |
| GoalBound.RecordedBounded | pkg/goal/runtime.go:393-464 | recording it keeps the bound |
| GoalBound.FollowUpBounded | pkg/goal/runtime.go:466-500 | the audit record keeps it |
| GoalBound.PlannedTurnsSplit | pkg/goal/runtime.go:653-661 | the planned turns of a goal are exactly those within budget, those bought by tolerated errors, and one if its wrap-up was planned |
| GoalBound.CallMovesOn | pkg/goal/service.go:184-229 | no service call lowers the usage of a goal or changes its budget |
| GoalTurn.TurnIsProtocol | pkg/goal/runtime.go:286-502 | one undisturbed process of the protocol does to the session exactly what the specified turn does |
| GoalOutcomes.TurnIsDecided | pkg/goal/runtime.go:281-502 | for every session and every turn that is charged and not on record: a satisfied verdict completes an active goal, adds the verdict evidence and the marker and records Completed with nothing delivered; the goal is blocked, under the reason that applies, exactly if the conditions for it hold; exactly in the remaining cases within the budget or its one wrap-up a follow-up is planned, numbered one above the plans so far, handed over once and followed by its audit record; otherwise goal and queue stay as they are with one record that says why |
| GoalOutcomes.ConclusionIs | pkg/goal/runtime.go:72-116 | the same of the conclusion alone: status, evidence, action, reason and number, for every ledger, goal and verdict |
| GoalOutcomes.FaultIsDecided | pkg/goal/runtime.go:322-500 | which error such a turn reports: a persistent verifier failure, a store whose validation refuses the changed goal, a delivery that failed, or none |
| GoalOutcomes.EarlyFault | pkg/goal/runtime.go:281-330 | and before that: no goal, no message, a turn on record, or a refused charge |
| GoalOutcomes.StatusIsChanged | pkg/goal/runtime.go:384-430 | changing the status of an active goal at the end of a turn sets that status, merges the evidence and changes no other goal; only schema validation can refuse it |
| GoalOutcomes.CountIsNumberOfPlans | pkg/goal/runtime.go:653-661 | the planned follow-ups that are counted are the planned records of that goal |
| GoalTurn.Runtime.AfterTurn | pkg/goal/runtime.go:286-502 | the method that charges, verifies, decides, records the plan, delivers and records the outcome has exactly the specified effect on store, ledger and deliveries, says whether the turn was one of a goal, and reports the specified error |
| GoalTurn.FaultTells | pkg/goal/runtime.go:286-502 | what the reported error means: without one, and after a failed delivery, the decision is on record; an error before the decision leaves the ledger as it was |
| GoalTurn.Runtime.Settle | pkg/goal/runtime.go:322-464 | verifier and policy, the change of status and the record of the decision, equal to the specification |
| GoalTurn.Runtime.Assess | pkg/goal/runtime.go:322-443 | the verifier and policy branches, driven by the counting loops, reach the specified conclusion |
| GoalTurn.Runtime.Record | pkg/goal/runtime.go:425-500 | the first decision, and delivery with its audit record only if a plan was admitted |
| Decisions.ReplicasDecideOnce | pkg/goal/ledger_cas.go:126-153 | however many replicas append, the ledger is contiguous, and at most one first decision of a turn is admitted, before any other record of that turn |
| Decisions.StoredInOrder | pkg/goal/ledger.go:239-257 | the stored records have the sequences 1, 2, 3, ..., and a call for a first decision precedes every other of its turn |
| Decisions.ChainStores | pkg/goal/ledger_cas.go:89-153 | the chain of swaps of the blob is a run of appends |
| Decisions.AppendKeepsLedger | pkg/goal/ledger.go:183-198 | an append keeps the ledger valid and extends it |
| Decisions.FileLedger.AppendFirstDecision | pkg/goal/ledger.go:166-181 | admits a decision exactly if the turn has none, and answers the first one on record either way |
| Decisions.FileLedger.AppendLocked | pkg/goal/ledger.go:183-198 | stores the decision under the next sequence, or refuses and changes nothing |
| Decisions.FileLedger.Find | pkg/goal/ledger.go:322-329 | the loop finds the first record of the turn |
| Decisions.FirstDecision | pkg/goal/ledger.go:322-329 | finds a record of the turn exactly if there is one |
| Decisions.CountPlannedContinuations | pkg/goal/runtime.go:653-661 | the loop counts the planned records of a goal |
| Decisions.WrapUpAlreadyPlanned | pkg/goal/runtime.go:665-672 | true exactly if a record of the goal has the wrap-up reason |
| Decisions.ConsecutiveVerifierFailures | pkg/goal/runtime.go:682-699 | the backward loop computes the streak |
| Decisions.StreakCountsTurns | pkg/goal/runtime.go:674-699 | a failed turn adds one to the streak, whether it wrote one record or two and whatever other goals recorded in between |
| Goals.GoalsEvolve | pkg/goal/service.go:281-306 | over any run a session has at most one open goal, a completed or cancelled goal stays as it ended, and evidence and usage only grow |
| Goals.UsageIsSumOfCharges | pkg/goal/store.go:204-258 | token usage is the sum over distinct assistant messages, at most 4096, of what was charged for each, within the JSON-safe range |
| Goals.RunBalances | pkg/goal/store.go:204-232 | the books balance over any run: exactly the charges that took effect are on record |
| Goals.CallBalances | pkg/goal/store.go:204-232 | and after every single call |
| Goals.CallEvolves | pkg/goal/service.go:242-306 | a call changes at most the goal it names, and that only as goals may change |
| Goals.RunKeepsInv | pkg/goal/store.go:234-258 | every reachable store is sorted, has one open goal at most, and valid message references |
| Goals.CreateKeepsInv | pkg/goal/service.go:99-112 | a goal is created only when none is open, and changes no other |
| Goals.UpdateKeepsInv | pkg/goal/service.go:199-229 | an update keeps budget, usage and terminal statuses |
| Goals.AccountKeepsInv | pkg/goal/store.go:204-232 | a message is charged exactly if it was not charged before |
| Goals.PutNew | pkg/goal/store.go:186-202 | insertion keeps ID order and every other lookup |
| Goals.EvidenceGrows | pkg/goal/service.go:297-306 | merged evidence extends the existing evidence |
| GoalService.EvidenceIsMerged | pkg/goal/service.go:297-306 | merged evidence is the existing evidence and behind it each new trimmed text that is not empty and not there yet, once |
| GoalService.EvidenceInTwoCalls | pkg/goal/service.go:297-306 | evidence brought in two calls is merged as if it came in one, so new texts stand in the order in which they were brought |
| GoalService.UpdateIsDecided | pkg/goal/service.go:184-231 | which updates are accepted: of a goal that is there, to a status it may take, with a reason if that is blocked; a missing goal and a forbidden transition have their own errors, and only schema validation refuses anything else |
| GoalService.UpdateChanges | pkg/goal/service.go:190-231 | what an update leaves: the status asked for or the old one, merged evidence, the time, the completion time exactly of a terminal goal, the trimmed reason exactly of a blocked one, and all else as it was |
| GoalService.CreateIsDecided | pkg/goal/service.go:76-112 | a goal is created exactly if objective and budget are acceptable, its ID is new and no goal is open; only schema validation refuses anything else |
| GoalService.CreateChanges | pkg/goal/service.go:92-112 | a new goal is active with the trimmed objective, nothing used and no evidence |
| GoalService.ChargeIsDecided | pkg/goal/store.go:204-232 | a charge is accepted exactly if it names a message, the goal is there, and the message is charged already or both the number of charges and the sum stay within their limits |
| GoalService.ChargeChanges | pkg/goal/store.go:204-232 | a charge changes usage and time and nothing else, whatever the status of the goal; a repeated one changes nothing |
| GoalService.PutReplaces | pkg/goal/store.go:186-202 | putting a goal that is there replaces it in its place, keeps when it was created and touches no other |
| GoalStore.ReplicasKeepTheBooks | pkg/goal/cas_store.go:137-182 | however many replicas create, update and charge, the blob holds the goals of a sequential run of the winners: one open goal, balanced usage |
| GoalStore.SerialIsRun | pkg/goal/cas_store.go:137-182 | a serial use of the blob is a run of the store |
| GoalStore.Search | pkg/goal/store.go:187-187 | the binary search finds the insertion point |
| GoalStore.PutGoalState | pkg/goal/store.go:186-202 | inserts or replaces at that point, keeping the creation time |
| GoalStore.OpenGoal | pkg/goal/service.go:253-266 | the loop answers the one open goal, none, or the error for several |
| GoalStore.MergedEvidence | pkg/goal/service.go:297-306 | the loop, equal to the specification |
| GoalStore.FileStore.Find | pkg/goal/service.go:242-251 | the loop finds the first record with the ID |
| GoalStore.FileStore.CreateGoal | pkg/goal/service.go:76-117 | checks, insertion and errors as specified; an error leaves the store as it was |
| GoalStore.FileStore.UpdateGoal | pkg/goal/service.go:184-229 | updates the named goal, or, when no ID is given, the goal found open, whatever other calls do between the look and the change |
| GoalStore.FileStore.Mutate | pkg/goal/service.go:242-251 | the mutation of one record in place, equal to the specification |
| GoalStore.FileStore.AccountUsage | pkg/goal/store.go:163-232 | charges once and within both limits, equal to the specification |
| Patch.PatchIsItsOperationsInTurn | pkg/localtools/patch.go:190-305 | a patch is accepted exactly when its operations applied one at a time would be, and leaves the same files with the same contents; the modes agree as well if and only if no path is stale |
| Patch.OperationDoes | pkg/localtools/patch.go:190-305 | each operation has exactly one outcome: refused exactly if no outcome is allowed, otherwise a new file with the text asked for and the default mode, no file, or a file with its lines rewritten and its mode kept, here or at its new path, and every other path untouched |
| Patch.ChangesAreReported | pkg/localtools/patch.go:190-305 | a staged patch reports all of its operations, in order |
| Patch.RecreatedFileKeepsItsMode | pkg/localtools/patch.go:240-256 | a stale path: deleting a file and creating it again in one patch keeps its mode, in two patches it does not |
| Patch.RollbackIsExact | pkg/localtools/patch.go:289-304 | a rolled-back patch leaves the files exactly as they were if and only if no touched file had mode 0 |
| Patch.Workspace.ApplyPatch | pkg/localtools/patch.go:190-305 | committed whole; or refused or cancelled without touching a file; or rolled back; and if even the rollback fails every path is in its old or its new state |
| Patch.Workspace.CommitPatchStates | pkg/localtools/patch.go:312-333 | success leaves every target state; a failure leaves each path old or new, and nothing is removed before everything new is written |
| Patch.Workspace.Stage | pkg/localtools/patch.go:202-289 | one operation on the staged states, equal to the specification, with the original state of every loaded path kept |
| Patch.Workspace.SortedPaths | pkg/localtools/patch.go:289-293 | enumerates exactly the changed paths, in strictly increasing order |
| Patch.AllAgree | pkg/localtools/patch.go:231-290 | staged and one-at-a-time application agree along any list of operations |
| Patch.SimpleOpAgrees | pkg/localtools/patch.go:239-271 | they agree on create, delete and update |
| Patch.MoveAgrees | pkg/localtools/patch.go:258-285 | they agree on an update that moves the file |
| Patch.CommittedAgrees | pkg/localtools/patch.go:289-304 | what is committed has the contents of the single operations, and their modes off the stale paths |
| Patch.StageAllStaged | pkg/localtools/patch.go:203-288 | paths are changed only by operations; loaded states are those of the disk until then |
| PatchChunks.UpdateRewritesOneCut | pkg/localtools/patch.go:365-402 | an update succeeds exactly when one cut of the lines of the file fits its chunks in order, each at its first best match, and its result is that cut rewritten with the line ending of the file; otherwise no cut fits; without chunks it changes nothing |
| PatchChunks.LinesAreText | pkg/localtools/patch.go:365-402 | the lines of a file written with line feeds are its text again, with a line break at the end if it had none |
| PatchChunks.RanksAre | pkg/localtools/patch.go:404-438 | what the three passes take for the same line: equal, equal up to blanks at the end, equal up to white space around it |
| PatchChunks.PlanIsTheOnlyFit | pkg/localtools/patch.go:379-400 | the left-to-right plan finds that cut if and only if it exists |
| PatchChunks.FindIsTheHit | pkg/localtools/patch.go:404-438 | the search answers the best match: the weakest trimming that matches anywhere decides, then the first place; at the end only for end-of-file chunks |
| PatchChunks.FindIsBest | pkg/localtools/patch.go:404-438 | it answers -1 exactly if nothing matches under any trimming |
| PatchChunks.FindPatchSequence | pkg/localtools/patch.go:404-438 | the nested loops, equal to the search |
| PatchChunks.Matched | pkg/localtools/patch.go:423-435 | the innermost loop compares line by line under one trimming |
| PatchChunks.SpliceChunks | pkg/localtools/patch.go:379-401 | splicing in place with a moving cursor does what the plan says |
| PatchChunks.Locate | pkg/localtools/patch.go:381-398 | context line and expected lines are looked up behind the cursor |
| PatchChunks.FindShifts | pkg/localtools/patch.go:404-438 | what lies before the cursor has no influence on what is found behind it |
| PatchChunks.ChunkApplied | pkg/localtools/patch.go:388-400 | one splice makes one edit of the plan |
| PatchChunks.FitCutsText | pkg/localtools/patch.go:365-402 | the pieces of the cut are the original |
| PatchChunks.EndsTheFile | pkg/localtools/patch.go:388-393 | end-of-file chunks and pure insertions leave nothing behind them |
| PatchChunks.ApplyPatchChunks | pkg/localtools/patch.go:365-402 | reading lines, splicing and writing them with the ending of the file, equal to the specification |
| PatchChunks.RewrittenFileReadsBack | pkg/localtools/patch.go:369-378 | reading a rewritten file gives the lines that were written; only a file left without lines reads as one empty line |
| PatchChunks.RenderedIsRead | pkg/localtools/patch.go:369-378 | the same with both line endings |
| PatchRoundTrip.ParsedReadsBack | pkg/localtools/patch.go:75-168 | any text that is accepted as a patch and has no two carriage returns before a line feed: writing what was read and reading that gives the same operations |
| PatchRoundTrip.ParsedIsWritable | pkg/localtools/patch.go:75-168 | what is read can be written again, except exactly for a created file with a carriage return before a line feed |
| PatchRoundTrip.CarriageReturnIsLost | pkg/localtools/patch.go:79-101 | a text with two carriage returns before a line feed asks for such a file |
| PatchRoundTrip.OperationIs | pkg/localtools/patch.go:84-158 | one operation as it is read: its paths are trimmed, its chunks not empty, and its lines those of the text |
| PatchText.PatchTextReadsBack | pkg/localtools/patch.go:75-168 | writing operations as a patch text and parsing it gives them back |
| PatchGrammar.ParseIsGrammar | pkg/localtools/patch.go:75-168 | a text is accepted as a patch of some operations if and only if its lines, without the white space around it all, are these operations written out between the two markers, by a grammar that does not mention the parser |
| PatchGrammar.OperationsAre | pkg/localtools/patch.go:75-168 | the same on lines: they are read as some operations exactly if they are written for them, and for no others |
| PatchText.PatchReadsBack | pkg/localtools/patch.go:80-168 | the same on lines, for every operation the text form can express |
| PatchText.OperationReadBack | pkg/localtools/patch.go:84-158 | one operation is read back and nothing behind it is touched |
| PatchText.ChunkReadBack | pkg/localtools/patch.go:122-151 | one chunk is read back |
| PatchText.ParsePatch | pkg/localtools/patch.go:75-168 | the parser, equal to the specification |
| PatchText.ReadOperations | pkg/localtools/patch.go:84-162 | the loop over the moving index consumes all lines |
| PatchText.ReadOperation | pkg/localtools/patch.go:84-158 | one file marker and what belongs to it: the index strictly moves on |
| PatchText.ReadChunks | pkg/localtools/patch.go:122-151 | the chunk loop, equal to the specification |
| PatchText.ReadChunk | pkg/localtools/patch.go:123-150 | one chunk: the index strictly moves on or the patch is refused |
| PatchText.ReadChangeLines | pkg/localtools/patch.go:128-146 | the loop over change lines |
| PatchText.ReadUpdate | pkg/localtools/patch.go:109-158 | an update with its move target and its chunks |
| PatchText.ReadAddLines | pkg/localtools/patch.go:88-98 | the loop over the lines of a new file |
| OutputBuffer.LimitedBuffer.Write | pkg/localtools/command.go:121-138 | after any writes with concatenation S: the visible part is the first `limit` bytes, head the first half-window of S, the unrolled ring the last half-window of what follows, total is its length, and truncated is exactly an overrun |
| OutputBuffer.LimitedBuffer.Show | pkg/localtools/command.go:124-137 | the visible part takes what still fits |
| OutputBuffer.LimitedBuffer.Archive | pkg/localtools/command.go:143-178 | head first, every later byte to the ring |
| OutputBuffer.LimitedBuffer.ArchiveRest | pkg/localtools/command.go:161-177 | the ring ends up with the last half-window, although bytes that cannot survive are skipped |
| OutputBuffer.LimitedBuffer.PushByte | pkg/localtools/command.go:167-176 | one byte into the ring, filling or overwriting the oldest |
| OutputBuffer.LimitedBuffer.TailBytes | pkg/localtools/command.go:213-220 | unrolls the ring into write order |
| OutputBuffer.LimitedBuffer.ArchiveText | pkg/localtools/command.go:196-210 | the archive of a truncated output: both windows, with a marker naming the number of dropped bytes between them |
| OutputBuffer.ArchiveKeepsBothEnds | pkg/localtools/command.go:143-210 | with nothing dropped the archive is the output; otherwise it is its two ends, and the marker counts exactly what is between them |
| OutputBuffer.RetentionBound | pkg/localtools/command.go:143-178 | how much is retained, exactly: the output or as much of it as the limit allows in two equal halves; only a limit of one retains more than it says, two bytes |
| OutputBuffer.VisibleIsBeginning | pkg/localtools/command.go:121-141 | the visible part is the beginning of the output, as much of it as the limit allows |
| OutputBuffer.HeadFills | pkg/localtools/command.go:151-160 | how both windows grow with a write |
| OutputBuffer.RingAdvances | pkg/localtools/command.go:174-176 | overwriting the oldest byte of a full ring drops it from the front and appends the new one |
| OutputBuffer.TruncatedMeansLeftOut | pkg/localtools/command.go:127-136 | truncated agrees with whether bytes were left out if and only if some were or no empty write met a full buffer |
| OutputBuffer.EmptyWriteReportsTruncation | pkg/localtools/command.go:127-131 | an empty write to a full buffer is reported as truncation although nothing was left out |
| Compactors.WorldStateSurvives | pkg/compaction/compactor.go:43-273 | however often a growing history is compacted, and by whatever compactors, the world state extracted from it is that of the full history, as long as no state is configured on top |
| Compactors.CompactKeepsState | pkg/compaction/compactor.go:43-273 | one compaction by any compactor, composites included, leaves the extracted state as it was and reports it |
| Compactors.ConfiguredStateSurvives | pkg/compaction/worldstate.go:293-312 | every compactor, composites included, reports the history with the configured state on top, and its messages yield that state again if and only if nothing that the history carries behind the first kept message clashes with it; for a composite the first stage's messages are the history of the second |
| Compactors.ConfiguredReported | pkg/compaction/compactor.go:256-273 | the induction over composites: putting the configured state on top again changes nothing |
| Compactors.ClassicKeepsBehind | pkg/compaction/compact.go:47-71 | what classic compaction keeps behind its first message carries the states of the history from the cut on |
| Compactors.PassReports | pkg/compaction/compactor.go:43-273 | the same for one pass of a single compactor |
| Compactors.ConfiguredStateCanBeOverruled | pkg/compaction/compact.go:36-46 | an example where it does not survive: a plan configured as done is open again |
| Compactors.ReportedStateSurvives | pkg/compaction/worldstate.go:293-312 | the same for any kept messages that end with the newest ones |
| Compactors.AppendKeepsEqual | pkg/compaction/worldstate.go:197-211 | histories with equal states stay equal as messages are appended |
| Compactors.ClassicShape | pkg/compaction/compact.go:47-71 | classic compaction keeps a suffix of the text-trimmed history, possibly behind one summary |
| Compactors.CompactedPlusKept | pkg/compaction/compact.go:55-71 | every message is either kept or counted as compacted |
| Compactors.CompositeFits | pkg/compaction/compactor.go:256-273 | falling back on classic compaction ends within the token limit or with a single message |
| Compactors.ClassicFits | pkg/compaction/compact.go:63-71 | so does classic compaction alone |
| Compactors.ReportEstimates | pkg/compaction/worldstate.go:182-195 | the report counts the returned messages, estimates them, and says what remains of the limit |
| Compactors.TrimTwice | pkg/compaction/compact.go:83-106 | trimming texts again changes nothing |
| Compactors.EvictionKeepsShape | pkg/compaction/compactor.go:90-121 | eviction changes no recent message, no image, no identity, number or metadata of messages; large texts and tool results only, and a result still answers its call |
| Offloads.MessagesAreEvicted | pkg/compaction/compactor.go:67-130 | of the older messages exactly the large texts and tool results are put away: the sink took the whole text under the name of its part, and what replaces it tells where it went, how many bytes it had and its first and last lines; all else is as it was, and eviction fails exactly if the sink refused one of them |
| Offloads.PartIsEvicted | pkg/compaction/compactor.go:92-130 | the same for one part |
| Offloads.PreviewShows | pkg/compaction/compactor.go:154-178 | a preview has the reference, the number of bytes in decimal, and the first and last lines with the number of lines between them |
| Offloads.PartsGetTheirOwnNames | pkg/compaction/compactor.go:95-101 | the parts of one message go under different names; only a tool result that answers a call goes under the call |
| Offloads.EvictingPutsAway | pkg/compaction/compactor.go:67-130 | an evicting compactor with a sink reports the history with exactly the large parts of its older messages put away |
| Offloads.SummarizingTellsWhatIsGone | pkg/compaction/compactor.go:187-247 | over its limit a summarizing compactor keeps the recent messages behind one message with the summary of all older ones, the number of them and, if an offload took them, where they are; it fails exactly if the summarizer does |
| Offloads.ClassicTellsWhatIsGone | pkg/compaction/compact.go:36-81 | classic compaction keeps the newest messages, and in front of them, when it cut them to a count, one message with the number of those dropped, unless even that had to go for the tokens |
| Offloads.TextsAreCut | pkg/compaction/compact.go:83-106 | trimming cuts exactly the texts that are too long, behind the bytes that fit, and leaves all else |
| Offloads.MessageIsEstimated | pkg/compaction/tokens.go:34-52 | a message is estimated at four tokens, a quarter of the bytes of its parts that are no images, and 1200 for each image |
| Offloads.EstimatesAdd | pkg/compaction/tokens.go:26-33 | a history is estimated at the sum of its messages, wherever it is cut |
| Offloads.DecimalIsRead | pkg/compaction/compactor.go:154-178 | the numbers in these texts are read back as themselves |
| Compactors.EvictionKeepsTail | pkg/compaction/compactor.go:90-121 | eviction keeps the states of all messages |
| Compactors.ClassicKeepsTail | pkg/compaction/compact.go:47-71 | classic compaction keeps the states of the newest messages |
| Compactors.PassIsReport | pkg/compaction/compactor.go:67-232 | every compactor that is no composite reports on kept messages that end with the newest ones |
| Compactors.RunCompactor | pkg/compaction/compactor.go:43-273 | the compactors run step by step, equal to the specification |
| Compactors.EvictOlder | pkg/compaction/compactor.go:92-121 | the outer eviction loop |
| Compactors.EvictMessageParts | pkg/compaction/compactor.go:93-120 | the inner eviction loop, stopping at the first sink error |
| Compactors.EvictOne | pkg/compaction/compactor.go:95-119 | one part: left alone, replaced by its preview, or an error |
| Compaction.TrimDropsFewest | pkg/compaction/tokens.go:50-68 | the token trim keeps the longest run of newest messages that fits, and always the newest one |
| Compaction.TrimToTokenBudget | pkg/compaction/tokens.go:54-68 | the loop with its running total, equal to the specification |
| Compaction.EstimateTokens | pkg/compaction/tokens.go:26-32 | the accumulating loop, equal to the specification |
| Compaction.EstimateMessageTokens | pkg/compaction/tokens.go:34-48 | bytes of all parts but images, and a flat cost per image |
| Compaction.ReduceWithReport | pkg/compaction/compact.go:36-81 | text trim, count limit, token trim and counters step by step, equal to the specification |
| Compaction.TrimParts | pkg/compaction/compact.go:83-106 | the nested loops, equal to the specification |
| Compaction.CountOriginals | pkg/compaction/compact.go:66-70 | counts the dropped messages that are no summary |
| Compaction.ReportOn | pkg/compaction/compact.go:73-80 | state, budget and metadata of a report |
| Compaction.ExtractWorldState | pkg/compaction/worldstate.go:197-211 | merging message by message is merging all at once |
| WorldState.MergeIsAssociative | pkg/compaction/worldstate.go:213-291 | merging merged states is merging their parts, in any grouping |
| MergeLaws.MergeIsWhatCounts | pkg/compaction/worldstate.go:213-291 | a merge of any states holds the largest turn and the largest number of compactions, the last extra word, and in each list, in key order, exactly one entry for each key of its parts: for todos, skills, files and subagents the one touched in the latest turn, and of several the last; for plans, tasks and tools the last |
| MergeLaws.JoinedIsEntered | pkg/compaction/worldstate.go:222-280 | merging states is entering their items one after the other |
| MergeLaws.EnterAllGathers | pkg/compaction/worldstate.go:229-275 | what entering items leaves for each key: the entry that counts for its kind |
| WorldState.SuffixIsAbsorbed | pkg/compaction/worldstate.go:213-291 | merging the states of the newest messages in once more changes nothing |
| WorldState.JoinAssociative | pkg/compaction/worldstate.go:213-291 | the merge of tables is associative |
| WorldState.JoinIdempotent | pkg/compaction/worldstate.go:213-291 | and idempotent, with the empty state as unit |
| WorldState.JoinTableAssociative | pkg/compaction/worldstate.go:239-279 | the same for one list under both rules: the last entry counts, or the newest |
| WorldState.EnterAllIsJoin | pkg/compaction/worldstate.go:226-279 | entering a list item by item is merging with the table of the list |
| WorldState.RenderLoads | pkg/compaction/worldstate.go:389-409 | tables rendered in key order read back as themselves |
| WorldState.IncreasingIsUnique | pkg/compaction/worldstate.go:389-409 | there is one way to list distinct keys in order |
| WorldState.SortTwice | pkg/compaction/worldstate.go:383-387 | normalizing a task twice is normalizing it once |
| WorldState.OnTopAgain | pkg/compaction/worldstate.go:213-291 | however often what the history already says is merged in between, putting the same state on top again changes nothing |
| WorldState.SurvivesUnlessClash | pkg/compaction/worldstate.go:213-291 | a state put over the history survives merging the rest of the history again if and only if nothing clashes |
| WorldState.TableSurvives | pkg/compaction/worldstate.go:239-279 | the same for one list |
| WorldState.MergeWorldState | pkg/compaction/worldstate.go:213-291 | the loops over states, lists and items, equal to the specification |
| WorldState.AddState | pkg/compaction/worldstate.go:222-280 | one state into what the loop has gathered |
| WorldState.EnterItems | pkg/compaction/worldstate.go:229-275 | the loop over the items of one list |
| WorldState.ValuesByKey | pkg/compaction/worldstate.go:389-400 | the sorted rendering of one table |
| WorldState.Keys | pkg/compaction/worldstate.go:389-396 | collecting and sorting the keys |

## Left out

- Schema validation of the messaging specification (`spec.*.Validate`) is an arbitrary predicate for goals and is not modelled
  for catalog publications, queries and snapshots beyond what the code of the repository itself checks.
- JSON, base64, HMAC and SHA-256: encodings are values, digests compare like their contents, cursors are sealed records.
- Authorizers, liveness checks and invocation authority are arbitrary predicates; describing and invoking single tools
  (pkg/catalog/live_service.go:513-690) adds only lookups.
- The spelling checks on provider routes and page tokens, and the texts of errors and prompts.
- Wrap-around of 64-bit sequences and of the 32-bit continuation counter.
- LedgerPaging.ReachableWalkIsExact: assumes a generator that never repeats an event ID.
- CatalogRuns.NoReplay: assumes a clock that does not run backwards; `CatalogRuns.NoReplayInAnyOrder` and
  `CatalogService.ReplicasNeverReplay` do without for what a tombstone remembers, not for a lease that has run out by one clock
  and not by another.
- CatalogRuns.SequencesIncrease: assumes the same; `CatalogRuns.SequencesIncreaseInAnyOrder` and `CatalogService.ReplicasSequencesIncrease` do without within one retention, and their `WhileCurrent` forms do without any bound on time as long as the generation stays current.
- The ordered key-value backend (pkg/catalog/live_aether.go) is covered by full-value tokens and set-if-absent snapshots; its
  time-to-live in whole seconds is not.
- PinModel of the ledger service derives the operation ID from branch and model, so pinning A, B and A again replays the
  first pin; the pinned model is therefore stated of the ledger, not of that service.
- Direct PutGoal calls bypass the one-open-goal rule; only the service operations are modelled. The service interface of
  goal tools, resuming of turns and inspection of backends are not.
- GoalRuntime.OncePerTurn: a record that a store kept although it reported an error is a crash right after the step.
- GoalTolerance.BoundHoldsExactly: of a store whose schema validation accepts every list of records and that can hold usage at
  all; a stricter validation only shortens runs.
- Directories, symbolic links and path resolution of the workspace: requests resolve by an arbitrary function, files are a map
  from paths to contents and modes, a failed write or removal leaves its path as it was.
- Patch.Workspace.CommitPatchStates: temporary files and created parent directories are not part of the model.
- PatchText.PatchTextReadsBack: a patch is written without shared context lines, which is one of the ways to express it;
  `PatchGrammar.ParseIsGrammar` covers all of them. Error texts and line numbers are not modelled.
- Characters of the output buffer, and of texts that compaction cuts, are bytes; what JSON makes of a character cut in half is not modelled.
- OutputBuffer: String, Total and Truncated only read fields.
- LedgerCas.Blob.Interfere, CatalogService.MemoryBackend.Interfere: stand for whatever other replicas store between a read and a swap; callers
  rely on their contracts alone.
- Compactors.RunCompactor: what reaches a sink is stated by `Offloads`; what a sink keeps of it is not modelled. Parts of
  different messages, and tool results of one call, may go under one name, so the later one may replace the earlier.
- Ageing of skills, files, todos and subagents by turn, model registry, command discovery, plugins, approval and all user interfaces.
