# hexroute: a verified model

hexroute keeps a read model of one host's connectivity and ships what it learned to a cloud. Facts
arrive from collectors in two privilege domains. An *acceptor* gives every decision a fold position
and every accepted fact a host sequence, and keeps per source a bounded account of holes, reused
identities and owed restatements. A *reducer* folds decisions into a snapshot, a diff against policy
and proposals. A *runtime* journals decisions, reduces on every tick and seals effective snapshots
into a linked lineage, which a *store* keeps across crashes and which the journals can later derive
again. Beside it stand the cloud's gap bookkeeping, the runner that applies action plans under a
lease, the recovery machine and the incident reconciler.

The model is written in Dafny. Pure code is a set of functions; code that changes things step by step
is a class or a loop, proved to compute the function that specifies it. What is promised is then
proved of those functions, over every input, every run or every interleaving.

| files | what they hold |
|---|---|
| `Facts`, `Acceptance`, `Acceptor` | facts, the ownership envelope, the decision rule, the acceptor object |
| `History`, `AcceptorTheorems`, `AcceptorResults` | the decision history as a reference, and the acceptor's exactness against it |
| `Reducer`, `Comparison`, `Reduction`, `ReducerLoops` | tables, rendering, policy comparison, one whole reduction, its loops |
| `ReductionTheorems`, `ReductionResults`, `ComparisonResults` | coalescing of reductions, storable output, what conclusions mean |
| `Runtime`, `RuntimeObject`, `RuntimeTheorems`, `RuntimeResults`, `Readiness` | publications and ticks as a state machine and as an object; what every run keeps; when "ready" is said |
| `Replay`, `ReplayLoops`, `ReplayTheorems`, `ReplayResults`, `JournalOrder`, `VerifiedRun` | deriving sealed links again from the journals, and exactly when that works |
| `SleepingRun`, `EvictedRun`, `LateRun`, `ForgottenRun` | concrete runs at which replay, restart and readiness are not exact |
| `Restart`, `Issued` | resuming past a checkpoint, and counting on when nothing could be resumed |
| `Lives`, `LivesTheorems`, `LivesResults`, `LivesWakes`, `LivesPlaces` | whole lives of a runtime: failed appends, restarts from any checkpoint and reboots included |
| `Store`, `StoreObject`, `StoreTheorems`, `Resume` | the checkpoint store under crashes, and startup |
| `Journal` | full and tail reads |
| `CloudGaps`, `CloudStore`, `CloudGapTheorems`, `MissingRanges`, `Acknowledgement`, `SilentRun` | sequence gaps in the cloud and the ranges reported back |
| `ActionPlan`, `ActionRunner`, `Lease`, `LeaseGuard`, `LeasedRun` | rollback plans, the runner against a host that may fail anywhere, guards on one lease, both together |
| `Recovery`, `RecoveryTheorems` | the recovery machine |
| `Incidents`, `IncidentStore`, `IncidentTheorems` | incident reconciliation |

Where the code does not do what its comments promise, the code is followed, an input shows the
difference, and the exact condition is proved:

- A link is derived again by verification exactly when it is *covered*: components restated by
  reductions that changed nothing are restated again within a tick that carries a wake
  (`WakeDefeatsReplay`), and refusals made again after they were evicted are hidden or retired
  (`EvictionDefeatsReplay`); and, across starts, when every change since its parent was stored
  (`RunFidelity`, `ReplayFidelity`).
- A restart re-accepts in host order, in which refused records come first: it is exact exactly when past
  the checkpoint no refused record follows a record of another fact (`JournalsTellRestart`,
  `LateArrivalChangesRestart`).
- A journal append that fails leaves the acceptor a decision ahead. The snapshot no longer restores it
  (`RestoredEqualsLive`, `LostAppendIsNotRestored`), the decisions have a gap (`LivesAreGapFree`), and ticks
  fail from the next fact on until a start (`TickSucceedsExactly`). A start then issues fold positions
  twice exactly when a record is held further past the checkpoint than there are records past it
  (`PositionsComeAgainExactly`, `LostPositionComesAgain`, `IntactNeverIssuesAgain`).
- A start forgets the reductions past the checkpoint it resumes, and a wake they heard of: the runtime can
  show ready with nothing restated since (`WakeIsForgotten`, `ForgottenWake`). It answers for every wake
  exactly when none was heard of since the checkpoint, or records not folded by then restate what was
  withdrawn (`StartKeepsWakesExactly`, `FirstTickKeepsWakesExactly`, `NeverGuessedHealthy`).
- The highest issued host sequence is read off the newest records only: it is right exactly while the
  highest is still the newest record of some journal (`HostReissuedExactly`, `RetryHidesIssue`).
- After a crash between entry and pointer, or after recovering an ancestor, the store stays readable
  but accepts nothing more (`IndexAheadStopsProgress`, `RecoveredAncestorIsStuck`).
- A policy rollback is refused once (`RollbackIsRefusedOnce`).
- Merged ranges are apart exactly when no range that ends at the top of the 64-bit space is followed
  by another (`MergeSeparatesExactly`). An acknowledgement limits the rows it reads before it merges them,
  so it can leave out sequences although it has room (`ReportIsAllExactly`, `SilentNinth`).
- A backoff is the capped power of two except where that is one below the cap (`BackoffExactly`). It is
  kept exactly where the tick it is added to leaves room for it in 64 bits (`SpacingExactly`,
  `BackoffLost`), and so is the cooldown (`CooldownServedExactly`, `CooldownLost`).

Digests are abstract: a fact's digest is an arbitrary value, so nothing about retries and reuses
assumes that different facts have different digests. Two comparisons the code makes by digest are made
by content here, namely whether a reduction changed anything and whether a derived output is the
recorded one. Identifiers are numbers or strings, random identifiers are fresh, and one database
transaction is one step. Time, randomness and whatever a host or a disk answers are parameters or
arbitrary results.

## Model

| member | source | states |
|---|---|---|
| `AcceptorObject.Acceptor.constructor` | internal/connectivityaccept/acceptor.go:270-274 | a new acceptor knows no source and has issued no number |
| `AcceptorObject.Acceptor.Restore` | internal/connectivityaccept/acceptor.go:275-282 | an acceptor resumes exactly from a state that validates, and then holds that state |
| `AcceptorObject.Acceptor.Accept` | internal/connectivityaccept/acceptor.go:294-359 | one call is one step of the decision rule: new state and decision, rejected arrivals changing nothing |
| `AcceptorObject.Acceptor.DecideFact` | internal/connectivityaccept/acceptor.go:317-359 | first contact, boot change, advance or replay, each with its own new state |
| `AcceptorObject.Acceptor.AdmitFact` | internal/connectivityaccept/acceptor.go:424-472 | a fact that advances its stream: gap recorded, debt settled, window moved, host sequence issued |
| `AcceptorObject.Acceptor.NoteGap` | internal/connectivityaccept/acceptor.go:524-539 | the newest MAX_GAP_RANGES holes are kept in order and every declared component owes a restatement |
| `AcceptorObject.Acceptor.Remember` | internal/connectivityaccept/acceptor.go:460-466 | the watermark moves and the window forgets its oldest digest |
| `AcceptorObject.Acceptor.ReplayFact` | internal/connectivityaccept/acceptor.go:475-520 | a fact that does not advance: retry, reused identity or too old, found by scanning the window and the gaps |
| `AcceptorTheorems.RunLinked` | internal/connectivityaccept/acceptor.go:294-539 | after every run, every source's bounded state agrees with a reference defined from the decision history alone |
| `AcceptorResults.GapExactness` | internal/connectivityaccept/acceptor.go:436-466 | with no overflow, a sequence lies in a recorded gap exactly when it falls after the last discharge (or first fact of the boot), before the watermark, and was never accepted |
| `AcceptorResults.GapsAreNewestHoles` | internal/connectivityaccept/acceptor.go:513-539 | recorded gaps are disjoint, ascending, and exactly the newest MAX_GAP_RANGES holes; overflow exactly when there were more |
| `AcceptorResults.DebtExactness` | internal/connectivityaccept/acceptor.go:391-422 | what a source owes is its declared components minus those restated since the latest hole, reuse or reboot; nothing owed means no gap, overflow or conflict |
| `AcceptorResults.ClearedExactlyOnDischarge` | internal/connectivityaccept/acceptor.go:436-458 | within one boot the integrity record is wiped exactly by the baseline that empties the debt, and otherwise only grows |
| `AcceptorResults.BoundedWindowRefinesFullMemory` | internal/connectivityaccept/acceptor.go:475-511 | against an acceptor that remembers everything: the same answer for the last RETRY_WINDOW accepted facts, otherwise stale, and the same answer about what is new |
| `AcceptorResults.WindowRecall` | internal/connectivityaccept/acceptor.go:475-490 | the bounded window finds a sequence exactly when one of the last RETRY_WINDOW accepted facts claimed it |
| `AcceptorResults.RepeatsChangeOnlyTheFold` | internal/connectivityaccept/acceptor.go:475-511 | a duplicate or stale decision changes nothing but the fold position |
| `AcceptorResults.EveryStateCanBeRestored` | internal/connectivityaccept/acceptor.go:216-268 | no run reaches a state that validation would refuse on restart |
| `AcceptorResults.TwoOrders` | internal/connectivityaccept/acceptor.go:326-359 | decisions carry consecutive fold positions and accepted ones consecutive host sequences |
| `History.RejectedChangesNothing` | internal/connectivityaccept/acceptor.go:294-315 | a fact is rejected exactly when it is malformed, undeclared or crosses domains, and then nothing changes |
| `Facts.OneOwnerPerComponent` | internal/safety/connectivity.go:38-96 | every component has exactly one authoritative source |
| `ReducerLoops.FoldBatch` | internal/connectivityreduce/reduce.go:102-129 | the event loop folds a batch, or stops at the first event that does not continue both orders |
| `ReducerLoops.MarkRebaseline` | internal/connectivityreduce/reduce.go:749-764 | exactly the time-sensitive components that were ever observed are held stale |
| `ReducerLoops.ReduceBatch` | internal/connectivityreduce/reduce.go:84-181 | one reduction computes its specification, error cases included |
| `ReductionTheorems.FoldMarked` | internal/connectivityreduce/reduce.go:749-764 | a mark made before a batch survives it exactly for the components the batch does not restate |
| `ReductionTheorems.FoldRefusals` | internal/connectivityreduce/reduce.go:383-414 | folding over another table of refusals changes nothing but the refusals |
| `ReductionTheorems.IneffectiveTickCoalesces` | internal/connectivityreduce/reduce.go:728-748 | a reduction that changes nothing, wake or not, can be folded into the next one |
| `ReductionResults.CoalescedReductionExact` | internal/connectivityreduce/reduce.go:84-181 | ineffective reductions followed by one more give, output for output, what one reduction of the whole stretch gives, if and only if a wake of the last one is covered and no evicted refusal would show again |
| `ReductionResults.NothingEvictedNothingDiffers` | internal/connectivityreduce/reduce.go:513-547 | when the first snapshot had evicted no refusal, the second condition always holds |
| `ReductionResults.SameRefusalsExactly` | internal/connectivityreduce/reduce.go:383-414 | refusals evicted within a stretch make no difference to its last reduction if and only if none is left over, or that reduction evicts too and eight later ones hide each that is |
| `ReductionResults.LeftOverMeans` | internal/connectivityreduce/reduce.go:383-414 | what is left over, read off the events: refusals the parent does not show, made since and not retired by the last batch |
| `ReductionResults.RetainBounded` | internal/connectivityreduce/reduce.go:513-547 | no source keeps more than MAX_CONFLICT_RECORDS refusals |
| `ReductionResults.RetainKeepsNewest` | internal/connectivityreduce/reduce.go:526-537 | eviction is by age: whatever is later than a retained refusal is retained, unchanged |
| `ReductionResults.FoldStorable` | internal/connectivityreduce/snapshot.go:298-359 | folding bounded decisions keeps every bound a stored snapshot must satisfy |
| `ReductionResults.ConcludeSucceeds` | internal/connectivityreduce/reduce.go:131-181 | a conclusion from storable tables is refused only for a policy that cannot be read |
| `ReductionResults.ReadyMeansWhole` | internal/connectivityreduce/reduce.go:576-634 | the aggregate is ready exactly when every component is ready or not applicable and every stream is whole |
| `ReductionResults.SettledMeansCurrent` | internal/connectivityreduce/reduce.go:435-470 | a component is concluded ready or not applicable exactly on a current, fresh, undisputed observation that needs no restatement |
| `ReductionResults.AuthorizedExactly` | internal/connectivityreduce/reduce.go:552-572 | authorized exactly when the policy may authorize and no generation moved back; otherwise nothing is proposed |
| `ReductionResults.RollbackIsRefusedOnce` | internal/connectivityreduce/reduce.go:552-572 | a rolled-back policy is refused for one reduction and authorized by the next, because the refused policy becomes the prior one |
| `ComparisonResults.CompareAll` | internal/connectivityreduce/diff.go:72-99 | the loop over the compiled component order computes the whole diff |
| `ComparisonResults.CountStates` | internal/connectivityreduce/reduce.go:582-599 | each state's counter is the number of components in it |
| `ComparisonResults.RefusalsExact` | internal/connectivityreduce/reduce.go:383-414 | an identity is in the refusal table exactly while it has been reused since its component was last restated, with that count modulo 2^32 |
| `ComparisonResults.CorroborationNeverOverrules` | internal/connectivityreduce/reduce.go:363-381 | a second opinion is recorded with its agreement and no conclusion about the component depends on it |
| `ComparisonResults.ProposedExactly` | internal/connectivityreduce/proposal.go:140-193 | with authority every component gets exactly one proposal of its own domain's generation unless it is known to be what policy wants or an earlier policy established it; what is not known is only looked at again; only what is there, unwanted and never established is withdrawn; without authority nothing is proposed |
| `RuntimeObject.Runtime.constructor` | internal/connectivityruntime/runtime.go:190-217 | with nothing recovered the runtime starts empty, counting on from the numbers given |
| `RuntimeObject.Runtime.OfferFact` | internal/connectivityruntime/runtime.go:387-422 | a decision that is not a rejection is journalled in its own domain and kept for the next tick; if the append fails only the acceptor has moved |
| `RuntimeObject.Runtime.Publish` | internal/connectivityruntime/runtime.go:372-426 | a publication is its facts offered in order up to the first append that fails; the report counts every outcome and the watermark is the acceptor's |
| `RuntimeObject.Runtime.AbsorbOutput` | internal/connectivityruntime/runtime.go:462-492 | a reduction moves the model; only an effective one whose checkpoint is stored adds a link, bound to the one before, and settles a break |
| `RuntimeObject.Runtime.Tick` | internal/connectivityruntime/runtime.go:439-493 | a tick is one reduction of everything pending, stored or not, or an error that changes nothing |
| `RuntimeObject.Runtime.ResumeUnfolded` | internal/connectivityruntime/runtime.go:304-340 | retained records are re-accepted in the order given; a refused one stops the start |
| `RuntimeTheorems.FoldFollowsRun` | internal/connectivityreduce/reduce.go:313-324 | decisions always continue both orders, and adopting them rebuilds the acceptor's state exactly |
| `RuntimeTheorems.RunKeepsInv` | internal/connectivityruntime/runtime.go:372-493 | in every interleaving of publications and ticks the snapshot, watermarks, pending events and acceptor stay in step |
| `RuntimeResults.TwoGapFreeOrders` | internal/connectivityruntime/runtime.go:372-425 | over any interleaving of both domains and ticks: consecutive fold positions, consecutive host sequences |
| `Readiness.RunKeepsHonest` | internal/connectivityreduce/reduce.go:326-361 | every component's evidence is its owner's latest accepted statement, and every wake is honoured or still holds the component stale |
| `Readiness.ReadyIsGrounded` | internal/connectivityreduce/reduce.go:576-634 | a ready summary rests on what was said: each owner last said ready or not applicable, in the snapshot's boot and before its deadline; every hole, reuse or reboot of a source was followed by restatement of all it declares; and everything time-sensitive seen before a wake or a reboot of the host was restated since |
| `LivesTheorems.EveryLifeIsSound` | internal/connectivityruntime/runtime.go:140-493 | over every life - publications, ticks, journal and store appends that fail or report failure after they took effect, and any number of starts in any boot, from any checkpoint that ever became visible or from nothing - history, snapshot, evidence, lineage and journals stay in step |
| `LivesPlaces.EveryLifeIsTruthful` | internal/connectivityruntime/runtime.go:304-340 | in every life each decision of the running history and of every checkpoint's stands for the journal record at its place, and no reduction counts a record as folded that was not written yet |
| `LivesPlaces.PublishedIsNews` | internal/connectivityruntime/runtime.go:385-404 | so what is published next is at places no reduction so far had folded |
| `LivesPlaces.IntactLifeIsSingle` | internal/connectivityruntime/runtime.go:304-340 | in a life that lost no append no history, running or of a checkpoint, folds a record twice |
| `LivesWakes.NeverGuessedHealthy` | internal/connectivityreduce/reduce.go:576-634 | in every life a snapshot that says ready is grounded in what owners said, and every component any reduction of the life withdrew was restated since exactly when those withdrawn by reductions a start has forgotten are restated by records these had not folded |
| `LivesWakes.RestatedByNewsExactly` | internal/connectivityreduce/reduce.go:749-764 | in a life that lost no append the same holds record by record: each component any reduction withdrew is restated by a record it had not folded, exactly when this is so of the reductions a start has forgotten |
| `LivesWakes.StartKeepsWakesExactly` | internal/connectivityruntime/runtime.go:165-186 | a start from a ready checkpoint shows ready again and still answers for every wake and reboot of the life exactly when no reduction since the checkpoint withdrew anything and what earlier starts forgot is restated in it |
| `LivesWakes.FirstTickKeepsWakesExactly` | internal/connectivityruntime/runtime.go:304-340 | after the first reduction that follows, ready answers for them exactly when each component withdrawn since the checkpoint is restated by a re-accepted record the withdrawing reduction had not folded, and what earlier starts forgot is |
| `LivesWakes.WakeIsForgotten` | internal/connectivityruntime/runtime.go:467-485 | from any life that just sealed a ready snapshot: a reduction with a wake that cannot be stored and a start in the same boot show ready although nothing was restated since |
| `ForgottenRun.ForgottenWake` | internal/connectivityruntime/runtime.go:483-485 | that life written out: eight facts of seven owners, a stored tick, a tick with a wake that is not stored, a start |
| `LivesResults.TickSucceedsExactly` | internal/connectivityruntime/runtime.go:439-466 | in every life, the first tick after a start included, a tick succeeds exactly when its time context and policy are well formed and nothing was decided past a decision whose append failed |
| `LivesResults.StartContinues` | internal/connectivityruntime/runtime.go:165-186 | a start from any visible checkpoint is never refused and shows its snapshot; unless an append was lost a start, from nothing too, continues at the fold position reached before, whatever the sort made of the records |
| `LivesResults.PositionsComeAgainExactly` | internal/connectivityruntime/runtime.go:304-340 | after a start from a checkpoint a journal holds a record above the acceptor's fold position exactly when before it one was held further past the checkpoint than there are records past it |
| `LivesResults.IntactNeverIssuesAgain` | internal/connectivityruntime/runtime.go:372-425 | in a life that lost no append no journal ever holds a record above the acceptor's fold position, however often and from wherever it starts |
| `LivesResults.LostPositionComesAgain` | internal/connectivityruntime/runtime.go:396-404 | one append lost, one more fact and a start: a journal holds a record above the acceptor's fold position |
| `LivesResults.RestoredEqualsLive` | internal/connectivityruntime/runtime.go:269-289 | in every life the acceptor rebuilt from the snapshot validates, and is the running one exactly when nothing waits to be folded and no append was lost since the start; then it decides every later sequence of facts alike |
| `LivesResults.LostAppendIsNotRestored` | internal/connectivityruntime/runtime.go:396-404 | an append lost at any tick boundary leaves nothing waiting and an acceptor the snapshot does not restore |
| `LivesResults.LivesAreGapFree` | internal/connectivityruntime/runtime.go:372-425 | what the runtime decided and still holds, waiting or folded, has consecutive fold positions and host sequences up to its acceptor exactly when no append was lost since the start |
| `LivesResults.ReplayFidelity` | internal/connectivitycheckpoint/verify.go:269-321 | in every life, while the journals hold the link's range, verification reports a new link reproduced exactly when every change since its parent was stored and the link is covered; where every change was stored it reports the others diverged |
| `LivesResults.QuietLinksAreCovered` | internal/connectivitycheckpoint/verify.go:269-321 | without a wake or reboot and with no refusal evicted in the parent a link is always covered |
| `LivesResults.FastReadServesRestart` | internal/connectivityjournal/journal.go:323-385 | while no append is lost both journals of every life rise, so the backwards scan a start uses returns exactly the records past the checkpoint |
| `ReplayTheorems.ReAcceptsRun` | internal/connectivitycheckpoint/replay.go:75-105 | replaying what a run journalled repeats its decisions and its final acceptor state exactly |
| `ReplayResults.RunKeepsLineal` | internal/connectivityruntime/runtime.go:468-492 | the current snapshot is always joined to the last sealed one by reductions that changed nothing |
| `ReplayResults.RunFidelity` | internal/connectivitycheckpoint/verify.go:269-321 | for every run and every effective tick that continues its lineage, if the fold range is still held, the link is reported reproduced if it is covered and diverged if it is not |
| `JournalOrder.MergedJournalsAreTheRun` | internal/connectivitycheckpoint/verify.go:216-238 | both journals sorted by fold position give back every decision of the run, in order and without a hole |
| `JournalOrder.JournalsDeriveEveryLink` | internal/connectivitycheckpoint/verify.go:114-209 | however long the run goes on, its own merged journals give a sealed link the verdict it would have had at once |
| `JournalOrder.LinkArises` | internal/connectivityruntime/runtime.go:468-492 | every link after the first was sealed by some tick of the run, onto the link before it |
| `JournalOrder.EveryLinkIsJudged` | internal/connectivitycheckpoint/verify.go:150-207 | every link of every run was sealed by a tick of it, and is reproduced from the run's own journals if it was covered then and diverged if not |
| `VerifiedRun.EveryLinkIsReported` | internal/connectivitycheckpoint/verify.go:114-209 | verifying a run's own lineage, records and journals under one list of policies: the first link is the genesis, every other reproduced or diverged exactly as it was covered or not |
| `VerifiedRun.TotalsOfARun` | internal/connectivitycheckpoint/verify.go:114-209 | the totals: as many reproduced as were covered, as many diverged as were not, none unreplayable |
| `SleepingRun.WakeDefeatsReplay` | internal/connectivityreduce/reduce.go:749-764 | a concrete run whose wake falls after a restatement that changed nothing seals a link its journals do not derive |
| `EvictedRun.EvictionDefeatsReplay` | internal/connectivityreduce/reduce.go:383-414 | a concrete run in which nine reused identities are evicted, retired and reused again without a visible change seals a link its journals do not derive |
| `ReplayLoops.Span` | internal/connectivitycheckpoint/verify.go:242-266 | keeps exactly the records of the range, and reports whether they cover it without a hole |
| `ReplayLoops.ReAcceptRecords` | internal/connectivitycheckpoint/replay.go:75-105 | re-accepts record by record on a live acceptor, stopping at the first hole, refusal or disagreement |
| `ReplayLoops.ReproduceLink` | internal/connectivitycheckpoint/verify.go:269-321 | one link: span, restore, re-accept, reduce under its own recorded context, compare |
| `ReplayLoops.JudgeLink` | internal/connectivitycheckpoint/verify.go:164-182 | a link without a parent is genesis, or broken off if it abandoned a lineage; one whose parent is not held is unreplayable |
| `ReplayLoops.VerifyLineage` | internal/connectivitycheckpoint/verify.go:141-209 | entries that cannot be loaded first, then a verdict for every other entry, with matching totals |
| `Restart.RestartExactly` | internal/connectivityruntime/runtime.go:304-340 | for one sort of the retained records: it restores the same acceptor and the same pending events if and only if it reads the same facts as the fold order |
| `Restart.JournalsTellRestart` | internal/connectivityruntime/runtime.go:304-340 | for every sort at once, read off the journals: a restart is exact if and only if past the checkpoint no refused record follows a record of another fact |
| `Restart.RestartAfterAccepted` | internal/connectivityruntime/runtime.go:304-340 | so it does whenever every retained record past the checkpoint was accepted |
| `LateRun.LateArrivalChangesRestart` | internal/connectivityruntime/runtime.go:318-320 | a concrete run with a sealed checkpoint, a fact ahead of its turn and a late one: every sort of its journals restarts one host sequence above where it stopped |
| `Issued.FoldNeverReissued` | internal/connectivityruntime/runtime.go:243-267 | over any number of lives that each recovered nothing, no fold position is issued again |
| `Issued.HostReissuedExactly` | internal/connectivityruntime/runtime.go:252-264 | over any number of lives that each recovered nothing, no host sequence is issued again if and only if the highest is still the newest record of some journal |
| `Issued.RetryHidesIssue` | internal/connectivityruntime/runtime.go:252-264 | one fact offered twice leaves journals that report no host sequence issued |
| `StoreObject.CheckpointStore.WriteRecord` | internal/connectivitycheckpoint/store.go:97-157 | a record becomes visible unless its name is taken, and is never replaced |
| `StoreObject.CheckpointStore.WriteEntry` | internal/connectivitycheckpoint/store.go:270-283 | a lineage entry becomes visible unless its sequence is taken |
| `StoreObject.CheckpointStore.Evict` | internal/connectivitycheckpoint/store.go:358-381 | the oldest entries beyond the bound are dropped, one by one, and nothing else |
| `StoreObject.CheckpointStore.Append` | internal/connectivitycheckpoint/store.go:199-299 | record, entry, eviction, pointer, stopped at any boundary |
| `StoreTheorems.AppendIsCrashSafe` | internal/connectivitycheckpoint/store.go:199-299 | wherever an append stops, the store stays healthy and startup believes in the old record or the new one; success means the new one |
| `StoreTheorems.AppendReplacesNothing` | internal/connectivitycheckpoint/store.go:97-157 | nothing stored is replaced, and what is stored is the record given |
| `StoreTheorems.AppendSucceedsExactly` | internal/connectivitycheckpoint/store.go:199-299 | an uninterrupted append succeeds exactly for a valid record that continues or breaks the latest, under an unused name, with the index not ahead of the pointer |
| `StoreTheorems.StoppedBeforePointerIsAhead` | internal/connectivitycheckpoint/store.go:270-299 | stopping between entry and pointer leaves the index ahead |
| `StoreTheorems.IndexAheadStopsProgress` | internal/connectivitycheckpoint/store.go:270-283 | once the index is ahead every append fails, and what startup believes in never changes |
| `StoreTheorems.AncestorCannotContinue` | internal/connectivitycheckpoint/store.go:237-240 | a record that descends from anything but the pointer's record is refused |
| `ResumeModel.Prove` | internal/connectivitycheckpoint/resume.go:172-214 | a candidate is proved exactly when its record matches its entry and its ancestry within the bound links by digest, up to the eviction horizon |
| `ResumeModel.Search` | internal/connectivitycheckpoint/resume.go:116-169 | returns the newest provable candidate within the bound, every newer one having failed; unrecoverable means there is none |
| `ResumeModel.ResumeStore` | internal/connectivitycheckpoint/resume.go:64-112 | startup searches from the last entry named by the latest pointer, or the newest; genesis only when nothing was ever stored |
| `ResumeModel.HealthyResumes` | internal/connectivitycheckpoint/resume.go:64-112 | a healthy store resumes from exactly the record it believes in |
| `ResumeModel.ResumeIsOldOrNew` | internal/connectivitycheckpoint/store.go:199-299 | after any history of appends and crashes, one more append stopped anywhere leaves startup returning the checkpoint it returned before or the new one |
| `ResumeModel.ResumedWasOffered` | internal/connectivitycheckpoint/resume.go:64-169 | whatever records are lost or damaged since, startup resumes only a checkpoint that some append offered |
| `ResumeModel.RecoveredAncestorIsStuck` | internal/connectivityruntime/runtime.go:170-174 | after an ancestor was recovered past an intact pointer, nothing that continues it can be stored |
| `JournalModel.Records` | internal/connectivityjournal/journal.go:272-315 | the full read: everything sorted by fold position, or an error on an undecodable or clashing record |
| `JournalModel.TailAfter` | internal/connectivityjournal/journal.go:351-385 | the backwards scan with its final reversal |
| `JournalModel.RecordsAfter` | internal/connectivityjournal/journal.go:323-336 | the continuity flag is true exactly when the positions are watermark+1, +2 and so on |
| `JournalModel.Newest` | internal/connectivityjournal/journal.go:423-445 | the last of this journal's records |
| `JournalModel.TailExactly` | internal/connectivityjournal/journal.go:351-385 | the scan returns exactly the records above the watermark, in order, if and only if they are the end of the journal |
| `JournalModel.FastReadIsSimpleRead` | internal/connectivityjournal/journal.go:338-385 | while fold positions rise with places the fast read keeps what the simple read would keep |
| `JournalModel.RisingReads` | internal/connectivityjournal/journal.go:272-315 | a rising journal fails the full read only on a record that does not decode |
| `CloudStore.IngestStore.FillSequenceGap` | internal/cloudingest/postgres.go:441-566 | the gaps containing a sequence are read first and then resolved, shrunk or split |
| `CloudStore.IngestStore.AdvanceSequence` | internal/cloudingest/postgres.go:359-439 | the cursor moves, a hole opens ahead of it, and the arrival fills whatever gap it falls into |
| `CloudStore.IngestStore.StoreItem` | internal/cloudingest/postgres.go:277-357 | an event is stored once, recognised as a retry, or refused |
| `CloudStore.IngestStore.AcceptBatch` | internal/cloudingest/postgres.go:104-156 | a batch under unused request and batch identifiers is stored whole or rolled back whole |
| `CloudGapTheorems.AdvanceExact` | internal/cloudingest/postgres.go:359-566 | a new sequence in any order keeps the table exact and never hits a unique key, resolved rows included |
| `CloudGapTheorems.AcceptExactly` | internal/cloudingest/postgres.go:104-156 | a batch is accepted exactly when both its identifiers are new and its events contradict no stored one; otherwise nothing changes |
| `CloudGapTheorems.GapTableIsTheComplement` | internal/cloudingest/postgres.go:359-566 | for any batches, order and retries, open gaps are disjoint and exactly {1..highest} minus what was received |
| `CloudGapTheorems.OrderLeavesNoTrace` | internal/cloudingest/postgres.go:359-566 | two histories of batches that left a session with the same sequences received left it with the same cursor and the same gaps |
| `CloudGapTheorems.RetryChangesNothing` | internal/cloudingest/postgres.go:318-356 | resending stored events under a new request changes no event, cursor or gap |
| `MissingRanges.MergeMissingRanges` | internal/cloudingest/postgres.go:619-634 | the loop merges each range into the last one or appends it, with 64-bit wraparound |
| `MissingRanges.MergeKeepsUnion` | internal/cloudingest/postgres.go:619-634 | merging keeps the union |
| `MissingRanges.MergeSeparatesExactly` | internal/cloudingest/postgres.go:625-632 | the result is ascending and non-adjacent if and only if no range ending at 2^64-1 is followed by another |
| `MissingRanges.BoundedMissingRanges` | internal/cloudingest/postgres.go:636-655 | terminates with the first MAX_RANGES pieces of any list of ranges, overlapping and empty ones included |
| `MissingRanges.BoundedCovers` | internal/cloudingest/postgres.go:636-655 | pieces are at most MAX_WIDTH wide; of disjoint ranges they cover an initial part, and all exactly when that many pieces are enough |
| `MissingRanges.ReportMissing` | internal/cloudingest/postgres.go:581-617 | the first MAX_RANGES rows are checked, merged and cut, or the report fails on a malformed one |
| `MissingRanges.ReportIsInitialPart` | internal/cloudingest/postgres.go:581-617 | what is reported is bounded and an initial part of what the whole table is missing |
| `MissingRanges.ReportIsAllExactly` | internal/cloudingest/postgres.go:583-590 | it is all of it if and only if no row past the limit reaches beyond the first eight, and the first eight merged fit into eight pieces |
| `SilentRun.SilentNinth` | internal/cloudingest/postgres.go:583-590 | one accepted batch of two sessions leaves nine rows whose first eight merge into one: 1 to 100 is reported, and 200 is missing and not reported although seven ranges are free |
| `Acknowledgement.ReportIsWhatIsMissing` | internal/cloudingest/postgres.go:568-617 | after any batches, over all sessions of the node, the report never fails and names exactly the missing sequences below where it stops |
| `ActionPlan.BuildRollback` | internal/actionplan/execution.go:152-205 | the backwards scan: operations, skips with reasons, or an unusable observation |
| `ActionPlan.UnusableExactly` | internal/actionplan/execution.go:152-205 | the scan gives up exactly when a step of the owned run, or the obstacle that ends it, was misreported; nothing older can spoil the plan |
| `ActionPlan.CutIsMaximal` | internal/actionplan/execution.go:279-301 | operations are the longest still-owned run at the end of what was applied |
| `ActionPlan.RollbackPartitions` | internal/actionplan/execution.go:152-205 | operations and skips together are exactly the applied steps, newest first; nothing is skipped exactly when all are still owned |
| `ActionRunner.Runner.TakeStep` | internal/actionplan/runner.go:154-186 | a step is taken only when authorized and unowned; afterwards it is known to be in place, known not to be, or uncertain |
| `ActionRunner.Runner.ObserveApplied` | internal/actionplan/runner.go:252-262 | every applied step is looked at before any is undone |
| `ActionRunner.Runner.UndoSteps` | internal/actionplan/runner.go:270-285 | operations are undone newest first, each verified before and after |
| `ActionRunner.Runner.RollBack` | internal/actionplan/runner.go:248-286 | a rollback that is not unsafe undid every applied step and skipped none |
| `ActionRunner.Runner.Fail` | internal/actionplan/runner.go:216-241 | a failed run is undone completely without asking for anything, or asks for safe mode and an incident with nothing touched but the steps taken and one more |
| `ActionRunner.Runner.Resolve` | internal/actionplan/runner.go:188-201 | the whole plan in place is committed, or undone as a failed run is |
| `ActionRunner.Runner.Run` | internal/actionplan/runner.go:118-201 | committed with every step in place; or failed with every applied step verified restored, none skipped and every other cell untouched; or failed after safe mode and an incident were requested, each touched cell as before, applied or restored; only with the guard's leave, and a second run does nothing |
| `LeaseModel.OneAttemptPerLease` | internal/actionlease/guard.go:110-210 | over any interleaving of guards with writes that may fail before or after taking effect: at most one claim and one outcome, one attempt for all successful checks and commits, and nothing begun after an outcome succeeds |
| `LeaseModel.OneResolver` | internal/actionlease/guard.go:256-266 | at most one commit or abort ever reports success |
| `LeaseModel.CommitOrAbort` | internal/actionlease/guard.go:116-147 | a successful commit excludes a successful abort |
| `LeasedRun.OneAttemptMutates` | internal/actionplan/runner.go:154-186 | runners guarded by one lease, whose leave every run keeps tied to what the lease let through: however the guard calls interleave and fail, only one attempt ever applies a step |
| `LeaseGuard.LeaseStore.PersistClaim` | internal/policystore/action_leases.go:93-150 | a claim is write-once; the same claim again is accepted until the lease is resolved; a write may fail before or after taking effect |
| `LeaseGuard.LeaseStore.PersistOutcome` | internal/policystore/action_leases.go:214-275 | an outcome is write-once, and committing needs a claim; a write may fail before or after taking effect |
| `LeaseGuard.Guard.BeginExecution` | internal/actionlease/guard.go:95-106 | an execution begins once per guard |
| `LeaseGuard.Guard.EnsureClaim` | internal/actionlease/guard.go:180-210 | the guard always presents the claim it made first, and tells a lost lease from a failed write |
| `LeaseGuard.Guard.BeforeStep` | internal/actionlease/guard.go:149-178 | allowed exactly with the lease unresolved, covering, and claimed by this attempt in a write that worked; a lease that no longer covers is resolved first |
| `LeaseGuard.Guard.Commit` | internal/actionlease/guard.go:116-127 | succeeds exactly when the repeated check and both writes do; a lease is consumed only for the attempt that holds it |
| `LeaseGuard.Guard.Abort` | internal/actionlease/guard.go:130-147 | resolves an unresolved lease and no other |
| `Recovery.ComputeBackoff` | internal/control/machine.go:235-247 | the doubling loop |
| `RecoveryObject.Machine.Step` | internal/control/machine.go:103-224 | one event changes the snapshot field by field as specified, errors changing nothing |
| `RecoveryObject.Machine.ResetHealthy` | internal/control/machine.go:226-233 | a reset clears failures, attempts and deadlines |
| `RecoveryObject.Machine.ProbeHasSucceeded` | internal/control/machine.go:131-146 | success per state; none in suspended or safe mode |
| `RecoveryObject.Machine.ProbeHasFailed` | internal/control/machine.go:148-174 | failure per state; an exhausted budget enters safe mode |
| `RecoveryObject.Machine.RecoveryBegins` | internal/control/machine.go:176-190 | approved exactly when degraded, due and within budget |
| `RecoveryTheorems.BackoffBounds` | internal/control/machine.go:235-247 | min(max, base*2^(n-1)) <= backoff(n) <= max |
| `RecoveryTheorems.BackoffExactly` | internal/control/machine.go:235-247 | equality holds except where doubling would land one short of the maximum |
| `RecoveryTheorems.BudgetAndSpacing` | internal/control/machine.go:103-224 | on every run from a fresh snapshot, between resets at most budget approvals, and each consecutive pair at least its backoff apart unless the tick of the first plus that backoff leaves 64 bits |
| `RecoveryTheorems.SpacingExactly` | internal/control/machine.go:176-190 | while another recovery is within budget, every continuation keeps the backoff of the newest one if and only if its own addition stays within 64 bits |
| `RecoveryTheorems.CooldownServedExactly` | internal/control/machine.go:192-199 | on every run, safe mode's cooldown is served whatever is called next if and only if its end stays within 64 bits; otherwise a call at the same tick ends it |
| `RecoveryTheorems.CooldownLost` | internal/control/machine.go:192-199 | for every policy of budget one and every tick at which the cooldown wraps: three calls at that tick enter safe mode and leave it |
| `RecoveryTheorems.WrappedBackoffIsNoBackoff` | internal/control/machine.go:183-188 | on every run, where the addition of the newest backoff wraps, the next recovery is approved with no time passing |
| `RecoveryTheorems.BackoffLost` | internal/control/machine.go:183-188 | for every policy and tick at which the first backoff wraps: three calls at that tick approve two recoveries |
| `IncidentObject.IncidentStore.LoadLatest` | internal/cloudincident/postgres.go:471-538 | the newest opening of a key |
| `IncidentObject.IncidentStore.Link` | internal/cloudincident/postgres.go:540-574 | each item linked once, a different role refused, and whether anything changed |
| `IncidentObject.IncidentStore.InsertTransition` | internal/cloudincident/postgres.go:576-634 | a transition and its alert are written together or not at all |
| `IncidentObject.IncidentStore.Open` | internal/cloudincident/postgres.go:387-456 | an incident opens at generation one with its transition, alert and evidence |
| `IncidentObject.IncidentStore.Update` | internal/cloudincident/postgres.go:244-322 | a repeated observation only refreshes; a material change is a transition, reopening on escalation |
| `IncidentObject.IncidentStore.Clear` | internal/cloudincident/postgres.go:324-385 | a newer clearing resolves |
| `IncidentObject.IncidentStore.Reconcile` | internal/cloudincident/postgres.go:59-103 | one signal, or a rollback |
| `IncidentObject.IncidentStore.Acknowledge` | internal/cloudincident/postgres.go:116-212 | one acknowledgement, or a rollback |
| `IncidentTheorems.HandleKeepsSound` | internal/cloudincident/postgres.go:59-212 | a call fails exactly when malformed, contradicting identity or evidence, or acknowledging nothing; then nothing changes, and no unique key is ever hit |
| `IncidentTheorems.EveryHistoryIsSound` | internal/cloudincident/postgres.go:59-456 | every serialized history leaves a sound log |
| `IncidentTheorems.IncidentLogIntegrity` | internal/cloudincident/postgres.go:387-634 | per key at most one unresolved incident, the latest opened; transitions numbered from one, chained, ending at the resolution; one alert per transition, the newest saying what the row says, severity and required action included |
| `IncidentTheorems.LatestIsLast` | internal/cloudincident/postgres.go:492-498 | the newest opening is the last incident created for its key |
| `IncidentTheorems.OnlyEscalationReopens` | internal/cloudincident/postgres.go:265-283 | an acknowledged incident reopens exactly on a newer escalating signal of its own identity |

## Left out

- Canonical JSON, SHA-256 and Ed25519 encodings: only equality of digests is used.
- Payload field checks: a payload carries its component, the aspects policy compares, and everything else as one value.
- 64-bit wraparound of fold positions, host sequences and generations: these count without bound. Conflict counts, refusal counts, consecutive failures, recovery ticks and reported ranges do wrap.
- Which visible checkpoint the store returns to a start of a life, and whether it then takes more, are left open there: a life may resume any of them.
- LivesResults.ReplayFidelity: gives verification the component policies of the tick that sealed the link; with another list of policies the question is a different one.
- JournalOrder.EveryLinkIsJudged: is about runs without a start in between, as are VerifiedRun.EveryLinkIsReported and VerifiedRun.TotalsOfARun; a start that re-accepts in another order leaves journals that no longer hold the decisions.
- VerifiedRun.EveryLinkIsReported: asks that no two checkpoints of the run share their random identifier.
- ReplayLoops.VerifyLineage: a journal that cannot be read at all is an empty list of facts; the error text is not modelled.
- Restart.RestartExactly: models the sort by host sequence as any sort, since equal keys may come out in any order.
- StoreTheorems.AppendIsCrashSafe: an eviction interrupted by a crash has dropped a prefix of what it meant to drop; removals that are visible but lost again are not modelled.
- MissingRanges.MergeSeparatesExactly: is about any ordered list of ranges; rows of the table never reach the top of the 64-bit space.
- Journal mirroring, format supersession and the latest-baselines query.
- Validation of identifiers, correlation keys and categories by pattern, and foreign keys from evidence to events.
- The active policy pointer checked when a lease claim or commit is stored: a mismatch is one of the ways a write fails before it takes effect.
- Contexts, timeouts, locks and fsync calls: an operation is atomic, and a write stops before or after it is visible.
- Collectors, mappers, views, watch and soak harnesses, dashboards, authentication, delivery, command-line tools and infrastructure: plumbing with nothing hard behind it.
