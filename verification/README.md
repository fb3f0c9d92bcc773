# Proofs about the aerokernel coordinator core

This project models the deterministic core of `aerokernel`, a conservative discrete-event coordinator that commits
waves of engine proposals against a bitemporal, single-writer store, and proves what its fast paths, its shared
storage and its run loop promise. Instants are lexicographic pairs (nanosecond, microstep), validity intervals are
half-open, and a cut names a journal prefix.

`dafny verify dfyconfig.toml` checks everything. One module per file:

- **Time and tables**: `Time`, `Ids`, `Text` (code-point order of identities), `Listing` (finite sets in order),
  `EventTable`.
- **Temporal indexes and sweeps**: `VersionSweep` and `FactVersions` (one key's versions: the monotone and the
  compiled index, shared columns, bounded cache), `RelationGraph` and `RelationSweep` (cardinalities at every instant
  against the event sweep).
- **Copy-on-write containers**: `Storage` (`AppendList`, `Overlay`), `Arrivals` (pending work as values), `Queues`
  (`TimerQueue`, `WorkQueue`, each over an `Overlay` and shared heaps).
- **The store**: `Timers`, `RelationTables`, `Ledger` (queries at a cut, and what later states may add), `Soundness`
  (the invariant of committed states and its consequences), `Transactions`, `Building` and `Candidates` (the
  candidate, its operations, integrity and commit), `Reading` (what a read answers) and `Outcomes` (what a committed
  operation comes to).
- **Commands**: `ActionHistory` (the receipt automaton), `Actions` (the class that drives it).
- **Bind-time graphs**: `Graphs`, `Cycles`, `Ingress`, `Sampling`, `Cohorts`.
- **The run**: `NativeGrid`, `RunState` (state and the effect of each record), `Replay` (the offline replayer's own
  guards), `Batches` (what a batch adds and leaves), `Calls` (whom a wave calls and what it grants), `Fates` (what
  becomes of each queued item, reservation and deadline at a record), `Admission` (when a request takes effect),
  `Delivery` (everything is delivered once, along whole journals), `Readback` (the state read off the journal),
  `HostCalls` (what a host may do between steps), `Settlement` (what waves leave, who is ready), `Planning` (the next
  step of settlement), `Grants` (the next boundary, when the loop's own calls are granted, what justifies a fault),
  `LiveJournal` (what the live loop may write, and exactly when it replays), `Writing` and `Coordinator` (the live
  loop), `PairRuns` (a run that finds nobody ready, and one the replayer rejects), `NativeJournal` and
  `SampledJournal` (native time and frames along whole journals).
- **Frames**: `JournalCodec`.

Classes and loops stand where the source has them: `Columns`, `FactVersions`, `AppendList`, `Overlay`, `TimerQueue`,
`WorkQueue`, `Actions`, `Candidate` and `Coordinator` keep the source's mutable fields, and `Coordinator.store` is
replaced whole as `Kernel._store` is. A `KernelError` becomes a refusal value. Engines, horizons and hosts are
arbitrary: an engine is any function from journal index to proposed effects, a host is any finite script of calls made
at the points where the coordinator releases its lock.

Main results:

- The relation sweep accepts a graph exactly when every instant is admissible, and re-checking only affected relations
  accepts a candidate exactly when every relation of the merged state is sound (`RelationSweep.ValidateGraph`,
  `Candidates.Candidate.Commit`).
- Indexed fact lookup is the naive scan, and no interleaving of forks and appends changes an older holder
  (`FactVersions.FactVersions.Select`, `FactVersions.FactVersions.WithVersion`).
- A read answers with the last version known to the cut that covers the instant, if the generation is alive then; on
  the open left side of a boundary it gives the limit of the reads before it; and a committed write is what its field
  reads (`Reading.FieldExactly`, `Reading.FieldBeforeIsLimit`, `Outcomes.WrittenReads`). Along any run of commits,
  what a reader learns at an issued cut never changes, and every future change of what it would read has its own timer
  (`Candidates.KnowledgeNeverChanges`, `Soundness.NoSilentExpiry`).
- Along any accepted journal, every queued item is taken by exactly one wave that calls its recipient, every
  reservation published by exactly one boundary, and both before the time they are due is sealed. So a live command
  that is not rejected is published at the earliest time it may be, and its target called with it exactly once
  (`Delivery.ExactlyOnce`, `Delivery.TakenBySeal`, `Delivery.PublishedBySeal`, `Delivery.CommandDelivered`).
- The replayer takes a wave exactly when the state is in for it: who is called follows from the due work, what every
  stream is closed to, the cohorts and the sample levels alone (`Calls.WaveExactly`). After any accepted journal the
  seal, the limit, the watermarks and where every partition stands are what the last records on them say
  (`Readback.JournalReads`).
- A live journal replays, to the live store, if and only if every seal in it was written in calm: no cancellation
  granted between the last boundary control before the seal and the seal, which can only happen while the time of that
  seal is being settled. Calm or not, every seal is written with nothing due, everyone at the boundary and every
  stream closed, and moves the seal forward; after a disturbed seal the run calls, consumes and seals nothing more
  (`LiveJournal.LiveReplays`, `LiveJournal.LiveSealSettled`, `LiveJournal.DisturbedSealIsLast`, kept by every method
  up to `Coordinator.Coordinator.RunUntil`).
- Settlement has one next step, at the earliest microstep it may have (`Planning.PlanStep`, `Planning.PlanUnique`). A
  run ends at its limit, or waiting for a stream after the host's last call, or with a fault for a reason found in the
  store. Sealing settlement never refuses its own calls: it fails for lack of microsteps, for a chosen partition that
  cannot react, for a refused batch, or for a stalled horizon (`Coordinator.Coordinator.Work`, `Grants.OwnGranted`,
  `LiveJournal.FaultExplained`).
- No native grid point is skipped along an accepted journal, and the frames of a context increase strictly
  (`NativeJournal.JournalSkipsNoGridPoint`, `SampledJournal.FramesIncrease`).
- The two-pass search finds exactly the strongly connected components, in topological order (`Cycles.CheckCycles`).

Places where the code does less than its documentation or an obvious reading suggests, each with the exact condition
or a concrete state:

- A host cancellation is reserved one nanosecond after the seal without regard to the cut (`coordinator.py:1078`). It
  leaves something late behind exactly when it is granted while time beyond the seal is being settled
  (`Replay.LateCancel`); unless a boundary control consumes it first, the replayer rejects the next seal
  (`LiveJournal.LiveReplays`; such a run, with a cancellation at the poll after a reaction, is
  `PairRuns.DisturbedReached`), and the live run itself then finds no physical progress (`LiveJournal.LeftBehind`,
  `Coordinator.Coordinator.RunBoundary`).
- A kernel bound with no partitions never advances its cut, so the replayer rejects the journal of its run to any
  limit beyond zero at the seal of that limit (`Replay.EmptyBindingSeal`).
- Eligibility drops a requested microstep when the requested physical time is in the future and neither lag nor grid
  moves it (`RunState.ReachesRequest`, `RunState.RequestedMicrostepLost`).
- While only part of a run settles, a stream closed by a host can make a partition count as safe before it stands at
  the boundary; its work is then due but nobody is ready, and the run fails (`PairRuns.NobodyReadyReached`).
  Settlement finds somebody ready for whatever is queued if and only if every safe partition that takes ordinary work
  stands at the boundary (`Settlement.ReadyExactly`).
- After a yielded partial wave, a run to a limit before the time that wave stands at asks for an advance beyond its
  own limit and refuses it; it overruns its limit in no other case (`Grants.AimBeyondLimit`, `Grants.OwnGranted`).
- A queue that is written after it was forked can reach the fork: through an overlay exactly if the fork was layered
  on it, and through a recipient's heap exactly if it owned that heap, since `fork` leaves its `owned` as it is
  (`queues.py:25-37`, `Queues.WorkQueue.WriteBesideFork`); a timer queue gives its heap up when forked, so only its
  overlay counts (`Queues.TimerQueue.WriteBesideFork`). A fork never writes what an older queue reads
  (`Queues.WorkQueue.Fork`, `Queues.WorkQueue.AppendApart`).

## Model

| member | source | states |
|---|---|---|
| Time.LeastInstant | aerokernel/aerokernel/time.py:19-28 | instants are totally ordered, so any nonempty finite set of event points has a least one to visit first |
| Time.Bisect | aerokernel/aerokernel/state.py:160-175 | bisection separates what lies before an instant (or up to it) from the rest, within the given prefix |
| VersionSweep.CollectEvents | aerokernel/aerokernel/state.py:178-183 | every start and end of the first versions is recorded once, at its own instant |
| VersionSweep.ApplyPoint | aerokernel/aerokernel/state.py:188-197 | after one point the active set is exactly the covering versions, and the lazily purged heap's top is the greatest of them, or none |
| VersionSweep.Steady | aerokernel/aerokernel/state.py:188-200 | between event points the covering versions do not change, on either side of a point |
| VersionSweep.CompressAnswers | aerokernel/aerokernel/state.py:198-200 | dropping repeated winners keeps every lookup's answer |
| VersionSweep.Compile | aerokernel/aerokernel/state.py:178-201 | the compiled sweep answers every lookup, left or right, as the scan for the greatest covering version does |
| FactVersions.VersionsAppend | aerokernel/aerokernel/state.py:126-156 | a version written across the columns and read back is the same version, after the earlier ones |
| FactVersions.MonotoneAppend | aerokernel/aerokernel/state.py:150-154 | the flag update decides exactly whether the longer prefix is still open-ended with nondecreasing starts |
| FactVersions.Columns.LatestStart | aerokernel/aerokernel/state.py:173-175 | in monotone mode the last known start is the greatest covering version |
| FactVersions.Columns.CompiledWinner | aerokernel/aerokernel/state.py:176-207 | in general mode the cached or freshly compiled sweep gives the greatest covering version and the cache stays current |
| FactVersions.Columns.Remember | aerokernel/aerokernel/state.py:202-204 | a sweep is filed last; with four filed exactly the oldest goes, and every other stays as it was |
| FactVersions.FactVersions.KnownCount | aerokernel/aerokernel/state.py:160-162 | the versions counted are exactly those recorded by the index |
| FactVersions.FactVersions.WithVersion | aerokernel/aerokernel/state.py:113-158 | the new holder reads one version more; every holder issued before, on these columns or others, reads what it read |
| FactVersions.FactVersions.Select | aerokernel/aerokernel/state.py:164-207 | the lookup is the greatest known version covering the instant or its open left side, and no holder's contents change |
| FactVersions.GreatestOfPrefix | aerokernel/aerokernel/state.py:172-175 | answering over the known prefix answers over everything the holder reads |
| RelationSweep.CollectEvents | aerokernel/aerokernel/relation_sweep.py:20-43 | events are collected exactly when rows are declared and pair identities are unique, and record every boundary once |
| RelationSweep.Close | aerokernel/aerokernel/relation_sweep.py:49-72 | closing rows at a point removes present pairs and scopes only, so the removals never fail |
| RelationSweep.Open | aerokernel/aerokernel/relation_sweep.py:49-72 | opening rows represents the larger live set, or reports an overlap that is really there |
| RelationSweep.CheckAffected | aerokernel/aerokernel/relation_sweep.py:73-91 | looking at affected scopes only decides maxima and activated minima for them |
| RelationSweep.AdmissibleFromState | aerokernel/aerokernel/relation_sweep.py:44-91 | the running pairs, counts and active scopes say whether the live rows are admissible |
| RelationSweep.SweepPoint | aerokernel/aerokernel/relation_sweep.py:47-91 | one event point is accepted exactly when its instant is admissible, given an admissible left side |
| RelationSweep.SteadyRows | aerokernel/aerokernel/relation_sweep.py:47-48 | no row begins or ends strictly between event points |
| RelationSweep.ValidateGraph | aerokernel/aerokernel/relation_sweep.py:14-91 | accepted if and only if rows are declared, pair identities are unique and every instant is admissible; a rejection names the first faulty instant and a clause violated there |
| RelationGraph.AdmissibleExactly | aerokernel/aerokernel/relation_sweep.py:44-91 | rows are admissible at an instant exactly when no pair is joined twice, no endpoint obliged twice in one direction, every source is within its bounds on targets and every target within its bounds on sources, minima only where an obligation asks for them |
| Storage.AppendList.Append | aerokernel/aerokernel/storage.py:105-110 | the list gains one value; every other list, sharing its buffer or not, keeps its contents |
| Storage.AppendList.Fork | aerokernel/aerokernel/storage.py:101-103 | a fork reads the same prefix |
| Storage.AppendList.Get | aerokernel/aerokernel/storage.py:118-125 | indexing counts from either end of this prefix and refuses everything outside it |
| Storage.Overlay.Fork | aerokernel/aerokernel/storage.py:36-40 | a fork maps what its parent maps, across the sixteen-layer flattening |
| Storage.Overlay.Over | aerokernel/aerokernel/storage.py:27-34 | layering over a base keeps its map, copied flat at depth sixteen |
| Storage.Overlay.Lookup | aerokernel/aerokernel/storage.py:42-53 | the walk through layers finds what one flat map holds |
| Storage.Overlay.Set | aerokernel/aerokernel/storage.py:71-73 | a write updates this map and no overlay that is not layered on it |
| Storage.Overlay.WriteBesideFork | aerokernel/aerokernel/storage.py:36-40 | a parent's write after a fork shows through the fork exactly when the parent held something of its own and the fork was not flattened |
| Storage.Overlay.Delete | aerokernel/aerokernel/storage.py:75-78 | a deletion removes exactly one key, and says whether it was there |
| Storage.Overlay.Keys | aerokernel/aerokernel/storage.py:80-84 | iteration visits each key of the map once |
| Queues.TimerQueue.Fork | aerokernel/aerokernel/queues.py:88-95 | a fork has the same active deadlines, neither side may write the shared heap in place, and the fork writes nothing that an older queue reads |
| Queues.TimerQueue.Add | aerokernel/aerokernel/queues.py:102-106 | one deadline becomes active; a shared heap is copied before it is written |
| Queues.TimerQueue.AddApart | aerokernel/aerokernel/queues.py:97-106 | a queue that reads neither this one's overlay layer nor a heap it writes in place keeps its deadlines, and stays so |
| Queues.TimerQueue.WriteBesideFork | aerokernel/aerokernel/queues.py:88-106 | a parent's write right after a fork leaves the fork intact if and only if the fork does not read through the parent's overlay |
| Queues.TimerQueue.Cancel | aerokernel/aerokernel/queues.py:108-110 | one active deadline disappears, its heap entry going stale |
| Queues.TimerQueue.Earliest | aerokernel/aerokernel/queues.py:112-117 | the least active deadline, however many stale entries precede it |
| Queues.TimerQueue.Take | aerokernel/aerokernel/queues.py:119-127 | exactly the due active deadlines, each once, by deadline and then by identity; the rest stay |
| Queues.WorkQueue.Fork | aerokernel/aerokernel/queues.py:25-31 | a fork holds the same pending work, owns no heap, and writes nothing that an older queue reads |
| Queues.WorkQueue.Append | aerokernel/aerokernel/queues.py:33-44 | one arrival under the next number, listed in its recipient's heap, which is copied first unless this queue owns it |
| Queues.WorkQueue.AppendApart | aerokernel/aerokernel/queues.py:33-44 | a queue that reads neither this one's overlay layers nor a heap it owns keeps its pending work, and stays so |
| Queues.WorkQueue.Ready | aerokernel/aerokernel/queues.py:46-48 | recipients with some work due |
| Queues.WorkQueue.Earliest | aerokernel/aerokernel/queues.py:50-52 | the least eligibility over all pending work |
| Queues.WorkQueue.Take | aerokernel/aerokernel/queues.py:54-61 | exactly the recipient's due items, each once, in arrival order; what is dispatched is never pending again and nothing is lost |
| Queues.WorkQueue.TakeApart | aerokernel/aerokernel/queues.py:54-61 | nor does such a queue notice what is dispatched here |
| Queues.WorkQueue.WriteBesideFork | aerokernel/aerokernel/queues.py:25-44 | a parent's append right after a fork leaves the fork intact if and only if the fork reads through neither of the parent's overlays and the parent did not own the recipient's heap; what each overlay shows the fork otherwise |
| Text.Ordered | aerokernel/aerokernel/relations.py:586-594 | a set of identities in strictly ascending code-point order, each once |
| Timers.Arm | aerokernel/aerokernel/transactions.py:734-755 | exactly the boundaries still to come become active timers |
| Timers.Disarm | aerokernel/aerokernel/relations.py:205-228 | exactly the replaced version's boundaries still to come stop being active |
| Timers.Fire | aerokernel/aerokernel/control.py:210-221 | exactly the active timers due leave the active set, marked fired |
| RelationTables.Add | aerokernel/aerokernel/relations.py:315-322 | a new identity is listed under its relation and each endpoint, and the indexes stay exact |
| RelationTables.RevisedStaysIndexed | aerokernel/aerokernel/relations.py:354-361 | appending a version of a known identity keeps both indexes exact |
| RelationTables.MergedUnchanged | aerokernel/aerokernel/relations.py:586-594 | a relation with no touched identity keeps its merged graph |
| Ledger.SelectIsNewest | aerokernel/aerokernel/state.py:391-405 | the index a field read uses is the one the indexed lookup returns |
| Reading.AliveExactly | aerokernel/aerokernel/state.py:372-389 | a generation is alive exactly from its creation to the removal the cut knows of; a forged cut or a generation not created by it is refused, each for its own reason |
| Reading.FieldExactly | aerokernel/aerokernel/state.py:391-405 | a field reads as a fact exactly when the generation is alive and that fact is the last known version covering the instant; what cannot be read is refused, each for its own reason |
| Reading.AbsentExactly | aerokernel/aerokernel/state.py:396-405 | it reads as absent exactly when the generation is not alive, or the version is none or a retraction |
| Reading.FieldBeforeExactly | aerokernel/aerokernel/state.py:407-422 | the same on the open left side of a boundary |
| Reading.FieldBeforeIsLimit | aerokernel/aerokernel/state.py:407-422 | a left-side read gives what all reads give from some instant before the boundary up to it |
| Reading.LeftLimit | aerokernel/aerokernel/state.py:164-175 | an interval covers the open left side of a boundary exactly when it contains every instant from some earlier one up to it |
| Reading.HistoryExactly | aerokernel/aerokernel/state.py:424-442 | a history holds exactly the known versions valid at some instant asked for at which the generation was alive, each once, in recording order |
| Outcomes.LatestExactly | aerokernel/aerokernel/relations.py:174-187 | a prefix sees the last version of a row recorded in it, or none when all came later |
| Ledger.CutAt | aerokernel/aerokernel/state.py:444-453 | the newest prefix no later than a physical time and a cap |
| Ledger.CutStable | aerokernel/aerokernel/state.py:444-453 | a prefix found by time is found again in every later state |
| Ledger.ExtendsTransitive | aerokernel/aerokernel/state.py:316-365 | being a later state of the same run composes |
| Ledger.KnowledgeStable | aerokernel/aerokernel/state.py:367-422 | liveness, field and left-side field reads at an issued cut answer the same in every later state |
| Ledger.HistoryStable | aerokernel/aerokernel/state.py:424-442 | history reads at an issued cut answer the same in every later state |
| Ledger.RelationsStable | aerokernel/aerokernel/relations.py:174-187 | the edge and obligation versions visible at an issued cut stay the same |
| Soundness.OneGenerationAlive | aerokernel/aerokernel/transactions.py:421-450 | no cut sees two generations of one identity alive at one instant |
| Soundness.NoSilentExpiry | aerokernel/aerokernel/transactions.py:734-755 | if a field reads differently at two instants after the last cut, one of its versions has a boundary between them whose own timer is active |
| Soundness.NoSilentRelationChange | aerokernel/aerokernel/relations.py:205-239 | if the latest version of an edge or obligation is in force at one of two instants after the last cut and not at the other, that version has a boundary between them whose own timer is active |
| Transactions.CreatedSound | aerokernel/aerokernel/transactions.py:421-452 | creating the next generation of a free identity keeps generations successive and live identities exact |
| Transactions.RemovedSound | aerokernel/aerokernel/transactions.py:646-650 | removing a generation created earlier keeps them so |
| Transactions.DeadlinesFollow | aerokernel/aerokernel/relations.py:353-365 | replacing a version's deadlines by its successor's leaves exactly the latest versions' future boundaries active |
| Transactions.UncheckedStaysSound | aerokernel/aerokernel/relations.py:569-585 | a relation neither affected nor incident to a removal is still sound without a new check |
| Building.CreateStep | aerokernel/aerokernel/transactions.py:421-455 | a creation keeps the candidate's invariant |
| Building.RemoveStep | aerokernel/aerokernel/transactions.py:626-659 | a removal keeps the candidate's invariant |
| Building.FactStep | aerokernel/aerokernel/transactions.py:726-755 | a fact version with its armed boundaries keeps the candidate's invariant |
| Building.TimersStep | aerokernel/aerokernel/control.py:210-221 | timer changes that concern no boundary to come keep the candidate's invariant |
| Building.RelationStep | aerokernel/aerokernel/relations.py:242-482 | a relation version with its deadlines keeps the candidate's invariant |
| Building.CommitStep | aerokernel/aerokernel/scheduling.py:375-391 | committing a candidate whose relations are sound gives a sound store that extends the one before |
| Candidates.Candidate.constructor | aerokernel/aerokernel/transactions.py:109-125 | a candidate starts as the committed store, one record later |
| Candidates.Candidate.Create | aerokernel/aerokernel/transactions.py:421-452 | accepted exactly, up to the checks left out, for a free identity's next generation that this wave does not remove; the new state |
| Candidates.Candidate.Remove | aerokernel/aerokernel/transactions.py:626-650 | accepted exactly, up to the checks left out, for a live generation not created in this wave; the new state |
| Candidates.Candidate.Propose | aerokernel/aerokernel/transactions.py:674-755 | accepted exactly, up to the checks left out, from the pinned writer, once a wave, for a live generation that is not being removed; the last version then is the fact written, with its value, stamp, mapped time and interval, or the retraction with its reason, at this instant by this partition; nothing else changes but the timers of its boundaries |
| Candidates.Candidate.ScheduleTimer | aerokernel/aerokernel/transactions.py:870-885 | accepted exactly for an identity never used and a strictly later due instant |
| Candidates.Candidate.CancelTimer | aerokernel/aerokernel/transactions.py:886-892 | accepted exactly for an active timer |
| Candidates.Candidate.FireTimers | aerokernel/aerokernel/control.py:210-221 | fires exactly the active deadlines due, keeping every boundary to come |
| Candidates.Candidate.Assert | aerokernel/aerokernel/relations.py:275-322 | accepted exactly, up to the checks left out, for an unused identity of a registered relation with known endpoints, obligations declared and not backdated; the new first version |
| Candidates.Candidate.End | aerokernel/aerokernel/relations.py:323-361 | accepted exactly, up to the checks left out, when the reader saw the latest version and it can still be closed or canceled; its successor comes last |
| Candidates.VisibleIsLatest | aerokernel/aerokernel/relations.py:324-329 | a prefix lookup with the latest version's coordinate is the latest version |
| Candidates.CheckRelation | aerokernel/aerokernel/relations.py:586-639 | one relation is accepted exactly, up to the checks left out, when its lifetimes hold and its merged graph is admissible at every instant |
| Candidates.Candidate.Validate | aerokernel/aerokernel/relations.py:569-639 | checking affected and incident relations only accepts exactly, up to the checks left out, when every relation is sound |
| Candidates.Candidate.Commit | aerokernel/aerokernel/scheduling.py:375-391 | publishes exactly, up to the checks left out, when every relation is sound; the published store is sound, extends the one before and is one record of a run |
| Candidates.EmptySound | aerokernel/aerokernel/state.py:247-277 | the store before the first record is sound |
| Outcomes.WrittenReads | aerokernel/aerokernel/transactions.py:704-722 | once committed, a write is what its field reads wherever it is valid and the generation alive, and a retraction reads as absent there |
| Outcomes.CreatedReads | aerokernel/aerokernel/transactions.py:421-452 | once committed, a creation is alive from its instant on, its selected fields pinned to their writers and without a value, the next generation one further; no other generation changes |
| Outcomes.RemovedReads | aerokernel/aerokernel/transactions.py:646-650 | once committed, a removal ends its generation at its instant and frees the identity; no other generation changes |
| Outcomes.EndingExactly | aerokernel/aerokernel/relations.py:323-361 | a row may be closed exactly when it was in force before the present and is from it on, canceled exactly when it was not before; closed it is in force as before the present and no longer, canceled never |
| Outcomes.SuccessorExactly | aerokernel/aerokernel/relations.py:323-361 | what ends a row has its identity, by whoever ended it, and is in force as just said |
| Outcomes.WithinLifeExactly | aerokernel/aerokernel/relations.py:595-625 | a row lies within a lifetime exactly when the generation is alive whenever the row is in force |
| Outcomes.MergedExactly | aerokernel/aerokernel/relations.py:586-594 | a merged graph holds the latest version of each row of its relation and nothing else, in identity order |
| Candidates.CutRecorded | aerokernel/aerokernel/coordinator.py:1395-1420 | a record that only adds its cut is a record of a run as a commit is |
| Candidates.RunExtends | aerokernel/aerokernel/state.py:316-365 | over a run from the empty store, each of its stores published by a candidate or adding only a cut, every store is sound and extends every earlier one |
| Candidates.KnowledgeNeverChanges | aerokernel/aerokernel/state.py:367-453 | over such a run every read at an issued cut keeps its answer, relation versions and cuts by time included |
| ActionHistory.HistoryIsPath | aerokernel/aerokernel/messages.py:222-231 | every history is a path of the transition table starting at submitted, each entry naming the status it leaves |
| ActionHistory.TerminalIsFinal | aerokernel/aerokernel/messages.py:222-231 | once terminal, status and head never change |
| ActionHistory.SucceededExecuted | aerokernel/aerokernel/messages.py:222-231 | succeeded is reached only through executing |
| ActionHistory.CancellationAccepted | aerokernel/aerokernel/messages.py:458-506 | canceling and canceled follow exactly one accepted decision, whose reference is the head while canceling |
| ActionHistory.CourseOf | aerokernel/aerokernel/messages.py:222-231 | whatever becomes of a command it was submitted first, everything but a rejection follows an acceptance, a rejected command had none, success follows executing, canceled follows canceling |
| ActionHistory.EveryMove | aerokernel/aerokernel/messages.py:222-231 | from each status every transition of the table is possible |
| Actions.Actions.Reserve | aerokernel/aerokernel/messages.py:280-302 | a reservation is installed once and otherwise only confirmed |
| Actions.Actions.Submit | aerokernel/aerokernel/messages.py:304-326 | accepted exactly for a pending command of the same source; status and receipt appear together |
| Actions.Actions.RecordDispatch | aerokernel/aerokernel/messages.py:328-340 | each command or cancel is dispatched once, a command to its own target |
| Actions.Actions.Receipt | aerokernel/aerokernel/messages.py:376-425 | a done receipt is a legal transition by the target; the history gains it and everything known continues |
| Actions.Actions.Feedback | aerokernel/aerokernel/messages.py:427-456 | feedback extends the history and changes neither status nor head |
| Actions.Actions.Decide | aerokernel/aerokernel/messages.py:458-506 | each dispatched cancel is decided at most once, and accepted only for an accepted or executing command |
| Actions.Actions.AuthorizedExactly | aerokernel/aerokernel/messages.py:343-365 | a receipt, feedback or decision is authorized exactly for the target, citing the receipt head and its own delivery |
| Actions.Actions.CancelingHeads | aerokernel/aerokernel/messages.py:387-396 | while canceling, the head is the recorded cancel head; canceled commands had one accepted decision |
| Actions.Actions.Clone | aerokernel/aerokernel/messages.py:257-266 | a clone starts with the same states, schemas, dispatches, heads and decisions |
| Cycles.FinishingOrder | aerokernel/aerokernel/coordinator.py:406-421 | the first pass finishes every node once, each component's last finisher after everything it reaches elsewhere |
| Cycles.Reverse | aerokernel/aerokernel/coordinator.py:402-405 | the reversed lists hold exactly the reversed edges |
| Cycles.Collect | aerokernel/aerokernel/coordinator.py:427-436 | the second pass collects what reaches the root among unseen nodes |
| Cycles.IsComponent | aerokernel/aerokernel/coordinator.py:423-437 | what it collects from the next unseen finisher is that node's whole component |
| Cycles.CyclicComponent | aerokernel/aerokernel/coordinator.py:438 | more than one member or a self-edge is exactly having a node on a cycle |
| Cycles.CheckCycles | aerokernel/aerokernel/coordinator.py:400-445 | accepted if and only if every node on a cycle is reactive; then the components are exactly the strongly connected ones in topological order |
| Ingress.Propagate | aerokernel/aerokernel/coordinator.py:832-839 | the fixpoint ends, with each partition depending on exactly the streams of everything that reaches it |
| Ingress.SafeUpstream | aerokernel/aerokernel/ingress.py:119-125 | a safe partition's whole upstream is safe |
| Ingress.SafeTogether | aerokernel/aerokernel/coordinator.py:829-839 | a cohort or engine is safe whole or not at all |
| Ingress.SafeGrows | aerokernel/aerokernel/ingress.py:119-125 | the safe set grows with watermarks and shrinks with time |
| Sampling.Climb | aerokernel/aerokernel/sampling.py:133-145 | the worklist finds exactly the transitive upstream set, or that the evaluator feeds itself |
| Sampling.CompileSamples | aerokernel/aerokernel/sampling.py:99-172 | declarations are accepted exactly, up to the checks left out, when admissible, with each level counting the sampled ancestors |
| Sampling.StrictRank | aerokernel/aerokernel/sampling.py:165-167 | a sampled ancestor has a strictly smaller level |
| Sampling.SampleReady | aerokernel/aerokernel/sampling.py:194-246 | undeclared input is refused, then input to what already sampled at this time, each exactly so; otherwise the due safe contexts of the lowest level are selected |
| Sampling.NothingDueAhead | aerokernel/aerokernel/sampling.py:236-246 | no due context lies upstream of a context of the lowest due level |
| SampledJournal.FramesIncrease | aerokernel/aerokernel/sampling.py:281-293 | along any accepted journal, whichever transactions publish a context, its recorded physical times increase strictly and none is missed |
| Cohorts.GroupsAreComponents | aerokernel/aerokernel/binding.py:99-119 | two members share a group exactly when a chain of overlapping declarations joins them |
| Cohorts.OrderIndependent | aerokernel/aerokernel/binding.py:99-119 | the groups do not depend on declaration order |
| Cohorts.MergeCohorts | aerokernel/aerokernel/binding.py:99-122 | accepted exactly when every declaration is nonempty and unique; the groups are disjoint and are the connected components |
| Cohorts.Expand | aerokernel/aerokernel/scheduling.py:30-32 | one pass over disjoint cohorts reaches the least cohort-closed superset |
| Cohorts.ReadyPartitions | aerokernel/aerokernel/scheduling.py:19-33 | controllers go first, and the chosen set is the least cohort-closed one, told member by member |
| Cohorts.ChosenExactly | aerokernel/aerokernel/scheduling.py:25-33 | as soon as a ready member is a controller or in a cohort with one, exactly the cohorts of such members are chosen; otherwise those of all ready members |
| Calls.CallsExactly | aerokernel/aerokernel/scheduling.py:36-118 | an accepted wave calls exactly whom its phase calls, told by due work, closed streams, frontiers, cohorts and levels |
| Calls.WaveExactly | aerokernel/aerokernel/scheduling.py:36-118 | calls are taken exactly when they are timely, none is unresolved, they are for exactly those partitions and pass no grid point that must be visited |
| NativeGrid.BoundaryIsLeast | aerokernel/aerokernel/engine.py:32-44 | the boundary is the least grid point at or after the time |
| NativeGrid.GrantStep | aerokernel/aerokernel/scheduling.py:86-94 | an accepted grant keeps native time at or behind logical time and moves a latched frontier nowhere or to the next grid point |
| NativeGrid.NoGridPointSkipped | aerokernel/aerokernel/scheduling.py:176-185 | over any run of accepted grants every grid point passed is some frontier of the run |
| Calls.GrantExactly | aerokernel/aerokernel/scheduling.py:86-94 | a call is refused exactly when it passes a grid point that must be visited; native time reaches the call of an advance unless a latched grid has no point there, and otherwise stays |
| Calls.CallsGranted | aerokernel/aerokernel/scheduling.py:177-186 | the calls of an accepted wave stand for one such grant for each partition called |
| NativeJournal.RecordOneGridPoint | aerokernel/aerokernel/scheduling.py:176-185 | any accepted record leaves a latched partition's native frontier alone or moves it to the next grid point |
| NativeJournal.JournalSkipsNoGridPoint | aerokernel/aerokernel/scheduling.py:86-94 | along any accepted journal every grid point between a latched partition's first and last native frontier is its frontier after some prefix |
| RunState.EligibleLater | aerokernel/aerokernel/transactions.py:74-90 | new work is eligible strictly after its publication instant |
| RunState.EligibleExactly | aerokernel/aerokernel/transactions.py:74-90 | work is eligible exactly at the earliest native time no earlier than the request and the publication plus the lag, at the first microstep there, or at the publication's own time the earliest one after it and as requested |
| RunState.ReachesRequest | aerokernel/aerokernel/transactions.py:74-90 | eligibility reaches the requested instant if and only if the request is not for a later microstep of an unmoved future time |
| RunState.RequestedMicrostepLost | aerokernel/aerokernel/transactions.py:78-81 | a concrete request whose microstep is dropped |
| Replay.EffectsRoute | aerokernel/aerokernel/transactions.py:485-562 | whatever a batch proposes, the work it adds is eligible strictly after the transaction and earlier work stays queued |
| Batches.BatchExactly | aerokernel/aerokernel/transactions.py:485-562 | a batch is taken exactly when each effect is allowed after those before it; it then adds one item for each message, in order, eligible as above, and leaves each deadline as the last effect on it says |
| Fates.RecordFate | aerokernel/aerokernel/scheduling.py:132-136 | at any accepted record an item leaves the queue if and only if a reacting or sampling wave calls its recipient when it is due, a reservation if and only if a boundary has come to it and its target is closed to that, a deadline if and only if it has come or is canceled; the rest stays as it was |
| Fates.PublishedExactly | aerokernel/aerokernel/control.py:99-151 | a published reservation becomes one item under its own number for its target, eligible as its instant and the target's lag and grid allow |
| Fates.FiredExactly | aerokernel/aerokernel/control.py:243-268 | a fired partition timer becomes one item under its own number for its partition, for the instant it was due |
| Delivery.ExactlyOnce | aerokernel/aerokernel/queues.py:54-61 | along an accepted journal an item once queued is queued still, as it was, or exactly one wave took it |
| Delivery.PublishedExactlyOnce | aerokernel/aerokernel/control.py:157-209 | likewise a reservation is pending still or exactly one boundary published it |
| Delivery.TakenBySeal | aerokernel/aerokernel/replay.py:423-430 | by the time a time is sealed, exactly one wave has called the recipient of each item due by then, when it was due |
| Delivery.PublishedBySeal | aerokernel/aerokernel/replay.py:431-437 | by the time its boundary is sealed, exactly one boundary has made an item of a reservation |
| Delivery.CommandDelivered | aerokernel/aerokernel/ingress.py:177-245 | a live command not rejected is published once, at the earliest time it may be, once that is sealed; and its target called with it exactly once, once the time of its item is |
| Delivery.FiredBySeal | aerokernel/aerokernel/control.py:210-268 | by the time its instant is sealed, a partition timer has become an item for its partition, or was canceled |
| Readback.JournalReads | aerokernel/aerokernel/replay.py:205-500 | after any accepted journal the seal, the open limit, every watermark, the unresolved calls and where each partition stands are what the last records on them say |
| Readback.RecordMarks | aerokernel/aerokernel/replay.py:450-456 | a seal marks exactly the partitions it finds at their native time, and a progress record changes its own stream's progress only |
| Replay.ReplayedKeeps | aerokernel/aerokernel/replay.py:204-332 | every record the replayer accepts leaves a well-formed state, native time within logical time and the seal within the cut |
| Replay.RecordOnward | aerokernel/aerokernel/replay.py:213-225 | one accepted record extends the cut by one and takes nothing back |
| Replay.JournalOnward | aerokernel/aerokernel/replay.py:213-225 | along an accepted journal time, seal and watermarks never go back and indices are contiguous |
| Replay.SealReplays | aerokernel/aerokernel/replay.py:414-463 | a settled state's seal passes the replayer's guard if and only if no reservation at or before it is pending, and then both reach the same state |
| Replay.EverySealSettled | aerokernel/aerokernel/replay.py:414-463 | every seal of an accepted journal was written with no work, timer or reservation at or before it, everyone at the boundary and every stream closed, and the journal ends sealed no earlier |
| Replay.LateCancel | aerokernel/aerokernel/coordinator.py:1064-1081 | with nothing late pending, a cancellation leaves something at or before the cut behind if and only if it is granted while the cut stands beyond the seal |
| Replay.AdmissionIsNeverLate | aerokernel/aerokernel/ingress.py:208-213 | a live admission is reserved strictly after the cut |
| Admission.AdmittedExactly | aerokernel/aerokernel/ingress.py:177-245 | a live request is taken by a sealed run between waves for a known stream and target; late where lateness is rejected it reserves nothing, otherwise it is published at the earliest time at or after its mapped and its asked-for time, after the cut and, when late, after the watermark, for the later of its own instant and that time |
| Admission.SubmittedExactly | aerokernel/aerokernel/control.py:33-77 | a plain submission is taken by a settled run with no limit open for a publication beyond the seal and no later than its own instant: the one asked for, or the first beyond the seal |
| Admission.CanceledExactly | aerokernel/aerokernel/coordinator.py:1064-1081 | a granted cancellation is reserved for the first time beyond the seal, a rejected one changes nothing |
| Admission.BoundExactly | aerokernel/aerokernel/coordinator.py:764-784 | binding leaves everyone at time zero with nothing queued or sealed and every stream closed as configured; a state to start from exactly when every stream somebody depends on, and the default one, has a watermark and a lateness |
| Admission.ClosuresExactly | aerokernel/aerokernel/replay.py:339-393 | a watermark is taken between waves exactly when it closes its stream further, a progress exactly when it goes on and closes it no less |
| Replay.EmptyBindingSeal | aerokernel/aerokernel/replay.py:414-463 | with no partitions the replayer takes the journal of a run to any limit beyond zero - reset, seal at zero, limit - and then rejects the seal of the limit |
| HostCalls.HostReplays | aerokernel/aerokernel/replay.py:333-413 | a host call leaves a record exactly when the replayer's own guard accepts that record, and with the same state |
| HostCalls.HostKeeps | aerokernel/aerokernel/coordinator.py:745-951 | host calls, submissions included, change reservations and closed prefixes only, forward only; with nothing late pending, one leaves something late exactly when it is a granted cancellation beyond the seal |
| Planning.NothingDue | aerokernel/aerokernel/coordinator.py:1155-1160 | when everyone stands safe at the boundary and no ordinary work, timer or sample is found, nothing is due |
| Planning.SameOrdinary | aerokernel/aerokernel/coordinator.py:1133-1150 | looking at everyone's work and looking at the work of safe recipients finds the same work due, because nothing queued is in the past |
| Settlement.ReadyWhenDue | aerokernel/aerokernel/coordinator.py:1184-1187 | when every safe unsampled partition stands at the boundary, due ordinary work makes somebody ready |
| Settlement.ReadyExactly | aerokernel/aerokernel/scheduling.py:19-33 | somebody is ready for whatever ordinary work is due, however queued, if and only if every safe unsampled partition stands at the boundary |
| PairRuns.NobodyReadyReached | aerokernel/aerokernel/coordinator.py:1139-1187 | for any such pair of partitions the live loop writes a replayable journal after which the one step settlement can take is a reaction nobody is ready for, which is the reason of its fault |
| Planning.PlanStep | aerokernel/aerokernel/coordinator.py:1131-1187 | each settlement step is the planned one: timers first, then ordinary work, at the next microstep or the least later one that something due asks for; then the lowest sample level, at the next microstep or its latest input's; none is planned exactly when what is safe is settled |
| Planning.PlanUnique | aerokernel/aerokernel/coordinator.py:1131-1187 | a state has exactly one planned step |
| Grants.LeastBoundary | aerokernel/aerokernel/coordinator.py:1296-1312 | the next boundary is one of the limit, the bounds, queued work, reservations and deadlines, and jumps over none of them |
| Grants.OwnGranted | aerokernel/aerokernel/scheduling.py:44-118 | the loop's own resets and samples are always granted, a reaction if and only if somebody is ready, an advance if and only if it stays within the run limit and skips no native grid point |
| Grants.AimBeyondLimit | aerokernel/aerokernel/coordinator.py:1315-1317 | the loop aims beyond its limit if and only if a partial wave already stands beyond it |
| Grants.StalledJustified | aerokernel/aerokernel/coordinator.py:1312-1314 | there is no physical progress if and only if a bound or a reservation lies at or before the seal; queued work and deadlines never do |
| LiveJournal.HauntedUnlessCalm | aerokernel/aerokernel/coordinator.py:1064-1081 | a cancellation granted since the last boundary control is still pending right after the seal |
| LiveJournal.SweptStays | aerokernel/aerokernel/coordinator.py:1364-1385 | once the loop has looked for due reservations with everyone at a boundary, everyone stays there and nothing late is pending, unless a cancellation was granted since the last boundary control |
| LiveJournal.LiveAtRest | aerokernel/aerokernel/control.py:34-43 | with no run limit open a run stands at its seal, so a plain submission is never late |
| LiveJournal.DisturbedWhileSettling | aerokernel/aerokernel/coordinator.py:1064-1081 | a seal is disturbed only by a cancellation granted after that look, while its own time is being settled |
| LiveJournal.LiveReplays | aerokernel/aerokernel/replay.py:414-463 | a live journal replays to the live store if and only if every seal in it was written in calm |
| LiveJournal.LiveSealSettled | aerokernel/aerokernel/coordinator.py:1190-1218 | every seal of a live journal, disturbed or not, was written with nothing due, everyone at the boundary and every stream closed, beyond the seal before it; nothing late was pending exactly when it was calm |
| LiveJournal.LeftBehind | aerokernel/aerokernel/coordinator.py:1306-1314 | a live journal is disturbed if and only if a reservation at or before the seal is still pending |
| PairRuns.DisturbedReached | aerokernel/aerokernel/coordinator.py:1064-1081 | for any such pair the live loop writes a journal, sealed over a cancellation granted at a poll while that time was being settled, that the replayer rejects |
| LiveJournal.DisturbedSealIsLast | aerokernel/aerokernel/coordinator.py:1312-1314 | after a disturbed seal no call is made, no boundary consumed and nothing sealed; everything before it replays |
| LiveJournal.NoCancelUndisturbed | aerokernel/aerokernel/coordinator.py:1039-1095 | a journal without granted cancellations is undisturbed, so it replays whole |
| LiveJournal.FaultExplained | aerokernel/aerokernel/coordinator.py:525-576 | a fault is written only for a reason found in the store before it |
| Coordinator.Coordinator.constructor | aerokernel/aerokernel/coordinator.py:110-157 | a bound kernel is idle, with an empty journal |
| Writing.Extends | aerokernel/aerokernel/coordinator.py:455-490 | a record the loop may write leaves the journal accounting for the store it publishes |
| Coordinator.Coordinator.Poll | aerokernel/aerokernel/coordinator.py:492-518 | the host comes in between waves only, with its next round of calls if any is left; each is applied in order, and host matters are all that changes |
| Coordinator.Coordinator.Authorize | aerokernel/aerokernel/scheduling.py:44-118 | the guard admits exactly the calls an invocation record may make, for reactions the one canonical selection |
| Coordinator.Coordinator.Execute | aerokernel/aerokernel/coordinator.py:596-667 | the loop's own calls run and merge, taking off the queue exactly what they are due, or the run fails: for a refused batch, an overrun limit, a skipped grid point or nobody ready, each as the phase allows |
| Coordinator.Coordinator.Wave | aerokernel/aerokernel/coordinator.py:578-667 | a completed wave puts the selected partitions at its instant and the others nowhere else, takes off the queue exactly their due items and leaves every other as it was; otherwise the host moved first, or the run failed for such a reason |
| Coordinator.Coordinator.BoundaryControl | aerokernel/aerokernel/control.py:154-277 | boundary control never fails; a reservation goes exactly when it has come and its target is closed to it, becoming one item for that target, a deadline exactly when it has come, a partition timer becoming one item for its partition; all else stays |
| Coordinator.Coordinator.Work | aerokernel/aerokernel/coordinator.py:1131-1190 | same-time settlement ends with nothing due, at most one wave or boundary for each microstep used and within the pinned bound; sealing, it fails only for microsteps, an unreactive choice or a refused batch |
| Coordinator.Coordinator.SealAt | aerokernel/aerokernel/coordinator.py:1200-1218 | what is settled is sealed; the journal stays undisturbed exactly when nothing late is pending |
| Coordinator.Coordinator.Settle | aerokernel/aerokernel/coordinator.py:1131-1218 | settles and, when asked, seals the boundary; it fails for no reason but settlement's and a stalled horizon |
| Coordinator.Coordinator.Start | aerokernel/aerokernel/coordinator.py:723-743 | time zero is reset, settled and sealed and the journal replays; it fails for no other reason than settlement does |
| Coordinator.Coordinator.WaitWatermark | aerokernel/aerokernel/coordinator.py:961-1000 | proceeding with an unchanged cut means every partition is safe; giving up means the host has nothing more to say and one is not |
| Coordinator.Coordinator.Advance | aerokernel/aerokernel/coordinator.py:1364-1378 | the safe partitions short of a boundary reach it, or the host moved first, or the run fails for microsteps, limit, grid or batch |
| Coordinator.Coordinator.CatchUp | aerokernel/aerokernel/coordinator.py:1343-1358 | safe partitions reach the boundary, what was reserved for it and is closed to it is published, no deadline of its start is left, and what is safe there is settled, without a seal |
| Writing.Catches | aerokernel/aerokernel/coordinator.py:1345-1358 | advancing, consuming what is due and settling leaves the selected partitions at the boundary, no deadline of its start and no reservation for it that is closed to it |
| Coordinator.Coordinator.AdvanceSafe | aerokernel/aerokernel/coordinator.py:1337-1359 | unless the host moved first, whoever was safe and short of the boundary caught up with it before the run waits for the streams; when everyone is safe or nobody short of it, nothing is done |
| Coordinator.Coordinator.AdvanceAll | aerokernel/aerokernel/coordinator.py:1364-1383 | everyone stands at the boundary, and the reservations and timers due there were looked for and consumed |
| Coordinator.Coordinator.RunTo | aerokernel/aerokernel/coordinator.py:1316-1385 | a turn seals its boundary, uses up host calls, fails, or waits for a stream with whoever was safe at that boundary caught up with it |
| Coordinator.Coordinator.RunBoundary | aerokernel/aerokernel/coordinator.py:1293-1385 | each turn of the loop moves the seal forward or uses up host calls, so the run ends; a disturbed run fails for lack of progress |
| Coordinator.Coordinator.RunUntil | aerokernel/aerokernel/coordinator.py:1272-1393 | from any state between steps, the seal never retreats; the journal replays exactly when undisturbed; the run ends sealed to its limit, waiting for a stream, or with an explained fault; every seal in it was written settled; it overruns its limit only from a partial wave beyond it |
| JournalCodec.RoundTrip | aerokernel/aerokernel/journal_codec.py:464-510 | unpacking a packed tree gives it back, typed records and look-alike mappings included |
| JournalCodec.PackInjective | aerokernel/aerokernel/journal_codec.py:464-478 | different trees have different frames |
| JournalCodec.PackedDepth | aerokernel/aerokernel/journal_codec.py:588-592 | packing at most doubles the nesting depth and adds one, so frames fit the derived budget |
| JournalCodec.DepthBoundTight | aerokernel/aerokernel/journal_codec.py:588-592 | trees of every depth that need the whole bound |

## Left out

- Coordinator.Coordinator.Start: starts and runs a binding with partitions; of one without any only
  `Replay.EmptyBindingSeal` speaks. The same holds for `Coordinator.Coordinator.RunUntil`.
- Coordinator.Coordinator.Poll: hosts act at the points where the lock is released, by a finite script. A hook that
  yields ends the run at one of these points, in an idle state that `Coordinator.Coordinator.RunUntil` may start from;
  the early return itself, pacing, timeouts and wall-clock holds are not modelled.
- HostCalls.HostKeeps: idempotency keys, command routing and payload validation of submissions and admissions, which
  only refuse more or leave no record.
- Coordinator.Coordinator.RunUntil: horizon bounds are arbitrary numbers; their own validity checks, output bounds,
  input coverage, engine exceptions and the refusals of sample input, which only make more runs fail, are not
  modelled.
- Coordinator.Coordinator.BoundaryControl: what a boundary notifies beyond its commands, cancellations and partition
  timers (fields, relations, lifecycles) is arbitrary and comes after them; reservations are published in the order of
  their numbers, where the source sorts their message identities.
- Replay.Replayed: comparison of the record's bytes with the reproduced ones, historical journal versions, run stops
  and wall-clock leases.
- Candidates.Candidate: messages, frames and dirty notifications add queue entries and change none of the state proved
  about.
- Candidates.Candidate.Create: the lifecycle controller, abstract type, namespace and bootstrap checks, which only
  refuse more.
- Candidates.Candidate.Remove: the lifecycle owner and cleanup acknowledgment checks, which only refuse more.
- Candidates.Candidate.Propose: the cleanup freeze, schema and clock checks, which only refuse more.
- Candidates.Candidate.Assert: the endpoint type, clock stamp and writer authority checks, which only refuse more.
- Candidates.Candidate.End: the bound writer's or controller's authority, which only refuses more.
- Candidates.CheckRelation: the two cohort refusals inside the cited lines, which need engine cohorts and only refuse
  more.
- Candidates.Candidate.Validate: the same two cohort refusals.
- Sampling.CompileSamples: the clock, mapping, namespace and source checks, which only refuse more.
- Ledger.Store: `Store` is a value replaced whole by its candidate; that the shared maps, columns and queues
  underneath behave like values is what `Storage`, `FactVersions` and `Queues` prove. Update in place of several store
  fields at once is not modelled.
- Candidates.Candidate.Commit: the cohort and sample-work checks before publication, which only refuse more; a cut
  that a notification appends early is appended at the commit.
- RunState.Bounded: reservations carry a boundary, a target and a command's instant; payloads, idempotency keys and
  source sequences are not modelled, nor who a partition timer belongs to when a batch schedules it.
- VersionSweep.ApplyPoint: the heap is a finite set with a greatest element, by its contract; its array layout is not
  modelled. The same holds for the heaps of `Queues`.
- Cycles.CheckCycles: starts from the zero-lag graph; building it from field, message and relation declarations is not
  modelled. The same holds for `Ingress.Propagate`.
- JournalCodec.RoundTrip: floats and text are opaque, mappings are finite maps; compression, JSON text and byte
  budgets are not modelled.
- Actions.Actions.Receipt: schemas and payload validation are an arbitrary predicate of the registry.
- Fact rows' compact tables, record logs with their decoded cache, write-ahead files, RPC engines, asset packs and the
  scenario tooling.
