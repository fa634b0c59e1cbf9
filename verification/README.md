# Verification of the client's optimistic replica

Dafny models of the parts of the Axton client that decide what a device shows and sends while the
server has not answered yet, with proofs of what they promise.

**The row layer** (`Rows`, `History`, `Replica`, `Rebuilding`, `LocalSteps`, `Settlement`, `Cascade`,
`Runs`, `Engine`). A record has a visible row, a before-image held while it has pending work, the
operations of the calls still queued, a journal of settled local writes, and a compacted layer of
local operations over the last server state. `Replica.State` holds these tables; `Replica.Inv` is the
invariant: a record whose history replays shows that replay over its base; a clean record keeps no
before-image and no settled write; and every base is the last staged authority with the record's
local layer on it. The last is stated with a ghost table of the row last staged for each record.
`Runs` makes a state machine of the steps and proves the invariant, and what becomes of a record's
truth, over every run. `Engine.Tables` changes the tables in place; each change is recorded as a step
of a run, so the theorems of `Runs` hold of it after every method. "If the history replays" is needed: after a
divergence a new operation is applied on top of the fallback row.

**The queue layer** (`Calls`, `Refusing`, `Batches`, `Sending`, `Receipts`, `QueueRuns`,
`Promises`, `MutationQueue`). Calls are queued with lifecycle and sequence predecessors, frozen into Batches,
acknowledged, refused along lifecycle edges, settled, dropped and dismissed. `Calls` says what each
operation makes of the tables, `Batches.Inv` is what all of them keep, and `QueueRuns` holds the
theorems over runs; `Promises` follows one call from its submission on. `MutationQueue.Table` is the
same in place.

**Both together** (`OneTable`, `Joined`). One store of the two layers, from an empty one on: the next
ordinal is the same in both, the calls whose operations the tables replay are exactly those pending in
the queue, and the wire operations a pending call submitted to the tables are, in order, the records
its queued inputs write. Every operation of `Joined.Store` keeps it so. A frozen request therefore
stands for rows that do not change while it may be sent, and a refusal leaves every record without
pending calls showing its truth.

**The actor's handshake** (`Outbox`, `Wakes`) and its **refresh broker** (`Broker`). Critical sections
are atomic steps of a machine that any number of publishers, drains and detaches interleave.

**The change journal** under nested savepoints (`Journal`, `Sessions`).

One promise turns out not to hold as it might be read, and the models say exactly when it does. A refused
unsent call is refused, and reported, again when a call it depends on is refused later, whether by a drop
or by an acknowledgement (`QueueRuns.RefusesAgainExactly`). It is final once it is dismissed
(`QueueRuns.DismissedForGood`), and for members of acknowledged Batches outcomes are final. The refresh broker, too, relies on what it is given: waiters lose their host refresh exactly
when its id is cancelled again after it left (`Broker.StrandedExactly`). The program's producers cancel
each effect at most once, since they forget it as they cancel it
(crates/client/src/runtime/effects.rs:119-126, crates/client/src/sync05/downlink.rs:130-133).

Records are keyed by model and identity, rows are maps from field to value, tables are maps and sets
with their primary keys kept as invariants. A digest stands for equality of the request it is taken
of, and the encoding of a key is taken to be injective. A schema is a validated one as far as its
relations go: each names the identity fields of its target (crates/core/src/schema.rs:262-273). What the server decided comes as a step's
input: whether authority is newer, which targets of a receipt it finalizes and when a call is ready
to settle, where a stored relation points, and which pending calls a policy puts a call after.

## Model

| member | source | states |
|---|---|---|
| `Rows.RetainStep` | crates/client/src/authority.rs:33-70 | retaining one more local operation in the compacted layer applies exactly that operation, over every starting row |
| `Rows.LayerIsFaithful` | crates/client/src/authority.rs:33-70 | the layer built from any sequence of operations has at most one Create or Delete and then at most one Update, and folds every starting row to what the whole sequence folds it to |
| `Rows.AdaptIsFold` | crates/client/src/authority.rs:77-92 | under one schema, keeping the fields of an old create on a rematerialized row is the fold of the layer over that row, and the result is again a full row of the model |
| `Rows.AdaptKeepsNewFields` | crates/client/src/authority.rs:77-92 | under any schema, a row rematerialized with fields the layer never knew keeps them, and has in every field the layer owns what applying it gives |
| `Rows.AppliesWhereAccepted` | crates/client/src/mutate.rs:37-100 | an operation applies exactly where it is accepted - a create on no row, an update on one, a delete anywhere - and leaves, field by field, its own values and otherwise what was there; a settled write does the same there, and elsewhere replaces the row or does nothing |
| `History.ListingUnique` | crates/client/src/mutate.rs:20-35 | a set of history entries has one listing in committed local order |
| `History.Insert` | crates/client/src/mutate.rs:166-171 | one more entry takes its place in committed local order; nothing else moves |
| `History.Listing` | crates/client/src/mutate.rs:166-171 | the history lists exactly its entries, strictly ordered by `Step::order` |
| `History.FoldingPreserves` | crates/client/src/mutate.rs:213-234 | folding a settled prefix into the base changes neither the replay, nor the call that fails first, nor what stays visible |
| `History.DivergesAtFirstConflict` | crates/client/src/mutate.rs:235-247 | a replay reports a call if and only if one of its operations is the first that conflicts with the row replayed before it |
| `History.DivergedProjects` | crates/client/src/mutate.rs:248-253 | a history that diverges shows what it would with its pending operations gone |
| `History.KeptSettledView` | crates/client/src/mutate.rs:63-71 | dropping pending operations from a history leaves its settled view alone |
| `Replica.SubmitKeepsInv` | crates/client/src/mutate.rs:423-447 | submitting one operation of the latest call keeps the whole invariant and the truth of every record |
| `Replica.QueueKeepsTruth` | crates/client/src/queue.rs:147-154 | storing an operation at any place of its call, first or last in its record's history, changes no truth |
| `Rebuilding.RebuildShowsReplay` | crates/client/src/mutate.rs:213-261 | a rebuilt record shows the replay of its history over its base; when some call does not replay, the replay without the pending operations, and exactly the first call to fail is marked |
| `Rebuilding.DivergedShowsTruth` | crates/client/src/mutate.rs:248-253 | a record that does not replay is shown as its truth |
| `Rebuilding.RebuiltBase` | crates/client/src/mutate.rs:214-234 | after a rebuild the base is the old one with the settled prefix on it, still the last staged authority under the local layer |
| `Rebuilding.RebuildKeepsInv` | crates/client/src/mutate.rs:213-261 | rebuilding a held or dirty record keeps the invariant, every truth, and leaves that record not held |
| `Rebuilding.RebuildLeaves` | crates/client/src/mutate.rs:213-261 | a rebuild leaves the rows, entries, layer and history of every other record as they were |
| `Rebuilding.RebuildIdempotent` | crates/client/src/mutate.rs:213-261 | a second rebuild of a record that is still dirty changes nothing |
| `LocalSteps.DirectKeepsInv` | crates/client/src/mutate.rs:495-510 | a direct write keeps the invariant, moves the truth of its own record by exactly its operation and no other truth |
| `LocalSteps.RejectKeepsInv` | crates/client/src/settlement05.rs:180-195 | refusing any set of calls keeps the invariant, once their records wait for a rebuild, and every truth |
| `LocalSteps.ExtendKeepsInv` | crates/client/src/mutate.rs:364-377 | extending a queued delete to a record that appeared below it keeps the invariant and every truth |
| `LocalSteps.StageKeepsInv` | crates/client/src/authority.rs:71-128 | staging authority under pending work, newer or the same position again, keeps the invariant |
| `LocalSteps.StagedBase` | crates/client/src/authority.rs:71-128 | the base of a staged record is the incoming row when it is newer, and the incoming row under the retained local operations when it is the same position again |
| `Settlement.SettleKeepsInv` | crates/client/src/settlement05.rs:285-366 | settling an accepted call keeps the invariant, once its records wait for a rebuild |
| `Settlement.SettleKeepsShown` | crates/client/src/settlement05.rs:344-366 | a record a settled call touches only through owned companions goes on showing its replay: each companion becomes a settled write at the same ordinal and position |
| `Settlement.SettledCompanionsInvisible` | crates/client/src/settlement05.rs:344-366 | whatever else the transaction holds, the rebuild after settling such a call shows the row that was visible |
| `Settlement.ConvertReplays` | crates/client/src/mutate.rs:37-60 | turning a call's pending operations into settled writes in place keeps a history that replays |
| `Settlement.SnapshotOverrides` | crates/client/src/settlement05.rs:290-343 | a finalized target shows the receipt's snapshot at the place of the call's last wire operation, with only what stands after it: neither the base nor anything earlier matters |
| `Settlement.SettledWritesExactly` | crates/client/src/settlement05.rs:233-366 | the journal gains exactly a settled write at the place of each companion on no target, and of the last wire operation on each finalized target with the receipt's snapshot, whose record has had no newer authority since it was stored |
| `Cascade.DescendantsWhere` | crates/client/src/mutate.rs:266-304 | ends on any relation graph, cycles included, and answers without duplicates exactly the records other than the start that are reachable along admitted records |
| `Cascade.ClosedHoldsPath` | crates/client/src/mutate.rs:272-302 | a set of records closed under admitted children holds the end of every path it starts |
| `Cascade.AllFound` | crates/client/src/mutate.rs:275-303 | when no record waits to be visited, everything reachable has been found |
| `Cascade.RefersIs` | crates/client/src/mutate.rs:275-284 | matching a relation's columns with the parent's identity is reading off the row the key it points at |
| `Cascade.DescendsExactly` | crates/client/src/mutate.rs:266-304 | what the search reaches is exactly what goes with the record: along admitted records, each with a visible or held row that points by a cascading relation at the one before |
| `Runs.NextKeepsInv` | crates/client/src/mutate.rs:166-261 | every step keeps the invariant, and moves a record's truth only by settlement, authority, or a direct write to it |
| `Runs.ReachableInv` | crates/client/src/mutate.rs:156-261 | the invariant holds after every run from an empty store, also between the steps of a transaction |
| `Runs.ReachableShows` | crates/client/src/mutate.rs:166-261 | in every reachable state between transactions a dirty record whose history replays shows that replay over its before-image, a clean one keeps no before-image and no settled write, and every base is the last staged authority under the local layer |
| `Runs.TruthOverRun` | crates/client/src/mutate.rs:156-164 | over any run without settlement and authority a record's truth moves by exactly its direct writes, in order |
| `Runs.RefusedShowsTruth` | crates/client/src/settlement05.rs:160-195 | once refusals leave a record without pending calls, its row is the truth it had, with the run's direct writes on it |
| `Runs.SettlementsInvisible` | crates/client/src/settlement05.rs:252-370 | over any steps that write, extend, stage and refuse only other records, settle any number of calls touching a record only through owned companions, and rebuild whatever they like, the record shows the row it showed, and a further rebuild shows it again and reports nothing |
| `Runs.NewerAuthorityPrevails` | crates/client/src/settlement05.rs:233-244 | once newer authority is staged, over any run without local writes to the record and further authority for it, whatever calls settle or are refused, its truth is the staged row, and that is shown once nothing pends on it |
| `Runs.CompanionStays` | crates/client/src/settlement05.rs:344-356 | without newer authority since, a companion on no target stays, whenever its call settles, as a settled write at its place |
| `Runs.ReachableKeys` | crates/core/src/schema.rs:341-369 | after every run each record with a row is identified by exactly its model's identity fields |
| `Runs.PendingSendsWhatWasSubmitted` | crates/client/src/mutation_queue.rs:105-181 | after every run from an empty store a pending call has exactly the wire rows submitted for it, in order: nothing adds, drops or reorders one |
| `Runs.SteadyRun` | crates/client/src/queue.rs:127-129 | only allocating, refusing and settling change which calls pend and what the next ordinal is |
| `Engine.Tables.HistoryOf` | crates/client/src/mutate.rs:166-171 | reads the record's entries into exactly its history |
| `Engine.Tables.RetainLocal` | crates/client/src/authority.rs:33-70 | the stored layer becomes the retained one, in place |
| `Engine.Tables.FoldPrefix` | crates/client/src/mutate.rs:216-226 | the settled prefix goes into the base and the layer and out of the journal, and nothing else does |
| `Engine.Tables.ReplayRest` | crates/client/src/mutate.rs:235-253 | the loop stops at the first conflict; it answers the replay of the rest, or on a conflict the replay of its settled writes alone |
| `Engine.Tables.RebuildRow` | crates/client/src/mutate.rs:213-261 | is one rebuild step of the run and keeps every truth; it answers exactly the call the history diverges at, and then the row is the truth, otherwise the replay |
| `Engine.Tables.RebuildAll` | crates/client/src/authority.rs:101-109 | rebuilds every held record: each shows its replay, or its truth where it does not replay; the reports name, for exactly those, the first call to fail |
| `Engine.Tables.RebuildHeld` | crates/client/src/authority.rs:101-112 | rebuilds every held record once and then stores exactly what the cascade refresh finds; reports the same, and keeps every truth and every pending call |
| `Engine.Tables.HoldTruth` | crates/client/src/mutate.rs:199-205 | the record's before-image is from then on the base it had, and no base of any record changes |
| `Engine.Tables.ApplyMain` | crates/client/src/mutate.rs:172-198 | a create of a row that exists and an update of one that does not are refused; otherwise the row holds the operation's values and what was there besides |
| `Engine.Tables.AppendOp` | crates/client/src/queue.rs:147-154 | the row takes the call's next position and the record's evidence |
| `Engine.Tables.SubmitOne` | crates/client/src/mutate.rs:430-446 | refuses, leaving everything as it was, a create of a visible record and an update of one that is not; otherwise it holds, applies and stores the operation, and moves no truth |
| `Engine.Tables.ApplyInOrder` | crates/client/src/mutate.rs:423-447 | stores the deletes of exactly the records whose rows point, one after another, at a deleted one, then the operation; refused only if the row does not accept the operation itself |
| `Engine.Tables.Enqueue` | crates/client/src/mutation_queue.rs:65-201 | queues a call as its ordinal and then each operation with its own cascade at that point; it fails, changing nothing, only when the operations applied in turn come to one that conflicts |
| `Engine.Tables.AppendCompanion` | crates/client/src/mutate.rs:393-417 | accepted if and only if the call is unsent, the latest, followed by no independent write, and the operation applies; then it stores the companion with its cascade and moves no truth |
| `Engine.Tables.DirectOne` | crates/client/src/mutate.rs:495-510 | one direct write, refused exactly where the row does not accept it: the row holds its values, the truth of its record moves by it |
| `Engine.Tables.DirectWrite` | crates/client/src/mutate.rs:474-491 | the truth of the record moves by the operation, the truth of every record whose row points, one after another, at a deleted one becomes absent, no other moves |
| `Engine.Tables.RecreatedLocally` | crates/client/src/mutate.rs:309-320 | answers whether a create of the same call, or a settled one, stands after the call's last delete |
| `Engine.Tables.RefreshDelete` | crates/client/src/mutate.rs:343-378 | nothing for a visible record recreated since; otherwise a delete for exactly the records below it the call did not delete already, and then every record below it is deleted by the call: looking again finds nothing |
| `Engine.Tables.RefreshPending` | crates/client/src/mutate.rs:326-382 | looks at every delete the live calls held when it began once, own deletes before companions, and stores nothing but their cascades; keeps every truth |
| `Engine.Tables.RejectCalls` | crates/client/src/settlement05.rs:181-187 | the calls stop pending and exactly the records of their live operations are to be rebuilt |
| `Engine.Tables.RetainFinals` | crates/client/src/settlement05.rs:290-343 | each finalized target's snapshot takes the place of the call's last wire operation unless newer authority landed; fails if and only if the call never wrote one of the targets |
| `Engine.Tables.RetainCompanions` | crates/client/src/settlement05.rs:344-356 | exactly the companions no newer authority superseded, on no target, stay as settled writes |
| `Engine.Tables.SettleCall` | crates/client/src/settlement05.rs:285-366 | is one settlement step of the run, or changes nothing when a target was never written |
| `Engine.Tables.AdaptLayer` | crates/client/src/authority.rs:77-92 | carries the stored layer onto a rematerialized row |
| `Engine.Tables.StageRow` | crates/client/src/authority.rs:71-128 | one staging step: the base is replaced and only a record with pending work is held for a rebuild |
| `Engine.Tables.StageChanges` | crates/client/src/settlement05.rs:445-549 | installs the changes in turn; a removal takes along exactly the records reachable below it that no later authority covers, in the rows without those cleared for changes still to be installed or rebuilt |
| `Engine.Tables.InstallChange` | crates/client/src/settlement05.rs:501-544 | stages one record and, for a removal, exactly those records below it |
| `Engine.EnqueuedWires` | crates/client/src/mutation_queue.rs:110-181 | queuing a call adds exactly its wire operations, in order, to what the run submits for it, and nothing to any other call |
| `Refusing.RejectClosure` | crates/client/src/settlement05.rs:164-179 | the fixpoint loop ends with exactly the initial refusals and everything reachable from them by lifecycle edges, each initial code kept, each added one `dependency.rejected`, whatever the order of the rows |
| `Refusing.Fixpoint` | crates/client/src/settlement05.rs:164-179 | the loop ends, each pass marking another call within reach, with a set closed under the edges |
| `Refusing.ClosedHoldsClosure` | crates/client/src/settlement05.rs:164-179 | a set closed under the lifecycle edges that holds the initial refusals holds everything they reach |
| `Batches.PathSparesSent` | crates/client/src/settlement05.rs:160-179 | along any path of lifecycle edges from calls not yet settled, only those and calls never sent are met |
| `Batches.RefusalSparesSent` | crates/client/src/settlement05.rs:160-195 | the closure of refusals that start from calls not yet settled holds no other call that was sent |
| `Batches.EnqueueKeepsInv` | crates/client/src/mutation_queue.rs:182-196 | a new call with edges to live calls keeps the queue's invariant |
| `Batches.AppendLocalKeepsInv` | crates/client/src/queue.rs:147-154 | a companion or an effect stored with a call keeps what an open Batch is rebuilt from |
| `Batches.CancelKeepsInv` | crates/client/src/settlement05.rs:701-727 | dropping or discarding an unsent call keeps the queue's invariant |
| `Batches.DismissKeepsInv` | crates/client/src/settlement05.rs:753-787 | dismissing a refused call, with its edges and prerequisites, keeps the queue's invariant |
| `Sending.MutationsFromMembers` | crates/client/src/mutation_queue.rs:202-208 | every mutation of a rebuilt request is a member of the Batch with what it sends |
| `Sending.MutationsAscend` | crates/client/src/mutation_queue.rs:202-208 | a rebuilt request lists its mutations by increasing id |
| `Sending.OpenReconstructs` | crates/client/src/mutation_queue.rs:202-305 | the open Batch is always rebuilt, as the request it was frozen as |
| `Sending.FreezeAnswers` | crates/client/src/mutation_queue.rs:306-354 | a freeze answers the open Batch unchanged, or nothing, or the ready calls as the next Batch; the only error left is an exhausted counter |
| `Sending.FreezeTakesExactly` | crates/client/src/mutation_queue.rs:306-335 | a freeze sends a call exactly when no assigned call is unsettled, the next Batch has a number, and the call pends, waits for no prerequisite, and has every predecessor settled, lifecycle ones without a refusal |
| `Sending.ReconstructExactly` | crates/client/src/mutation_queue.rs:202-305 | a rebuilt request is of the Batch's calls alone and is what each of them was frozen as; otherwise the error names what is missing or changed |
| `Sending.FreezeKeepsInv` | crates/client/src/mutation_queue.rs:306-354 | freezing keeps the queue's invariant |
| `Sending.NeverDeadlocks` | crates/client/src/mutation_queue.rs:321-354 | when no assigned call is unsettled and the earliest pending call has no unresolved prerequisite, a freeze answers a Batch with it, and the Batch is exactly the ready calls |
| `Receipts.AppliesExactly` | crates/client/src/settlement05.rs:103-135 | a first acknowledgement is applied if and only if it answers the open Batch: its digest, materialization, members and mandatory targets; otherwise nothing changes |
| `Receipts.ToldExactly` | crates/client/src/settlement05.rs:74-135 | a first acknowledgement is applied if and only if its numbers, cursors and targets are well formed, it answers the next Batch of this store, frozen as it says, with one result for each of its calls, and the targets of every accepted call hold the records it writes; otherwise the answer names the first of these that is wrong |
| `Receipts.SettledCalls` | crates/client/src/settlement05.rs:136-158 | an acknowledged member has the outcome it was given, a call refused with one was never sent, every other call is as it was |
| `Receipts.AcknowledgeKeepsInv` | crates/client/src/settlement05.rs:74-159 | acknowledging keeps the queue's invariant |
| `QueueRuns.StepKeeps` | crates/client/src/mutation_queue.rs:65-354 | every step keeps the invariant, Batch membership, envelopes and acknowledged outcomes |
| `QueueRuns.RunKeeps` | crates/client/src/mutation_queue.rs:65-354 | so does every run |
| `QueueRuns.SentAfterItsPredecessors` | crates/client/src/mutation_queue.rs:329-331 | in every reachable queue the predecessors of a sent call are settled, its lifecycle predecessors accepted, and at most one Batch has unsettled members |
| `QueueRuns.RefusalNeverReachesSent` | crates/client/src/settlement05.rs:160-195 | in every reachable queue a refusal that starts from unsettled calls reaches no other call that was sent |
| `QueueRuns.NeverStuck` | crates/client/src/mutation_queue.rs:306-354 | in every reachable queue a freeze answers a Batch with the earliest pending call, unless an assigned call is unsettled, that call has an unresolved prerequisite, or the counter is exhausted |
| `QueueRuns.FrozenStaysFrozen` | crates/client/src/mutation_queue.rs:202-320 | until it is acknowledged a frozen Batch is answered again, equal, with the same members, after any steps: the frozen digest is never found changed |
| `QueueRuns.AckIsIdempotent` | crates/client/src/settlement05.rs:82-102 | an acknowledgement that succeeded succeeds again after any further steps and changes nothing |
| `QueueRuns.ReplayAcceptedExactly` | crates/client/src/settlement05.rs:82-102 | an acknowledgement of an acknowledged Batch is accepted if and only if it has the same digest, materialization, members and outcomes |
| `QueueRuns.RefusesAgainExactly` | crates/client/src/settlement05.rs:164-187 | a refusal, however it starts from unsettled calls, overwrites and reports again exactly the earlier refusals a lifecycle path leads to, all of them never sent |
| `QueueRuns.DropRefusesAgainExactly` | crates/client/src/settlement05.rs:701-727 | a drop or a discard leaves every earlier refusal as it was, except exactly those a lifecycle path leads to from the dropped call |
| `QueueRuns.AckRefusesAgainExactly` | crates/client/src/settlement05.rs:136-152 | so does an acknowledgement, for paths from its refused members; given again it refuses nothing |
| `QueueRuns.DropRefusesAgain` | crates/client/src/settlement05.rs:164-187 | a run from an empty queue after which a dependent dropped before is refused again, under another code |
| `QueueRuns.DismissedForGood` | crates/client/src/settlement05.rs:753-787 | once a refused call is dismissed its refusal is final: after any further steps it is the same, and no drop and no acknowledgement reports it again |
| `Promises.WaitsForPrerequisite` | crates/client/src/mutation_queue.rs:321-335 | over any run from its submission a call is in no Batch until a step resolves each of its prerequisites |
| `Promises.SentAsSubmitted` | crates/client/src/mutation_queue.rs:105-305 | whenever a call is in the open Batch, the request has its name, version, descriptor and exactly its inputs, in order, as submitted |
| `Promises.SentAfterwards` | crates/client/src/mutation_queue.rs:321-335 | over any run a call submitted after another, by lifecycle or by a sequence, is in no Batch before that one is settled |
| `Promises.RefusedTogether` | crates/client/src/settlement05.rs:160-195 | over any run a call submitted after another by lifecycle is refused whenever that one is |
| `Promises.RefusedExactly` | crates/client/src/settlement05.rs:164-187 | what is refused with some calls is exactly what lifecycle edges alone lead to, each initial code kept, every other one `dependency.rejected` |
| `Promises.DroppedExactly` | crates/client/src/settlement05.rs:701-727 | a drop refuses the call as `dropped`, what follows it by lifecycle as `dependency.rejected`, and nothing else |
| `Promises.AcknowledgedExactly` | crates/client/src/settlement05.rs:136-152 | each result of an applied acknowledgement is its call's outcome, with its own receipt or code |
| `MutationQueue.Table.ReconstructBatch` | crates/client/src/mutation_queue.rs:202-305 | rebuilds the request from the member rows, or names what is missing or changed |
| `MutationQueue.Table.FreezeBatch` | crates/client/src/mutation_queue.rs:306-354 | is one freezing step of the run with its answer |
| `MutationQueue.Table.RejectOwned` | crates/client/src/settlement05.rs:160-194 | refuses the closure and answers one completion for each call in it |
| `MutationQueue.Table.AcknowledgeBatch` | crates/client/src/settlement05.rs:74-159 | is one acknowledging step of the run; the completions are the refusals it made |
| `MutationQueue.Table.ReplayAck` | crates/client/src/settlement05.rs:82-101 | compares the member rows in order; the first one answered otherwise decides the error |
| `MutationQueue.Table.CancelUnsent` | crates/client/src/settlement05.rs:701-727 | only a call never assigned to a Batch can be dropped, a settled one is left alone; the completions are those of everything refused with it |
| `MutationQueue.Table.DismissRejection` | crates/client/src/settlement05.rs:753-787 | only a completed refusal is dismissed, and its operations, prerequisites and edges go |
| `MutationQueue.Table.DeriveLifecycle` | crates/client/src/policies.rs:24-44 | the lifecycle predecessors are exactly the live calls that send a create of a record an operation references, or a delete of the record it creates |
| `MutationQueue.TwoCallsDerived` | crates/client/src/policies.rs:24-44 | in that run the dependent is given exactly the predecessors derived from what it writes |
| `MutationQueue.Table.EnqueueCall` | crates/client/src/mutation_queue.rs:105-196 | stores the call unassigned with its derived predecessors; a sequence predecessor that is one by lifecycle keeps that one edge |
| `MutationQueue.Table.Settle` | crates/client/src/settlement05.rs:357-367 | settles exactly an accepted call not settled before |
| `MutationQueue.Table.StoreOwned` | crates/client/src/queue.rs:147-154 | only a live call takes another local operation, at its next step |
| `Outbox.AcceptAllWaits` | bindings/common/src/actor.rs:76-98 | after any events the queue holds every other event in order, the first 4096 trace records since the last drain in order, and a count of the rest |
| `Outbox.PublishHolds` | bindings/common/src/actor.rs:71-100 | publishing keeps that account, so the capacity subtraction never underflows |
| `Outbox.DrainDelivers` | bindings/common/src/actor.rs:110-126 | a drain delivers that account and leaves nothing |
| `Outbox.Buffer.Publish` | bindings/common/src/actor.rs:71-100 | only a non-empty batch that finds no wake pending has to notify |
| `Outbox.Buffer.Drain` | bindings/common/src/actor.rs:110-126 | delivers everything published since the last drain, less the records counted as dropped |
| `Wakes.NoLostWake` | bindings/common/src/actor.rs:71-126 | in every interleaving, while events or loss counts wait and the sink is attached, a wake is pending and either a publisher is about to call the sink or it was called since the last drain |
| `Wakes.WakeCanHappen` | bindings/common/src/actor.rs:101-108 | from any such state not yet woken at most two steps call the sink |
| `Wakes.TakenStaysQuiet` | bindings/common/src/actor.rs:101-108 | with the sink taken no call of it is running and none ever starts, over every run |
| `Wakes.NoWakeAfterDetach` | bindings/common/src/actor.rs:366-383 | over every run from an open runtime, once any detach has returned - having taken the sink, found it taken, or no longer found the runtime - no sink call is running and none ever starts |
| `Wakes.DetachCanReturn` | bindings/common/src/actor.rs:366-383 | from every reachable state in which no sink call is running, one more detach can return by its own steps |
| `Wakes.Conservation` | bindings/common/src/actor.rs:71-126 | over every run the other events delivered and queued are the ones published, in order, every trace record and loss is accounted for, and at most 4096 records are retained |
| `Broker.RefreshBroker.Filter` | bindings/common/src/actor.rs:951-989 | filters the events one after another |
| `Broker.UnaskedPass` | bindings/common/src/actor.rs:951-989 | events that have nothing to do with a refresh pass the filter, all of them, in order |
| `Broker.SingleFlight` | bindings/common/src/actor.rs:947-996 | with distinct effect ids at most one host refresh is outstanding, and one is exactly while somebody waits |
| `Broker.AnsweredOnce` | bindings/common/src/actor.rs:947-996 | every effect that asked is in exactly one answer, unless it waits or was cancelled while it waited; then it is in none |
| `Broker.AnswerReachesAllWaiting` | bindings/common/src/actor.rs:990-996 | the host's answer goes to everyone who asked and neither left nor was answered |
| `Broker.HostCancelledWithLastWaiter` | bindings/common/src/actor.rs:971-984 | the host effect is cancelled if and only if its last waiter is |
| `Broker.StrandedExactly` | bindings/common/src/actor.rs:951-989 | over every run with distinct requests and any cancellations, waiters are without a host refresh if and only if some cancellation named the current flight's host after it had left |
| `Broker.RepeatedCancelStrands` | bindings/common/src/actor.rs:971-984 | such a run |
| `Journal.MergeCoversExactly` | crates/client/src/changes.rs:38-49 | a merged journal covers what either covers and, when a model has keys in both and more than 4096 of them together, every record of that model |
| `Journal.MergeCommutes` | crates/client/src/changes.rs:38-49 | merging is the same in either order |
| `Journal.MergeAssociates` | crates/client/src/changes.rs:38-49 | and however commits are grouped |
| `Journal.ModelChanges.Record` | crates/client/src/changes.rs:25-36 | a key joins its model's entry, which becomes a full refresh past 4096 keys |
| `Journal.ModelChanges.Merge` | crates/client/src/changes.rs:38-49 | a model is refreshed in full if either says so or the keys together pass the bound, in whatever order keys come |
| `Sessions.Client.WriteRow` | crates/client/src/engine.rs:63-79 | a statement that affected a row covers it |
| `Sessions.Client.WriteModel` | crates/client/src/engine.rs:51-62 | a statement without a record identity covers the whole model |
| `Sessions.Client.Submit` | crates/client/src/mutation_queue.rs:363-375 | the ordinal, reused or not, is queued and belongs to the transaction |
| `Sessions.Client.TakesCompanion` | crates/client/src/frontend_interface.rs:607-613 | what the transaction itself admits: exactly a call queued in it, not rolled back, and not finished since |
| `Sessions.Client.Savepoint` | crates/client/src/frontend_interface.rs:337-352 | remembers the whole level |
| `Sessions.Client.Release` | crates/client/src/frontend_interface.rs:353-363 | forgets one savepoint and changes nothing else |
| `Sessions.Client.RollbackSavepoint` | crates/client/src/frontend_interface.rs:364-380 | rows, queue, ordinals, journal and submitted calls return to the savepoint |
| `Sessions.Client.CommitSession` | crates/client/src/frontend_interface.rs:302-326 | every record whose visible row differs between begin and commit is covered, whatever savepoints were released and rolled back; an unclosed savepoint rolls everything back |
| `Sessions.Client.TakeChanges` | crates/client/src/runtime/observers.rs:483 | the journal taken covers every difference committed since it was last taken |
| `OneTable.TableOpsExactly` | crates/client/src/mutation_queue.rs:110-181 | each entry with a record is submitted to the tables at the place of the records before it, a companion as such and an input as a wire operation |
| `OneTable.ItemsExactly` | crates/client/src/mutation_queue.rs:110-181 | the rows of a new call with an input path are its inputs, in order; those without are its companions, and before each operation the deletes of what its own delete took along, in order |
| `OneTable.AppendAllExactly` | crates/client/src/queue.rs:147-154 | rows stored for a pending call take its next steps in order, without input paths; its earlier rows and every other call stay |
| `OneTable.ItemsWires` | crates/client/src/mutation_queue.rs:110-181 | what a new call sends is, in order, what it submits to the row tables as wire operations: companions and cascades have no input path, values no record |
| `OneTable.AcknowledgeLeaves` | crates/client/src/settlement05.rs:74-159 | an acknowledgement lets exactly the calls it refuses go; its accepted members, and every other pending call, send what they sent |
| `OneTable.StayTogether` | crates/client/src/mutation_queue.rs:65-201 | steps that let the same calls go in both layers, and submit and change nothing that is sent, keep the layers together |
| `OneTable.OpenSendsItsRows` | crates/client/src/mutation_queue.rs:202-305 | after any runs of both layers that are together, the wire rows of a member of the open Batch write exactly the records its inputs in the request do, in order |
| `OneTable.FrozenRowsStay` | crates/client/src/mutation_queue.rs:202-320 | and until the Batch is acknowledged, whatever both layers do, its request is rebuilt equal and those rows say the same |
| `Joined.Store.Enqueue` | crates/client/src/mutation_queue.rs:65-201 | one ordinal for both layers: the rows go to the tables, each operation after its cascade, and the items to the queue; refused, with nothing changed, only by an exhausted counter or an operation that conflicts; no truth moves |
| `Joined.Store.AppendCompanion` | crates/client/src/mutate.rs:393-417 | accepted if and only if the queue has the call in no Batch, it is the latest, no independent write followed, and the operation applies; its rows - its deletes, then itself - take the next steps of the call in both layers, and nothing sent changes |
| `Joined.Store.DirectWrite` | crates/client/src/mutate.rs:474-510 | a direct write moves exactly its truths and touches no call of either layer |
| `Joined.Store.FreezeBatch` | crates/client/src/mutation_queue.rs:306-354 | every call in the answered request pends in the tables, and its wire rows write exactly the records its inputs do, in order |
| `Joined.Store.FrozenRowsKept` | crates/client/src/mutation_queue.rs:306-320 | whatever the store does until the Batch is acknowledged, its request stays the same and its calls' wire rows write what it says |
| `Joined.Store.RejectOwned` | crates/client/src/settlement05.rs:160-195 | what the queue refuses stops pending in the tables, what it touched is rebuilt with its reports, every truth stays, and a record left without pending calls shows it |
| `Joined.Store.CancelUnsent` | crates/client/src/settlement05.rs:701-727 | a drop refuses the same closure in both layers, and does nothing in either when the call was sent or settled |
| `Joined.Store.AcknowledgeBatch` | crates/client/src/settlement05.rs:74-159 | an acknowledgement refuses the closure of its refused members in both layers, and its accepted members go on pending in both |
| `Joined.Store.SettleReady` | crates/client/src/settlement05.rs:252-370 | an accepted call is settled in both layers, or in neither; a record it wrote only as owned companions, and no cascade reached, shows what it showed |
| `Joined.Store.InstallAuthority` | crates/client/src/settlement05.rs:419-427 | the changes are staged in turn, what they left held is rebuilt with its reports, and no call of either layer is touched |

## Left out

- The rows of argument inputs in the row layer, which have no record; the queue layer has them.
- Store and unique-index failures, and with them the second attempt of a rebuild with the fallback row. What the transient removal of changed rows hides from a search is in `Engine.Tables.StageChanges`.
- `current` and membership in a record's evidence, and which admission follows from it: a staged position and its newness are inputs, and evidence is the largest admitted position.
- Cached reads (`stage_cache05`): the parent check needs the deletions kept in evidence; what is staged is a newer row at no new position.
- The order in which SQL returns children of a deleted record; any order is allowed, the set is exact.
- `preview_callback`, a transient view inside a savepoint that is always rolled back by its owner.
- Creation defaults, descriptor lookups, and the normalization of operations, which are taken normalized.
- Validation of results and snapshots against retained descriptors in an acknowledgement, and the form of rejection codes and digests.
- Errors recorded on prerequisites; a prerequisite is there or resolved.
- Schema migration beyond the change of the active materialization, and the reset of a store.
- Physical failures of commit, rollback and savepoints, the generation fence, and table watchers.
- The panic guard around the wake sink, the closed flag, and sending the close input to the actor.
- Cascade.DescendantsWhere: records are admitted by a set fixed before the search, which the source's test amounts to, since a search changes no evidence.
- Rebuilding.RebuildShowsReplay: the second attempt with the fallback row when the store refuses the projected one (crates/client/src/mutate.rs:254-256).
- Engine.Tables.RebuildRow: the same second attempt.
- Engine.Tables.Enqueue: argument rows, defaults and the normalization of operations.
- Engine.Tables.AppendCompanion: whether the call is unsent is told by the caller; `Joined.Store.AppendCompanion` reads it from the queue.
- Engine.Tables.RetainCompanions: the reset of the records' current evidence (crates/client/src/settlement05.rs:354).
- Engine.Tables.SettleCall: readiness and dispositions are inputs, and the same reset.
- Engine.Tables.StageChanges: which changes are admitted, and how, are inputs, and they come in the order they are installed in; the reset of the children's current evidence.
- Engine.Tables.InstallChange: the admission is an input, and the same reset.
- The rows a cascade extension adds (crates/client/src/mutate.rs:364-377) are, in the joined store, in the row tables and not among the queue's items; without an input path they are never sent.
- Joined.Store.Enqueue: defaults, the normalization of operations and descriptor lookups, as in both layers.
- Joined.Store.SettleReady: readiness and dispositions are inputs, and one call is settled in a transaction; `Runs.SettlementsInvisible` is about any number in one.
- Joined.Store.InstallAuthority: admission is an input, and calls that become ready are settled by `Joined.Store.SettleReady` in transactions of their own.
- Receipts.AppliesExactly: the validation of results and snapshots against retained descriptors (crates/client/src/settlement05.rs:109-135).
- MutationQueue.Table.ReconstructBatch: the checks of stored inputs against descriptors and slots (crates/client/src/mutation_queue.rs:219-281).
- MutationQueue.Table.AcknowledgeBatch: the same validation; the rebuild and its reports are in `Joined.Store.AcknowledgeBatch`.
- MutationQueue.Table.RejectOwned: the records to rebuild, which are in `Joined.Store.RejectOwned`.
- MutationQueue.Table.DeriveLifecycle: where a stored relation points is an input.
- MutationQueue.Table.EnqueueCall: the pending calls a sequence policy names are an input; what it stores is joined with the row tables in `Joined.Store.Enqueue`.
- Sessions.Client.TakesCompanion: that the call is the latest, unsent and followed by no independent write, which is in `Joined.Store.AppendCompanion`.
- Sessions.Client.CommitSession: the generation fence and a failing commit (crates/client/src/frontend_interface.rs:311-318).
