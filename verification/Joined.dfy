/** The client's store: both layers in one transaction. A call pends in the row tables exactly while it
    pends in the queue, and its rows there are what the queue sends of it. */
module Joined {
  import opened Rows
  import opened History
  import opened Replica
  import opened OneTable
  import Batches
  import Calls
  import Cascade
  import Engine
  import LocalSteps
  import MutationQueue
  import QueueRuns
  import Runs
  import Settlement

  class Store {
    const tables: Engine.Tables
    const queue: MutationQueue.Table

    /** The calls the tables replay are exactly the ones pending in the queue, submitted as they are sent. */
    ghost predicate Valid()
      reads this, tables, queue
    {
      && tables.Valid() && queue.Valid() && tables.held == {}
      && tables.nextOrdinal == queue.next
      && Coupled(tables.live, queue.View())
      && Tied(tables.actions, queue.View())
    }

    constructor (schema: Schema, store: string, materialization: string)
      requires Cascade.Related(schema)
      ensures Valid() && fresh(tables) && fresh(queue) && tables.schema == schema
      ensures tables.View() == EMPTY_STORE && queue.View() == QueueRuns.EmptyQueue(store, materialization)
    {
      tables := new Engine.Tables(schema);
      queue := new MutationQueue.Table(store, materialization);
    }

    /** Nothing either layer recorded is rewritten. */
    twostate predicate Grew()
      reads this, tables, queue
    {
      old(tables.actions) <= tables.actions && old(queue.actions) <= queue.actions
    }

    /** The tables started, ended and sent nothing. */
    twostate predicate SentNothing()
      reads this, tables
    {
      && old(tables.actions) <= tables.actions && tables.nextOrdinal == old(tables.nextOrdinal)
      && forall id :: Runs.SubmittedWires(tables.actions, id) == Runs.SubmittedWires(old(tables.actions), id)
    }

    /** Every record's truth is what it was, and one left without pending calls shows it. */
    twostate predicate ShowsTruth()
      requires Stored(tables.schema, tables.View()) && old(Stored(tables.schema, tables.View()))
      reads this, tables
    {
      forall k :: var truth := old(Truth(tables.schema, tables.View(), {}, k));
        && Truth(tables.schema, tables.View(), {}, k) == truth
        && (!Dirty(tables.View(), k) ==> Get(tables.main, k) == truth)
    }

    // --------------------------------------------------------------- queuing

    /** Queue one call, once in each layer under one ordinal, or nowhere: its rows, each operation after
        its cascade, and what it sends of them. Only an exhausted counter or an operation that conflicts
        refuses it. */
    method Enqueue(name: string, version: nat, descriptor: string, entries: seq<Entry>, targets: seq<set<Key>>,
                   sequences: set<nat>, requirements: set<string>)
      returns (ok: bool, ordinal: nat, ghost draft: Calls.Draft, ghost blocks: seq<seq<Key>>, ghost cuts: seq<nat>)
      requires Valid() && forall e :: e in TableOps(entries) ==> Normalized(tables.schema, e.1)
      requires |targets| == |Engine.WireOf(TableOps(entries))|
      requires forall id :: id in sequences ==> Calls.Live(queue.View(), id)
      modifies tables, queue
      ensures Valid() && Grew() && tables.KeptTruth()
      ensures ordinal == old(queue.next)
      ensures ok ==> queue.View() == Calls.Enqueue(old(queue.View()), draft).0
      ensures ok ==> tables.live == old(tables.live) + {ordinal}
      ensures ok ==> |blocks| == |TableOps(entries)| && draft.items == ItemsFor(entries, blocks)
      ensures ok ==> draft.sequence == sequences - draft.lifecycle && draft.prerequisites == requirements
      ensures ok ==> forall id :: id in draft.lifecycle <==>
        MutationQueue.Derives(old(queue.View()), id, Engine.WireOf(TableOps(entries)), targets)
      ensures ok ==> QueuedRows(old(tables.actions), cuts, ordinal, entries, blocks)
      ensures ok ==> Runs.Sends(tables.ops, ordinal, Engine.WireOf(TableOps(entries)))
      ensures !ok ==> tables.View() == old(tables.View()) && queue.View() == old(queue.View())
      ensures !ok ==>
        || old(queue.next) + 1 > Calls.MAX_SAFE_INTEGER
        || Engine.Refused(tables.schema, old(tables.configs), old(tables.actions), ordinal, TableOps(entries))
    {
      ok, ordinal, blocks, cuts := false, queue.next, [], [];
      draft := Calls.Draft(name, version, descriptor, [], {}, {}, {});
      if queue.next + 1 > Calls.MAX_SAFE_INTEGER {
        return;
      }
      var children;
      ok, ordinal, children, cuts := tables.Enqueue(TableOps(entries));
      if ok {
        blocks := children;
        draft := QueueItems(name, version, descriptor, entries, children, targets, sequences, requirements,
                            old(tables.configs), old(tables.actions), cuts);
      }
    }

    /** The run's last steps store exactly the call's rows. */
    ghost predicate QueuedRows(actions0: seq<Runs.Action>, cuts: seq<nat>, ordinal: nat, entries: seq<Entry>,
                               blocks: seq<seq<Key>>)
      reads this, tables
    {
      && actions0 + [Runs.Action.Allocate] <= tables.actions && cuts != [] && cuts[0] == |actions0| + 1
      && Engine.CallSteps(tables.schema, tables.configs, tables.actions, cuts, ordinal, TableOps(entries), blocks)
    }

    /** The queue's half of a call whose rows are in the tables. */
    method QueueItems(name: string, version: nat, descriptor: string, entries: seq<Entry>, children: seq<seq<Key>>,
                      targets: seq<set<Key>>, sequences: set<nat>, requirements: set<string>,
                      ghost configs0: seq<Runs.Config>, ghost actions0: seq<Runs.Action>, ghost cuts: seq<nat>)
      returns (ghost draft: Calls.Draft)
      requires tables.Valid() && tables.held == {} && queue.Valid() && queue.next + 1 <= Calls.MAX_SAFE_INTEGER
      requires |children| == |TableOps(entries)| && |targets| == |Engine.WireOf(TableOps(entries))|
      requires forall id :: id in sequences ==> Calls.Live(queue.View(), id)
      requires Runs.Run(tables.schema, configs0, actions0) && configs0[0] == Runs.Config(EMPTY_STORE, {})
      requires var s := configs0[|actions0|].s;
        && Coupled(s.live, queue.View()) && Tied(actions0, queue.View()) && s.nextOrdinal == queue.next
        && tables.live == s.live + {queue.next} && tables.nextOrdinal == queue.next + 1
      requires QueuedRows(actions0, cuts, queue.next, entries, children)
      modifies queue
      ensures Valid() && old(queue.actions) <= queue.actions
      ensures queue.View() == Calls.Enqueue(old(queue.View()), draft).0 && draft.items == ItemsFor(entries, children)
      ensures draft.sequence == sequences - draft.lifecycle && draft.prerequisites == requirements
      ensures forall id :: id in draft.lifecycle <==>
        MutationQueue.Derives(old(queue.View()), id, Engine.WireOf(TableOps(entries)), targets)
      ensures Runs.Sends(tables.ops, old(queue.next), Engine.WireOf(TableOps(entries)))
    {
      var items := ItemsFor(entries, children);
      ItemsWires(entries, children);
      ghost var q := queue.View();
      var reply;
      reply, draft := queue.EnqueueCall(name, version, descriptor, items, targets, sequences, requirements);
      EnqueuedTogether(configs0, actions0, q, draft, cuts, entries, children);
      Runs.PendingSendsWhatWasSubmitted(tables.schema, tables.configs, tables.actions, q.next);
    }

    ghost method EnqueuedTogether(configs0: seq<Runs.Config>, actions0: seq<Runs.Action>, q: Calls.Queue,
                                  draft: Calls.Draft, cuts: seq<nat>, entries: seq<Entry>, blocks: seq<seq<Key>>)
      requires tables.Valid() && Batches.Inv(q) && q.next + 1 <= Calls.MAX_SAFE_INTEGER
      requires Runs.Run(tables.schema, configs0, actions0) && configs0[0] == Runs.Config(EMPTY_STORE, {})
      requires Coupled(configs0[|actions0|].s.live, q) && Tied(actions0, q)
      requires configs0[|actions0|].s.nextOrdinal == q.next
      requires QueuedRows(actions0, cuts, q.next, entries, blocks)
      requires MutationQueue.WireOps(draft.items) == Engine.WireOf(TableOps(entries))
      ensures var t := Calls.Enqueue(q, draft).0;
        Coupled(configs0[|actions0|].s.live + {q.next}, t) && Tied(tables.actions, t)
      ensures Runs.SubmittedWires(tables.actions, q.next) == Engine.WireOf(TableOps(entries))
    {
      var wires := Engine.WireOf(TableOps(entries));
      Runs.PendingSendsWhatWasSubmitted(tables.schema, configs0, actions0, q.next);
      forall id: nat
        ensures Runs.SubmittedWires(tables.actions, id) ==
          Runs.SubmittedWires(actions0, id) + if id == q.next then wires else []
      {
        Engine.EnqueuedWires(tables.schema, actions0, tables.configs, tables.actions, cuts, q.next, TableOps(entries),
                             blocks, id);
      }
      EnqueueTogether(q, draft, configs0[|actions0|].s.live, actions0, tables.actions, wires);
    }

    /** A companion joins the latest call while the queue has not assigned it to a Batch: its rows in the
        tables and, without input paths, in the queue. */
    method AppendCompanion(ordinal: nat, op: Operation) returns (ok: bool, ghost children: seq<Key>)
      requires Valid() && Normalized(tables.schema, op)
      modifies tables, queue
      ensures Valid() && Grew() && tables.KeptTruth()
      ensures ok <==> (ordinal in old(queue.calls) && old(queue.calls[ordinal]).batch.None?
                       && Latest(old(tables.View()), ordinal) && Accepts(Get(old(tables.main), op.key), op))
      ensures ok ==> var more := tables.actions[|old(tables.actions)|..];
        Engine.InOrder(tables.schema, old(tables.View()), more, ordinal, Companion, Companion, op, children)
      ensures queue.View() == if ok then AppendAll(old(queue.View()), ordinal, CompanionOps(children, op))
                              else old(queue.View())
      ensures ok ==> AppendedTo(old(queue.calls), queue.calls, ordinal, children, op)
      ensures !ok ==> tables.View() == old(tables.View())
    {
      var unsent := ordinal in queue.calls && queue.calls[ordinal].batch.None?;
      var below;
      ok, below := tables.AppendCompanion(ordinal, unsent, op);
      children := below;
      if ok {
        StoreCompanion(ordinal, below, op);
        CompanionTogether(tables.schema, old(tables.View()), old(queue.View()), queue.View(), old(tables.actions),
                          tables.actions, ordinal, op, below);
      }
    }

    method StoreCompanion(ordinal: nat, children: seq<Key>, op: Operation)
      requires queue.Valid() && Calls.Live(queue.View(), ordinal)
      modifies queue
      ensures queue.Valid() && old(queue.actions) <= queue.actions
      ensures queue.View() == AppendAll(old(queue.View()), ordinal, CompanionOps(children, op))
      ensures AppendedTo(old(queue.calls), queue.calls, ordinal, children, op)
      ensures Leaves(old(queue.View()), queue.View(), {})
    {
      var ops := CompanionOps(children, op);
      var i := 0;
      while i < |ops|
        invariant 0 <= i <= |ops| && queue.Valid() && old(queue.actions) <= queue.actions
        invariant queue.View() == AppendAll(old(queue.View()), ordinal, ops[..i])
      {
        assert ops[..i + 1][..i] == ops[..i];
        var stored := queue.StoreOwned(ordinal, Calls.Written(ops[i]));
        i := i + 1;
      }
      assert ops[..i] == ops;
      CompanionStored(old(queue.View()), ordinal, children, op, queue.View());
      AppendAllLeaves(old(queue.View()), ordinal, ops);
    }

    /** A write that is never sent touches no call. */
    method DirectWrite(op: Operation) returns (ok: bool)
      requires Valid() && Normalized(tables.schema, op)
      modifies tables
      ensures Valid() && Grew() && SentNothing()
      ensures ok <==> Accepts(Get(old(tables.main), op.key), op)
      ensures ok ==> forall k :: Engine.DirectTruth(tables.schema, old(tables.View()), op, tables.View(), k)
      ensures !ok ==> tables.View() == old(tables.View())
    {
      ok := tables.DirectWrite(op);
      Engine.QuietLeaves(tables.schema, old(tables.configs), old(tables.actions), tables.configs, tables.actions);
      SameLeaves(queue.View());
      StayTogether(queue.View(), queue.View(), {}, tables.live, tables.live, old(tables.actions), tables.actions);
    }

    // --------------------------------------------------------------- sending

    /** The open Batch, or the ready calls as the next one: the wire rows of every call in the request
        write exactly the records its inputs do, in order. */
    method FreezeBatch() returns (reply: Calls.Reply<Option<Calls.Request>>)
      requires Valid()
      modifies queue
      ensures Valid() && Grew()
      ensures (queue.View(), reply) == Calls.Freeze(old(queue.View()))
      ensures reply.Done? && reply.value.Some? ==>
        reply.value.value == Calls.Rebuilt(queue.View(), queue.last + 1) && SendsItsRows(reply.value.value)
    {
      ghost var q := queue.View();
      reply := queue.FreezeBatch();
      FreezeLeaves(q);
      StayTogether(q, queue.View(), {}, tables.live, tables.live, tables.actions, tables.actions);
      if reply.Done? && reply.value.Some? { FrozenSends(q, reply.value.value); }
    }

    lemma FrozenSends(q: Calls.Queue, request: Calls.Request)
      requires Valid() && Batches.Inv(q) && Calls.Freeze(q) == (queue.View(), Calls.Done(Some(request)))
      ensures request == Calls.Rebuilt(queue.View(), queue.last + 1) && SendsItsRows(request)
    {
      QueueRuns.FrozenOpen(q, queue.View(), request);
      OpenSends();
    }

    ghost predicate SendsItsRows(request: Calls.Request)
      reads this, tables
    {
      forall m :: m in request.mutations ==> m.id in tables.live && Runs.Sends(tables.ops, m.id, WrittenOps(m.inputs))
    }

    lemma OpenSends()
      requires Valid()
      ensures SendsItsRows(Calls.Rebuilt(queue.View(), queue.last + 1))
    {
      var q := queue.View();
      forall m | m in Calls.Rebuilt(q, q.last + 1).mutations
        ensures m.id in tables.live && Runs.Sends(tables.ops, m.id, WrittenOps(m.inputs))
      {
        FrozenMember(q, m);
        OpenSendsItsRows(tables.schema, tables.configs, tables.actions, q, m);
      }
    }

    /** Until the Batch is acknowledged, whatever the store does, its request stays the same and its calls'
        wire rows write what it says. */
    twostate lemma FrozenRowsKept(request: Calls.Request)
      requires old(Valid()) && Valid() && Grew() && queue.last == old(queue.last)
      requires request == old(Calls.Rebuilt(queue.View(), queue.last + 1)) && request.mutations != []
      ensures Calls.Rebuilt(queue.View(), queue.last + 1) == request && SendsItsRows(request)
    {
      var start := QueueRuns.EmptyQueue(queue.store, queue.start);
      var steps := queue.actions[|old(queue.actions)|..];
      assert queue.actions == old(queue.actions) + steps;
      QueueRuns.AfterConcat(start, old(queue.actions), steps);
      RequestStays(old(queue.View()), steps, request.mutations[0]);
      OpenSends();
    }

    // ------------------------------------------------ refusals and settlements

    /** The records in hand are rebuilt and the queued deletes extended: nothing starts, ends or is sent. */
    method RebuildHeld(keys: set<Key>) returns (reports: map<Key, nat>)
      requires tables.Valid() && keys == tables.held
      modifies tables
      ensures tables.Valid() && tables.held == {} && tables.KeptTruth() && tables.Refreshed()
      ensures SentNothing() && tables.live == old(tables.live)
      ensures Engine.Reports(tables.schema, old(tables.View()), keys, reports)
    {
      ghost var list, cuts;
      reports, list, cuts := tables.RebuildHeld(keys);
      Engine.RefreshIsQuiet(tables.actions, |old(tables.actions)|);
      Engine.QuietLeaves(tables.schema, old(tables.configs), old(tables.actions), tables.configs, tables.actions);
    }

    /** What is refused in the queue is refused in the tables, and its records are rebuilt. */
    method RejectOwned(refused: map<nat, Calls.Refusal>) returns (reports: map<Key, nat>)
      requires tables.Valid() && tables.held == {}
      modifies tables
      ensures tables.Valid() && tables.held == {} && ShowsTruth() && SentNothing()
      ensures tables.live == old(tables.live) - refused.Keys
      ensures Rebuilt(tables.schema, old(tables.View()), refused.Keys, reports)
    {
      var keys := tables.RejectCalls(refused.Keys, {});
      UnsentStep(old(tables.actions), Runs.Action.Reject(refused.Keys));
      reports := RebuildHeld(keys);
      forall k | !Dirty(tables.View(), k)
        ensures Get(tables.main, k) == Truth(tables.schema, tables.View(), {}, k)
      {
        CleanShowsTruth(tables.schema, tables.View(), k);
      }
    }

    /** `RejectOwned` where the queue's step came to it, and nothing otherwise. */
    method RejectIf(applied: bool, refused: map<nat, Calls.Refusal>) returns (reports: map<Key, nat>)
      requires tables.Valid() && tables.held == {} && (!applied ==> refused == map[])
      modifies tables
      ensures tables.Valid() && tables.held == {} && ShowsTruth() && SentNothing()
      ensures tables.live == old(tables.live) - refused.Keys
      ensures applied ==> Rebuilt(tables.schema, old(tables.View()), refused.Keys, reports)
      ensures !applied ==> reports == map[] && tables.View() == old(tables.View())
    {
      if applied {
        reports := RejectOwned(refused);
      } else {
        reports := map[];
        forall k | !Dirty(tables.View(), k) ensures Get(tables.main, k) == Truth(tables.schema, tables.View(), {}, k) {
          CleanShowsTruth(tables.schema, tables.View(), k);
        }
      }
    }

    /** Drop or discard an unsent call: it and everything that follows it stop pending in both layers. */
    method CancelUnsent(id: nat, dismiss: bool)
      returns (reply: Calls.Reply<()>, completed: map<nat, Calls.Refusal>, reports: map<Key, nat>)
      requires Valid()
      modifies tables, queue
      ensures Valid() && Grew() && ShowsTruth()
      ensures (queue.View(), reply) == Calls.Cancel(old(queue.View()), id, dismiss)
      ensures completed == Cancelled(old(queue.View()), id)
      ensures tables.live == old(tables.live) - completed.Keys
      ensures if MutationQueue.Cancellable(old(queue.View()), id)
              then Rebuilt(tables.schema, old(tables.View()), completed.Keys, reports)
              else reports == map[] && tables.View() == old(tables.View())
    {
      var applied := id in queue.calls && queue.calls[id].batch.None? && !queue.calls[id].reconciled;
      reply, completed := queue.CancelUnsent(id, dismiss);
      CancelLeaves(old(queue.View()), id, dismiss);
      reports := RejectIf(applied, completed);
      StayTogether(old(queue.View()), queue.View(), completed.Keys, old(tables.live), tables.live, old(tables.actions),
                   tables.actions);
    }

    /** Acknowledge a Batch: its refused members, and everything that follows them, stop pending in both
        layers; its accepted members go on pending in both until they settle. */
    method AcknowledgeBatch(ack: Calls.Ack)
      returns (reply: Calls.Reply<()>, completed: map<nat, Calls.Refusal>, reports: map<Key, nat>)
      requires Valid()
      modifies tables, queue
      ensures Valid() && Grew() && ShowsTruth()
      ensures (queue.View(), reply) == Calls.Acknowledge(old(queue.View()), ack)
      ensures completed == Refused(old(queue.View()), ack)
      ensures tables.live == old(tables.live) - completed.Keys
      ensures if reply.Done? && ack.batch > old(queue.last)
              then Rebuilt(tables.schema, old(tables.View()), completed.Keys, reports)
              else reports == map[] && tables.View() == old(tables.View())
    {
      var last := queue.last;
      reply, completed := queue.AcknowledgeBatch(ack);
      AcknowledgeLeaves(old(queue.View()), ack);
      reports := RejectIf(reply.Done? && ack.batch > last, completed);
      StayTogether(old(queue.View()), queue.View(), completed.Keys, old(tables.live), tables.live, old(tables.actions),
                   tables.actions);
    }

    /** Settle an accepted call, on the targets of its receipt: it stops pending in both layers, or in
        neither when a target to finalize was never written. A record it wrote only as owned companions,
        and no cascade reached, shows what it showed. */
    method SettleReady(id: nat, finals: map<Key, Change>) returns (ok: bool)
      requires Valid() && id in queue.calls && queue.calls[id].acceptance.Some?
      requires var targets := TargetKeys(queue.calls[id].acceptance.value);
        Settlement.CanSettle(tables.schema, tables.View(), id, targets, finals)
      modifies tables, queue
      ensures Valid() && Grew()
      ensures ok <==> forall k :: k in finals ==> Settlement.OwnsTarget(old(tables.ops), id, k)
      ensures tables.live == if ok then old(tables.live) - {id} else old(tables.live)
      ensures queue.View() == if ok then Calls.Reconcile(old(queue.View()), id) else old(queue.View())
      ensures !ok ==> tables.View() == old(tables.View())
      ensures ok ==> ShownStays(id, TargetKeys(old(queue.calls[id]).acceptance.value))
    {
      var targets := set t | t in queue.calls[id].acceptance.value.targets :: t.key;
      assert targets == TargetKeys(queue.calls[id].acceptance.value);
      ok := SettleRows(id, targets, finals);
      if ok {
        ReconcileLeaves(old(queue.View()), id);
        var settled := queue.Settle(id);
        StayTogether(old(queue.View()), queue.View(), {id}, old(tables.live), tables.live, old(tables.actions),
                     tables.actions);
      }
    }

    /** What a settlement shows: the row of every record that replayed, was touched by the call only
        through owned companions, and was given no cascade's delete since, is as it was. */
    twostate predicate ShownStays(id: nat, targets: set<Key>)
      requires old(tables.Valid()) && old(tables.actions) <= tables.actions
      reads this, tables
    {
      forall k :: Settlement.OnlyCompanions(old(tables.View()), id, targets, k)
        && old(Replays(tables.schema, tables.View(), k)) && !Extends(tables.actions, |old(tables.actions)|, k)
        ==> Get(tables.main, k) == Get(old(tables.main), k)
    }

    method SettleRows(id: nat, targets: set<Key>, finals: map<Key, Change>) returns (ok: bool)
      requires tables.Valid() && tables.held == {}
      requires Settlement.CanSettle(tables.schema, tables.View(), id, targets, finals)
      modifies tables
      ensures tables.Valid() && tables.held == {} && SentNothing()
      ensures ok <==> forall k :: k in finals ==> Settlement.OwnsTarget(old(tables.ops), id, k)
      ensures tables.live == if ok then old(tables.live) - {id} else old(tables.live)
      ensures !ok ==> tables.View() == old(tables.View())
      ensures ok ==> ShownStays(id, targets)
    {
      var keys;
      ok, keys := tables.SettleCall(id, targets, finals, {});
      if ok {
        ghost var a := Runs.Action.Settle(id, targets, finals);
        UnsentStep(old(tables.actions), a);
        var reports := RebuildHeld(keys);
        forall k | Settlement.OnlyCompanions(old(tables.View()), id, targets, k)
            && old(Replays(tables.schema, tables.View(), k)) && !Extends(tables.actions, |old(tables.actions)|, k)
          ensures Get(tables.main, k) == Get(old(tables.main), k)
        {
          SettledShows(tables.schema, old(tables.configs), old(tables.actions), a, tables.configs, tables.actions, k);
        }
      }
    }

    // -------------------------------------------------------------- authority

    /** Admitted changes go under the pending work in turn, and what has pending work is rebuilt, with a
        report for each record that no longer replays; no call is touched. */
    method InstallAuthority(changes: seq<Engine.Admitted>)
      returns (reports: map<Key, nat>, ghost blocks: seq<seq<Key>>, ghost cuts: seq<nat>)
      requires Valid() && forall c :: c in changes ==>
        Identified(tables.schema, c.key) && TotalState(tables.schema, c.key, c.incoming)
      modifies tables
      ensures Valid() && Grew() && SentNothing() && tables.live == old(tables.live)
      ensures |cuts| == |changes| + 1 && cuts[0] == |old(tables.actions)|
      ensures Installed(changes, blocks, cuts, reports)
    {
      reports, blocks, cuts := InstallRows(changes);
      SameLeaves(queue.View());
      StayTogether(queue.View(), queue.View(), {}, tables.live, tables.live, old(tables.actions), tables.actions);
    }

    method InstallRows(changes: seq<Engine.Admitted>)
      returns (reports: map<Key, nat>, ghost blocks: seq<seq<Key>>, ghost cuts: seq<nat>)
      requires tables.Valid() && tables.held == {}
      requires forall c :: c in changes ==>
        Identified(tables.schema, c.key) && TotalState(tables.schema, c.key, c.incoming)
      modifies tables
      ensures tables.Valid() && tables.held == {} && SentNothing() && tables.live == old(tables.live)
      ensures |cuts| == |changes| + 1 && cuts[0] == |old(tables.actions)|
      ensures Installed(changes, blocks, cuts, reports)
    {
      var keys;
      keys, blocks, cuts := tables.StageChanges(changes, {});
      Engine.QuietLeaves(tables.schema, old(tables.configs), old(tables.actions), tables.configs, tables.actions);
      ghost var configs, actions := tables.configs, tables.actions;
      reports := RebuildHeld(keys);
      assert tables.configs[..cuts[|changes|] + 1] == configs && tables.actions[..cuts[|changes|]] == actions;
    }

    /** The run's last steps stage the changes and refresh what is held after them. */
    ghost predicate Installed(changes: seq<Engine.Admitted>, blocks: seq<seq<Key>>, cuts: seq<nat>,
                              reports: map<Key, nat>)
      reads this, tables
    {
      && |cuts| == |changes| + 1
      && var end := cuts[|changes|];
      && end < |tables.configs| && Engine.RefreshFrom(tables.actions, end)
      && Engine.StageSteps(tables.schema, tables.configs[..end + 1], tables.actions[..end], cuts, changes, |changes|,
                           blocks)
      && var staged := tables.configs[end];
      && Stored(tables.schema, staged.s) && Engine.Reports(tables.schema, staged.s, staged.held, reports)
    }

    // ------------------------------------------------------------ the queue alone

    method DismissRejection(id: nat) returns (reply: Calls.Reply<()>)
      requires Valid()
      modifies queue
      ensures Valid() && Grew()
      ensures (queue.View(), reply) == Calls.Dismiss(old(queue.View()), id)
    {
      ghost var q := queue.View();
      reply := queue.DismissRejection(id);
      DismissLeaves(q, id);
      StayTogether(q, queue.View(), {}, tables.live, tables.live, tables.actions, tables.actions);
    }

    method ResolveRequirement(key: string)
      requires Valid()
      modifies queue
      ensures Valid() && Grew() && queue.View() == Calls.Resolve(old(queue.View()), key)
    {
      ghost var q := queue.View();
      queue.ResolveRequirement(key);
      ResolveLeaves(q, key);
      StayTogether(q, queue.View(), {}, tables.live, tables.live, tables.actions, tables.actions);
    }
  }

  /** The call takes the deletes of what a companion's own delete took along and then the companion, at its
      next steps and without input paths; no other call changes. */
  ghost predicate AppendedTo(calls0: map<nat, Calls.Call>, calls: map<nat, Calls.Call>, id: nat, children: seq<Key>,
                             op: Operation) {
    && id in calls0 && id in calls && (forall other :: other != id ==> Get(calls, other) == Get(calls0, other))
    && AppendedRows(calls0[id].items, calls[id].items, children, op)
  }

  ghost predicate AppendedRows(had: seq<Calls.Item>, now: seq<Calls.Item>, children: seq<Key>, op: Operation) {
    && |now| == |had| + |children| + 1 && now[..|had|] == had
    && (forall i :: 0 <= i < |children| ==>
      now[|had| + i] == Calls.Item(|had| + i, None, Calls.Written(Operation(children[i], Delete))))
    && now[|now| - 1] == Calls.Item(|now| - 1, None, Calls.Written(op))
  }

  lemma CompanionTogether(schema: Schema, s: State, q: Calls.Queue, u: Calls.Queue, actions0: seq<Runs.Action>,
                          actions: seq<Runs.Action>, ordinal: nat, op: Operation, children: seq<Key>)
    requires Coupled(s.live, q) && Tied(actions0, q) && Leaves(q, u, {}) && actions0 <= actions
    requires Engine.InOrder(schema, s, actions[|actions0|..], ordinal, Companion, Companion, op, children)
    ensures Coupled(s.live, u) && Tied(actions, u)
  {
    Engine.CompanionWires(schema, s, actions0, actions, ordinal, op, children);
    StayTogether(q, u, {}, s.live, s.live, actions0, actions);
  }

  lemma CompanionStored(q: Calls.Queue, id: nat, children: seq<Key>, op: Operation, u: Calls.Queue)
    requires Calls.Live(q, id) && u == AppendAll(q, id, CompanionOps(children, op))
    ensures AppendedTo(q.calls, u.calls, id, children, op)
  {
    AppendAllExactly(q, id, CompanionOps(children, op));
    var ops, had, now := CompanionOps(children, op), q.calls[id].items, u.calls[id].items;
    assert now[|had| + |children|] == Calls.Item(|had| + |children|, None, Calls.Written(ops[|children|]));
    forall i | 0 <= i < |children|
      ensures now[|had| + i] == Calls.Item(|had| + i, None, Calls.Written(Operation(children[i], Delete)))
    {
      assert ops[i] == Operation(children[i], Delete);
    }
  }

  /** The records a receipt names. */
  ghost function TargetKeys(acceptance: Calls.Acceptance): set<Key> {
    set t | t in acceptance.targets :: t.key
  }

  /** The records the refused calls touched were rebuilt, each report the first call left that fails. */
  ghost predicate Rebuilt(schema: Schema, s: State, ids: set<nat>, reports: map<Key, nat>)
    requires Stored(schema, s)
  {
    && Stored(schema, LocalSteps.Reject(s, ids))
    && Engine.Reports(schema, LocalSteps.Reject(s, ids), LocalSteps.Touched(s, ids), reports)
  }

  ghost predicate Replays(schema: Schema, s: State, k: Key)
    requires Stored(schema, s)
  {
    Dirty(s, k) ==> Replay(Get(s.before, k), Hist(schema, s, k)).Replayed?
  }

  /** A cascade deleted the record since. */
  predicate Extends(actions: seq<Runs.Action>, n: nat, k: Key) {
    exists i :: n <= i < |actions| && actions[i].Extend? && actions[i].child == k
  }

  lemma SettledShows(schema: Schema, configs0: seq<Runs.Config>, actions0: seq<Runs.Action>, a: Runs.Action,
                     configs: seq<Runs.Config>, actions: seq<Runs.Action>, k: Key)
    requires Runs.Run(schema, configs0, actions0) && Runs.Run(schema, configs, actions)
    requires configs0 <= configs && actions0 + [a] <= actions && a.Settle?
    requires var c := configs0[|actions0|]; Inv(schema, c.s, {}) && c.held == {} && Replays(schema, c.s, k)
    requires Settlement.OnlyCompanions(configs0[|actions0|].s, a.id, a.targets, k)
    requires Engine.RefreshFrom(actions, |actions0| + 1) && !Extends(actions, |actions0|, k)
    ensures Get(configs[|actions|].s.main, k) == Get(configs0[|actions0|].s.main, k)
  {
    var n := |actions0|;
    Runs.RunSuffix(schema, configs, actions, n);
    var cs, more := configs[n..], actions[n..];
    forall i | 0 <= i < |more| ensures Runs.Spares(cs[i].s, more[i], k) {
      assert more[i] == actions[n + i];
      if i == 0 { assert actions[n] == a && cs[0] == configs0[n]; }
    }
    Runs.SettlementsInvisible(schema, cs, more, k);
  }

  /** A record without pending calls shows its truth. */
  lemma CleanShowsTruth(schema: Schema, s: State, k: Key)
    requires Inv(schema, s, {}) && !Dirty(s, k)
    ensures Get(s.main, k) == Truth(schema, s, {}, k)
  {
    CleanUnheld(schema, s, {}, k);
  }
}
