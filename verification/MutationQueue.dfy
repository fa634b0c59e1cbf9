/** The queue tables as the client changes them. Every change is a step of `QueueRuns`, so what holds
    after every run holds of every queue. */
module MutationQueue {
  import opened Rows
  import opened Calls
  import opened Batches
  import opened Sending
  import opened Receipts
  import opened QueueRuns
  import opened Refusing

  class Table {
    const store: string
    ghost const start: string
    var materialization: string
    var calls: map<nat, Call>
    var edges: map<(nat, nat), EdgeKind>
    var prerequisites: set<(nat, string)>
    var last: nat
    var next: nat
    ghost var actions: seq<Action>

    ghost function View(): Queue
      reads this
    {
      Queue(store, materialization, calls, edges, prerequisites, last, next)
    }

    ghost predicate Valid()
      reads this
    {
      View() == After(EmptyQueue(store, start), actions) && Inv(View())
    }

    constructor (store: string, materialization: string)
      ensures Valid() && View() == EmptyQueue(store, materialization) && start == materialization && actions == []
    {
      this.store, start, this.materialization := store, materialization, materialization;
      calls, edges, prerequisites, last, next := map[], map[], {}, 0, 1;
      actions := [];
      new;
      EmptyInv(store, materialization);
    }

    ghost method Record(q: Queue, a: Action)
      requires q == After(EmptyQueue(store, start), actions) && Inv(q) && View() == Step(q, a)
      modifies this`actions
      ensures Valid() && actions == old(actions) + [a]
    {
      StepKeeps(q, a);
      assert (actions + [a])[..|actions|] == actions;
      actions := actions + [a];
    }

    // ------------------------------------------------------ rebuilding a request

    /** The members in order of their ids, each with the inputs it sends. */
    method ReconstructBatch(batch: nat) returns (reply: Reply<Request>)
      requires forall id :: id in calls ==> id < next
      ensures reply == Reconstruct(View(), batch)
    {
      var mutations, context, found := [], None, false;
      var id := 0;
      while id < next
        invariant 0 <= id <= next
        invariant mutations == MutationsBelow(View(), batch, id) && context == ContextBelow(View(), batch, id)
        invariant found <==> exists i :: 0 <= i < id && Member(View(), batch, i)
      {
        if id in calls && calls[id].batch == Some(batch) {
          assert Member(View(), batch, id);
          mutations := mutations + [Sent(id, calls[id])];
          if context.None? {
            context := calls[id].materialization;
          }
          found := true;
        }
        id := id + 1;
      }
      assert found <==> !Empty(View(), batch);
      if !found {
        return Failed(UnknownBatch);
      }
      if context.None? {
        return Failed(ContextMissing);
      }
      var request := Request(batch, context.value, mutations);
      if exists i :: i in calls && calls[i].batch == Some(batch) && Changed(calls[i], request) {
        return Failed(DigestChanged);
      }
      return Done(request);
    }

    // -------------------------------------------------------------------- freeze

    /** `MIN(batch_id)` of the calls past the last acknowledged Batch. */
    method EarliestOpen() returns (open: Option<nat>)
      ensures open.Some? ==> OpenBatch(View(), open.value)
      ensures open.None? ==> forall batch, id :: !Assigned(View(), batch, id)
    {
      open := None;
      var rest := calls.Keys;
      while rest != {}
        invariant rest <= calls.Keys
        invariant open.Some? ==> exists id :: Assigned(View(), open.value, id)
        invariant forall id, b :: id !in rest && Assigned(View(), b, id) ==> open.Some? && open.value <= b
      {
        var id :| id in rest;
        rest := rest - {id};
        if calls[id].batch.Some? && calls[id].batch.value > last && (open.None? || calls[id].batch.value < open.value) {
          assert Assigned(View(), calls[id].batch.value, id);
          open := calls[id].batch;
        }
      }
    }

    /** Ids the freeze query selects. */
    method SelectReady() returns (ready: set<nat>)
      ensures ready == ReadyCalls(View())
    {
      ready := set id | id in calls
        && !calls[id].reconciled && calls[id].refusal.None? && calls[id].batch.None?
        && (forall p :: p in prerequisites ==> p.0 != id)
        && forall e :: e in edges && e.0 == id && e.1 in calls ==>
          calls[e.1].reconciled && (edges[e] == Lifecycle ==> calls[e.1].refusal.None?);
      forall id | id in calls ensures id in ready <==> Ready(View(), id) {
        assert forall e :: e in edges && e.0 == id ==> e == (id, e.1);
      }
    }

    /** The ready calls join the Batch, row by row. */
    method AssignAll(ready: set<nat>, batch: nat)
      requires ready <= calls.Keys
      modifies this`calls
      ensures View() == Assign(old(View()), ready, batch)
    {
      var rest := ready;
      while rest != {}
        invariant rest <= ready && ready <= calls.Keys == old(calls.Keys)
        invariant calls == Assign(old(View()), ready - rest, batch).calls
      {
        var id :| id in rest;
        rest := rest - {id};
        calls := calls[id := calls[id].(batch := Some(batch), materialization := Some(materialization))];
      }
      assert ready - {} == ready;
    }

    method AssignBatch(ready: set<nat>) returns (reply: Reply<Option<Request>>)
      requires ready <= calls.Keys && forall id :: id in calls ==> id < next
      modifies this`calls
      ensures var taken := Assign(old(View()), ready, last + 1);
        match Reconstruct(taken, last + 1)
        case Failed(p) => View() == old(View()) && reply == Failed(p)
        case Done(request) => View() == Seal(taken, last + 1, request) && reply == Done(Some(request))
    {
      var saved := calls;
      AssignAll(ready, last + 1);
      var request := ReconstructBatch(last + 1);
      match request {
        case Failed(p) =>
          calls := saved;
          return Failed(p);
        case Done(value) =>
          calls := map id | id in calls ::
            if calls[id].batch == Some(last + 1) then calls[id].(digest := Some(value)) else calls[id];
          return Done(Some(value));
      }
    }

    /** The open Batch again, or the ready calls as the next one, once every assigned call is settled. */
    method FreezeBatch() returns (reply: Reply<Option<Request>>)
      requires Valid()
      modifies this
      ensures Valid() && actions == old(actions) + [Freezing]
      ensures (View(), reply) == Freeze(old(View()))
    {
      ghost var q := View();
      IdsBelow(q);
      reply := FreezeTables();
      Record(q, Freezing);
    }

    method FreezeTables() returns (reply: Reply<Option<Request>>)
      requires forall id :: id in calls ==> id < next
      modifies this`calls
      ensures (View(), reply) == Freeze(old(View()))
    {
      var open := EarliestOpen();
      if open.Some? {
        forall b | OpenBatch(View(), b) ensures b == open.value { OpenOnce(View(), b, open.value); }
        var request := ReconstructBatch(open.value);
        return match request case Done(value) => Done(Some(value)) case Failed(p) => Failed(p);
      }
      assert forall b :: !OpenBatch(View(), b);
      if id :| id in calls && calls[id].batch.Some? && !calls[id].reconciled {
        assert Unsettled(View(), id);
        return Done(None);
      }
      assert forall id :: !Unsettled(View(), id);
      var ready := SelectReady();
      if ready == {} {
        return Done(None);
      }
      if last + 1 > MAX_SAFE_INTEGER {
        return Failed(CounterExhausted);
      }
      reply := AssignBatch(ready);
    }

    // ------------------------------------------------------------------ refusals

    method LifecycleRows() returns (dependencies: seq<(nat, nat)>)
      ensures Listed(edges, dependencies)
    {
      dependencies := [];
      var rest := set e | e in edges && edges[e] == Lifecycle;
      ghost var all := rest;
      while rest != {}
        invariant rest <= all && forall d :: d in dependencies <==> d in all - rest
      {
        var e :| e in rest;
        rest := rest - {e};
        dependencies := dependencies + [e];
      }
    }

    /** Refuse some calls and everything that follows from them. Answers each refusal's completion. */
    method RejectOwned(initial: map<nat, Refusal>) returns (completed: map<nat, Refusal>)
      modifies this`calls
      ensures completed == Refusals(edges, initial)
      ensures View() == Refuse(old(View()), Refusals(edges, initial))
    {
      var dependencies := LifecycleRows();
      completed := RejectClosure(edges, dependencies, initial);
      RefuseRows(completed);
    }

    method RefuseRows(rejected: map<nat, Refusal>)
      modifies this`calls
      ensures View() == Refuse(old(View()), rejected)
    {
      var rest := rejected.Keys;
      while rest != {}
        invariant rest <= rejected.Keys && calls.Keys == old(calls.Keys)
        invariant calls == Refuse(old(View()), rejected - rest).calls
      {
        var id :| id in rest;
        rest := rest - {id};
        if id in calls {
          calls := calls[id := calls[id].(refusal := Some(rejected[id]), reconciled := true)];
        }
      }
      assert rejected - {} == rejected;
    }

    // ----------------------------------------------------------- acknowledgement

    /** A Batch already acknowledged: every member row must carry what the acknowledgement says. */
    method ReplayAck(ack: Ack) returns (reply: Reply<()>)
      requires ValidAck(ack)
      ensures reply == Replayed(View(), ack)
    {
      var members := set id | id in calls && calls[id].batch == Some(ack.batch);
      assert members == MemberIds(View(), ack.batch);
      if |members| != |ack.results| || members == {} {
        return Failed(UnknownAcknowledged);
      }
      var id := 0;
      reply := Done(());
      while id < next && reply.Done?
        invariant 0 <= id <= next && reply == ReplayedBelow(View(), ack, id)
        decreases next - id
      {
        if id in calls && calls[id].batch == Some(ack.batch) {
          reply := ReplayRow(ack, id);
        }
        id := id + 1;
      }
      if reply.Failed? { ReplayStops(View(), ack, id, next); }
    }

    method ReplayRow(ack: Ack, id: nat) returns (reply: Reply<()>)
      requires ValidAck(ack) && id in calls
      ensures reply == if !Answered(ack, id) then Failed(MembershipMismatch)
                       else if !Repeats(View(), ack, id) then Failed(ReplayDiffers)
                       else Done(())
    {
      var at := FirstResult(ack.results, id);
      if at == |ack.results| {
        return Failed(MembershipMismatch);
      }
      assert ack.results[at] in ack.results;
      if calls[id].digest != Some(ack.digest) || calls[id].materialization != Some(ack.materialization)
         || OutcomeOf(calls[id]) != Some(ack.results[at].outcome) {
        return Failed(ReplayDiffers);
      }
      return Done(());
    }

    /** Accepted members get their outcomes; the refused ones are collected. */
    method StoreOutcomes(results: seq<MutationResult>) returns (rejected: map<nat, Refusal>)
      requires forall i, j :: 0 <= i < j < |results| ==> results[i].id != results[j].id
      requires forall r :: r in results ==> r.id in calls
      modifies this`calls
      ensures View() == Accept(old(View()), results) && rejected == RefusedIn(results)
    {
      rejected := map[];
      var i := 0;
      assert calls == Accept(View(), results[..0]).calls;
      while i < |results|
        invariant 0 <= i <= |results| && OutcomesStored(old(View()), results[..i], calls, rejected)
      {
        assert results[i] in results;
        OutcomesNext(old(View()), results, i, calls, rejected);
        rejected := StoreOutcome(results[i], rejected);
        i := i + 1;
      }
      assert results[..i] == results;
    }

    method StoreOutcome(r: MutationResult, rejected0: map<nat, Refusal>) returns (rejected: map<nat, Refusal>)
      requires r.id in calls
      modifies this`calls
      ensures calls == WithOutcome(old(calls), r) && rejected == WithRefusal(rejected0, r)
    {
      rejected := rejected0;
      match r.outcome {
        case Accepted(acceptance) => calls := calls[r.id := calls[r.id].(acceptance := Some(acceptance))];
        case Rejected(refusal) => rejected := rejected[r.id := refusal];
      }
    }

    method AcknowledgeBatch(ack: Ack) returns (reply: Reply<()>, completed: map<nat, Refusal>)
      requires Valid()
      modifies this
      ensures Valid() && actions == old(actions) + [Acknowledging(ack)]
      ensures (View(), reply) == Acknowledge(old(View()), ack)
      ensures completed ==
        if reply.Done? && ack.batch > old(last) then Refusals(old(edges), RefusedIn(ack.results)) else map[]
    {
      ghost var q := View();
      IdsBelow(q);
      reply, completed := AcknowledgeTables(ack);
      Record(q, Acknowledging(ack));
    }

    method AcknowledgeTables(ack: Ack) returns (reply: Reply<()>, completed: map<nat, Refusal>)
      requires forall id :: id in calls ==> id < next
      modifies this`calls, this`last
      ensures (View(), reply) == Acknowledge(old(View()), ack)
      ensures completed ==
        if reply.Done? && ack.batch > old(last) then Refusals(old(edges), RefusedIn(ack.results)) else map[]
    {
      completed := map[];
      if !ValidAck(ack) {
        return Failed(InvalidAck), completed;
      }
      if ack.store != store {
        return Failed(StoreMismatch), completed;
      }
      if ack.batch <= last {
        reply := ReplayAck(ack);
        return;
      }
      if ack.batch != last + 1 {
        return Failed(Skipped), completed;
      }
      var request := ReconstructBatch(ack.batch);
      if request.Failed? {
        return Failed(request.problem), completed;
      }
      reply := ValidateAgainst(request.value, ack);
      if reply.Done? {
        completed := ApplyOutcomes(ack, request.value);
      }
    }

    method ValidateAgainst(request: Request, ack: Ack) returns (reply: Reply<()>)
      ensures reply ==
        if ack.materialization != request.materialization || ack.digest != request then Failed(Mismatch)
        else if (set m | m in request.mutations :: m.id) != ResultIds(ack) then Failed(MembershipMismatch)
        else if !TargetsSupplied(request, ack) then Failed(TargetMissing)
        else Done(())
    {
      if ack.materialization != request.materialization || ack.digest != request {
        return Failed(Mismatch);
      }
      var expected := set m | m in request.mutations :: m.id;
      var actual := set r | r in ack.results :: r.id;
      if expected != actual {
        return Failed(MembershipMismatch);
      }
      if !TargetsSupplied(request, ack) {
        return Failed(TargetMissing);
      }
      return Done(());
    }

    method ApplyOutcomes(ack: Ack, ghost request: Request) returns (completed: map<nat, Refusal>)
      requires ValidAck(ack) && request == Rebuilt(View(), ack.batch) && RequestIds(request) == ResultIds(ack)
      modifies this`calls, this`last
      ensures View() == Settled(old(View()), ack)
      ensures completed == Refusals(edges, RefusedIn(ack.results))
    {
      forall r | r in ack.results ensures r.id in calls {
        assert r.id in RequestIds(request);
        var m :| m in request.mutations && m.id == r.id;
        MutationsFromMembers(View(), ack.batch, next, m);
      }
      var rejected := StoreOutcomes(ack.results);
      completed := RejectOwned(rejected);
      last := ack.batch;
    }

    // ------------------------------------------------------------------- enqueue

    /** The live calls an operation follows by lifecycle: one that creates a record it references, or
        deletes the record it creates. `targets` are the records its stored relations point to. */
    method PredecessorsOf(op: Operation, targets: set<Key>) returns (lifecycle: set<nat>)
      ensures forall id :: id in lifecycle <==> Live(View(), id) && PrecedesIn(calls[id].items, op, targets)
    {
      lifecycle := {};
      var rest := calls.Keys;
      while rest != {}
        invariant rest <= calls.Keys
        invariant forall id :: id in lifecycle <==>
          id !in rest && Live(View(), id) && PrecedesIn(calls[id].items, op, targets)
      {
        var id :| id in rest;
        rest := rest - {id};
        if !calls[id].reconciled && calls[id].refusal.None? {
          var precedes := AnyPrecedes(calls[id].items, op, targets);
          if precedes {
            lifecycle := lifecycle + {id};
          }
        }
      }
    }

    method DeriveLifecycle(ops: seq<Operation>, targets: seq<set<Key>>) returns (lifecycle: set<nat>)
      requires |targets| == |ops|
      ensures forall id :: id in lifecycle <==> Derives(View(), id, ops, targets)
    {
      lifecycle := {};
      var i := 0;
      while i < |ops|
        invariant 0 <= i <= |ops|
        invariant forall id :: id in lifecycle <==> DerivedBy(View(), id, ops, targets, i)
      {
        var more := PredecessorsOf(ops[i], targets[i]);
        lifecycle := lifecycle + more;
        i := i + 1;
      }
      forall id: nat { DerivesIs(View(), id, ops, targets); }
    }

    /** Queue one call. Its lifecycle predecessors are derived from what it writes; `sequences` are the
        pending calls its policy puts it after, and one that already precedes it by lifecycle keeps
        that one edge. */
    method EnqueueCall(name: string, version: nat, descriptor: string, items: seq<(Option<string>, Payload)>,
                       targets: seq<set<Key>>,
                       sequences: set<nat>, requirements: set<string>) returns (reply: Reply<nat>, ghost draft: Draft)
      requires Valid() && |targets| == |WireOps(items)| && forall id :: id in sequences ==> Live(View(), id)
      modifies this
      ensures Valid() && actions == old(actions) + [Submit(draft)]
      ensures (View(), reply) == Enqueue(old(View()), draft)
      ensures draft.name == name && draft.version == version && draft.descriptor == descriptor
      ensures draft.items == items && draft.prerequisites == requirements
      ensures forall id :: id in draft.lifecycle <==> Derives(old(View()), id, WireOps(items), targets)
      ensures draft.sequence == sequences - draft.lifecycle
    {
      ghost var q := View();
      var lifecycle := DeriveLifecycle(WireOps(items), targets);
      draft := Draft(name, version, descriptor, items, lifecycle, sequences - lifecycle, requirements);
      reply := InsertCall(name, version, descriptor, items, lifecycle, sequences - lifecycle, requirements, draft);
      Record(q, Submit(draft));
    }

    method InsertCall(name: string, version: nat, descriptor: string, items: seq<(Option<string>, Payload)>,
                      lifecycle: set<nat>, sequence: set<nat>, requirements: set<string>, ghost draft: Draft)
      returns (reply: Reply<nat>)
      requires draft == Draft(name, version, descriptor, items, lifecycle, sequence, requirements)
      requires lifecycle !! sequence
      modifies this`calls, this`edges, this`prerequisites, this`next
      ensures (View(), reply) == Enqueue(old(View()), draft)
    {
      if next + 1 > MAX_SAFE_INTEGER {
        return Failed(CounterExhausted);
      }
      var id := next;
      next := next + 1;
      var call := Call(name, version, descriptor, Numbered(items), None, None, None, None, None, false, false);
      calls := calls[id := call];
      StoreBoth(id, lifecycle, sequence, draft);
      prerequisites := prerequisites + set k | k in requirements :: (id, k);
      return Done(id);
    }

    method StoreBoth(id: nat, lifecycle: set<nat>, sequence: set<nat>, ghost draft: Draft)
      requires draft.lifecycle == lifecycle && draft.sequence == sequence && lifecycle !! sequence
      modifies this`edges
      ensures edges == old(edges) + NewEdges(id, draft)
    {
      StoreEdges(id, lifecycle, Lifecycle);
      StoreEdges(id, sequence, Sequence);
      EdgesTogether(old(edges), id, lifecycle, sequence, draft);
    }

    method StoreEdges(id: nat, deps: set<nat>, kind: EdgeKind)
      modifies this`edges
      ensures edges == old(edges) + OneKind(id, deps, kind)
    {
      var rest := deps;
      while rest != {}
        invariant rest <= deps && edges == old(edges) + OneKind(id, deps - rest, kind)
      {
        var dep :| dep in rest;
        rest := rest - {dep};
        edges := edges[(id, dep) := kind];
      }
      assert deps - {} == deps;
    }

    // --------------------------------------------------- cancelling and settling

    method DismissTables(id: nat) returns (reply: Reply<()>)
      modifies this`calls, this`edges, this`prerequisites
      ensures (View(), reply) == Dismiss(old(View()), id)
      ensures reply.Done? <==> (id in old(calls) ==> old(calls)[id].refusal.Some? && old(calls)[id].reconciled)
      ensures reply.Done? && id in old(calls) ==> Dismissed(old(View()), View(), id)
      ensures !reply.Done? ==> View() == old(View())
    {
      if id !in calls {
        return Done(());
      }
      if calls[id].refusal.None? || !calls[id].reconciled {
        return Failed(RejectionRequired);
      }
      calls := calls[id := calls[id].(dismissed := true, items := [])];
      prerequisites := set p | p in prerequisites && p.0 != id;
      edges := map e | e in edges && e.0 != id && e.1 != id :: edges[e];
      return Done(());
    }

    method DismissRejection(id: nat) returns (reply: Reply<()>)
      requires Valid()
      modifies this
      ensures Valid() && actions == old(actions) + [Dismissing(id)]
      ensures (View(), reply) == Dismiss(old(View()), id)
      ensures reply.Done? <==> (id in old(calls) ==> old(calls)[id].refusal.Some? && old(calls)[id].reconciled)
      ensures reply.Done? && id in old(calls) ==> Dismissed(old(View()), View(), id)
      ensures !reply.Done? ==> View() == old(View())
    {
      ghost var q := View();
      reply := DismissTables(id);
      Record(q, Dismissing(id));
    }

    /** Only a call that was never assigned to a Batch can be dropped. Answers the completion of every
        call refused with it, again of those that had been refused before. */
    method CancelUnsent(id: nat, dismiss: bool) returns (reply: Reply<()>, completed: map<nat, Refusal>)
      requires Valid()
      modifies this
      ensures Valid() && actions == old(actions) + [Cancelling(id, dismiss)]
      ensures (View(), reply) == Cancel(old(View()), id, dismiss)
      ensures reply == if id !in old(calls) then Failed(UnknownMutation)
                       else if old(calls)[id].batch.Some? then Failed(PossiblySent)
                       else Done(())
      ensures completed == if Cancellable(old(View()), id) then Refusals(old(edges), map[id := DROPPED]) else map[]
    {
      ghost var q := View();
      CancelReply(q, id, dismiss);
      reply, completed := CancelTables(id, dismiss);
      Record(q, Cancelling(id, dismiss));
    }

    method CancelTables(id: nat, dismiss: bool) returns (reply: Reply<()>, completed: map<nat, Refusal>)
      modifies this`calls, this`edges, this`prerequisites
      ensures (View(), reply) == Cancel(old(View()), id, dismiss)
      ensures completed == if Cancellable(old(View()), id) then Refusals(old(edges), map[id := DROPPED]) else map[]
    {
      completed := map[];
      if id !in calls {
        return Failed(UnknownMutation), completed;
      }
      if calls[id].batch.Some? {
        return Failed(PossiblySent), completed;
      }
      if calls[id].reconciled {
        return Done(()), completed;
      }
      completed := RejectOwned(map[id := DROPPED]);
      reply := Done(());
      if dismiss {
        reply := DismissTables(id);
      }
    }

    /** An accepted call whose targets have what they wait for is settled and its operations go. */
    method Settle(id: nat) returns (settled: bool)
      requires Valid()
      modifies this
      ensures Valid() && actions == old(actions) + [Settling(id)] && View() == Reconcile(old(View()), id)
      ensures forall other :: other != id ==> Get(calls, other) == Get(old(calls), other)
      ensures settled ==> id in calls && calls[id] == old(calls)[id].(reconciled := true, items := [])
      ensures settled <==> id in old(calls) && old(calls[id]).acceptance.Some? && !old(calls[id]).reconciled
    {
      ghost var q := View();
      settled := id in calls && calls[id].acceptance.Some? && !calls[id].reconciled;
      if settled {
        calls := calls[id := calls[id].(reconciled := true, items := [])];
      }
      Record(q, Settling(id));
    }

    method ResolveRequirement(key: string)
      requires Valid()
      modifies this
      ensures Valid() && actions == old(actions) + [ResolvePrerequisite(key)] && View() == Resolve(old(View()), key)
    {
      ghost var q := View();
      prerequisites := set p | p in prerequisites && p.1 != key;
      Record(q, ResolvePrerequisite(key));
    }

    /** A companion or effect of a pending call takes its next step. */
    method StoreOwned(id: nat, payload: Payload) returns (stored: bool)
      requires Valid()
      modifies this
      ensures Valid() && actions == old(actions) + [StoreLocal(id, payload)]
      ensures View() == AppendLocal(old(View()), id, payload)
      ensures stored <==> Live(old(View()), id)
      ensures stored ==> id in calls && var items := old(calls)[id].items;
        calls[id] == old(calls)[id].(items := items + [Item(|items|, None, payload)])
    {
      ghost var q := View();
      stored := id in calls && !calls[id].reconciled && calls[id].refusal.None?;
      if stored {
        var items := calls[id].items;
        calls := calls[id := calls[id].(items := items + [Item(|items|, None, payload)])];
      }
      Record(q, StoreLocal(id, payload));
    }
  }

  /** The refused call is marked; its operations, its prerequisites and every edge that names it are gone,
      and nothing else is. */
  ghost predicate Dismissed(q: Queue, t: Queue, id: nat) {
    && id in q.calls && id in t.calls && t.calls[id] == q.calls[id].(dismissed := true, items := [])
    && (forall other :: other != id ==> Get(t.calls, other) == Get(q.calls, other))
    && (forall p :: p in t.prerequisites <==> p in q.prerequisites && p.0 != id)
    && forall e :: Get(t.edges, e) == if e.0 == id || e.1 == id then None else Get(q.edges, e)
  }

  /** The operations of a call that are sent. */
  function WireOps(items: seq<(Option<string>, Payload)>): seq<Operation> {
    if items == [] then []
    else
      var last := items[|items| - 1];
      WireOps(items[..|items| - 1]) + if last.0.Some? && last.1.Written? then [last.1.op] else []
  }

  /** `previous` creates a record `op` references, or deletes the one it creates. */
  predicate Precedes(previous: Operation, op: Operation, targets: set<Key>) {
    || (previous.change.Create? && (previous.key == op.key || previous.key in targets))
    || (previous.change.Delete? && op.change.Create? && previous.key == op.key)
  }

  predicate PrecedesIn(items: seq<Item>, op: Operation, targets: set<Key>) {
    exists item :: item in items && item.path.Some? && item.payload.Written? && Precedes(item.payload.op, op, targets)
  }

  /** The call pends, and sends the create of a record one of the operations writes or refers to, or the
      delete of a record one of them creates. */
  ghost predicate Derives(q: Queue, id: nat, ops: seq<Operation>, targets: seq<set<Key>>)
    requires |targets| == |ops|
  {
    && id in q.calls && !q.calls[id].reconciled && q.calls[id].refusal.None?
    && exists i, item :: 0 <= i < |ops| && item in q.calls[id].items && item.path.Some? && item.payload.Written?
        && match item.payload.op.change
           case Create(_) => item.payload.op.key == ops[i].key || item.payload.op.key in targets[i]
           case Delete => ops[i].change.Create? && item.payload.op.key == ops[i].key
           case Update(_) => false
  }

  /** The same, among the first `n` of them. */
  ghost predicate DerivedBy(q: Queue, id: nat, ops: seq<Operation>, targets: seq<set<Key>>, n: nat)
    requires n <= |ops| == |targets|
  {
    Live(q, id) && exists i :: 0 <= i < n && PrecedesIn(q.calls[id].items, ops[i], targets[i])
  }

  lemma DerivesIs(q: Queue, id: nat, ops: seq<Operation>, targets: seq<set<Key>>)
    requires |targets| == |ops|
    ensures Derives(q, id, ops, targets) <==> DerivedBy(q, id, ops, targets, |ops|)
  {
  }

  /** The predecessors of the two calls of `TWO_CALLS` are the derived ones. */
  lemma TwoCallsDerived()
    ensures WireOps(UPDATES.items) == [Operation(RECORD, Update(map[]))]
    ensures var q := After(EmptyQueue("store", "materialization"), TWO_CALLS[..1]);
      forall id :: Derives(q, id, WireOps(UPDATES.items), [{}]) <==> id in UPDATES.lifecycle
  {
    var q0, ops := EmptyQueue("store", "materialization"), [Operation(RECORD, Update(map[]))];
    var q1 := q0.(calls := map[1 := NewCall(CREATES)], next := 2);
    assert UPDATES.items[..0] == [];
    assert TWO_CALLS[..1] == [] + [Submit(CREATES)];
    AfterNext(q0, [], Submit(CREATES));
    FirstSubmitted(q0, q1);
    var created := Operation(RECORD, Create(map[]));
    assert q1.calls[1].items == [Item(0, Some("input"), Written(created))];
    assert Precedes(created, ops[0], {}) && q1.calls[1].items[0] in q1.calls[1].items;
    assert PrecedesIn(q1.calls[1].items, ops[0], [{}][0]);
    assert Derives(q1, 1, ops, [{}]);
  }

  method AnyPrecedes(items: seq<Item>, op: Operation, targets: set<Key>) returns (precedes: bool)
    ensures precedes <==> PrecedesIn(items, op, targets)
  {
    precedes := false;
    var i := 0;
    while i < |items|
      invariant 0 <= i <= |items|
      invariant precedes <==> PrecedesIn(items[..i], op, targets)
    {
      assert items[..i + 1] == items[..i] + [items[i]];
      if items[i].path.Some? && items[i].payload.Written? && Precedes(items[i].payload.op, op, targets) {
        precedes := true;
      }
      i := i + 1;
    }
    assert items[..i] == items;
  }

  function OneKind(id: nat, deps: set<nat>, kind: EdgeKind): map<(nat, nat), EdgeKind> {
    map dep | dep in deps :: (id, dep) := kind
  }

  lemma EdgesTogether(edges: map<(nat, nat), EdgeKind>, id: nat, lifecycle: set<nat>, sequence: set<nat>, d: Draft)
    requires d.lifecycle == lifecycle && d.sequence == sequence && lifecycle !! sequence
    ensures edges + OneKind(id, lifecycle, Lifecycle) + OneKind(id, sequence, Sequence) == edges + NewEdges(id, d)
  {
  }

  predicate Cancellable(q: Queue, id: nat) {
    id in q.calls && q.calls[id].batch.None? && !q.calls[id].reconciled
  }

  /** A call that was not sent is dropped, and discarded where asked, without failing. */
  lemma CancelReply(q: Queue, id: nat, dismiss: bool)
    ensures Cancel(q, id, dismiss).1 == if id !in q.calls then Failed(UnknownMutation)
                                        else if q.calls[id].batch.Some? then Failed(PossiblySent)
                                        else Done(())
  {
    if Cancellable(q, id) {
      Batches.ClosureGrows(q.edges, (map[id := DROPPED]).Keys);
      Batches.RefuseColumns(q, Refusals(q.edges, map[id := DROPPED]), id);
    }
  }

  lemma IdsBelow(q: Queue)
    requires Inv(q)
    ensures forall id :: id in q.calls ==> id < q.next
  {
    forall id | id in q.calls ensures id < q.next { assert CallOk(q, id, q.calls[id]); }
  }

  lemma OpenOnce(q: Queue, a: nat, b: nat)
    requires OpenBatch(q, a) && OpenBatch(q, b)
    ensures a == b
  {
    var i :| Assigned(q, a, i);
    var j :| Assigned(q, b, j);
  }

  lemma {:induction false} ReplayStops(q: Queue, ack: Ack, low: nat, bound: nat)
    requires low <= bound && ReplayedBelow(q, ack, low).Failed?
    ensures ReplayedBelow(q, ack, bound) == ReplayedBelow(q, ack, low)
  {
    if low < bound {
      ReplayStops(q, ack, low, bound - 1);
    }
  }

  lemma {:induction false} FirstResultNext(results: seq<MutationResult>, i: nat, id: nat)
    requires i < |results| && results[i].id == id && forall j :: 0 <= j < i ==> results[j].id != id
    ensures FirstResult(results, id) == i
  {
    if i > 0 { FirstResultNext(results[1..], i - 1, id); }
  }

  /** One more result changes what is found for its own call only. */
  lemma FoundNext(results: seq<MutationResult>, i: nat, id: nat)
    requires i < |results| && forall j, k :: 0 <= j < k < |results| ==> results[j].id != results[k].id
    ensures var r := results[i];
      && AcceptedIn(results[..i + 1], id) == (if id != r.id then AcceptedIn(results[..i], id)
                                              else if r.outcome.Accepted? then Some(r.outcome.acceptance) else None)
      && RefusalFor(results[..i + 1], id) == (if id != r.id then RefusalFor(results[..i], id)
                                              else if r.outcome.Rejected? then Some(r.outcome.refusal) else None)
      && (id == r.id ==> AcceptedIn(results[..i], id).None? && RefusalFor(results[..i], id).None?)
  {
    assert results[..i + 1] == results[..i] + [results[i]];
    if id == results[i].id {
      FirstResultNext(results[..i + 1], i, id);
      FirstResultAbsent(results[..i], id);
    } else {
      FirstResultElse(results[..i], results[i], id);
    }
  }

  lemma AcceptNext(q: Queue, results: seq<MutationResult>, i: nat)
    requires i < |results| && results[i].id in q.calls
    requires forall j, k :: 0 <= j < k < |results| ==> results[j].id != results[k].id
    ensures var (r, q0) := (results[i], Accept(q, results[..i]));
      Accept(q, results[..i + 1]).calls ==
        if r.outcome.Accepted? then q0.calls[r.id := q0.calls[r.id].(acceptance := Some(r.outcome.acceptance))]
        else q0.calls
  {
    var r := results[i];
    forall id
      ensures AcceptedIn(results[..i + 1], id) ==
        if id != r.id then AcceptedIn(results[..i], id)
        else if r.outcome.Accepted? then Some(r.outcome.acceptance) else None
    {
      FoundNext(results, i, id);
    }
    FoundNext(results, i, results[i].id);
  }

  lemma RefusedNext(results: seq<MutationResult>, i: nat)
    requires i < |results| && forall j, k :: 0 <= j < k < |results| ==> results[j].id != results[k].id
    ensures RefusedIn(results[..i + 1]) ==
      if results[i].outcome.Rejected? then RefusedIn(results[..i])[results[i].id := results[i].outcome.refusal]
      else RefusedIn(results[..i])
  {
    assert results[..i + 1] == results[..i] + [results[i]];
    var (was, now) := (RefusedIn(results[..i]), RefusedIn(results[..i + 1]));
    forall id: nat
      ensures Get(now, id) == if id != results[i].id then Get(was, id) else RefusalFor(results[..i + 1], id)
    {
      FoundNext(results, i, id);
      RefusedGet(results[..i], id);
      RefusedGet(results[..i + 1], id);
    }
    FoundNext(results, i, results[i].id);
    RefusedGet(results[..i], results[i].id);
    SameMap(now, if results[i].outcome.Rejected? then was[results[i].id := results[i].outcome.refusal] else was);
  }

  function WithOutcome(calls: map<nat, Call>, r: MutationResult): map<nat, Call>
    requires r.id in calls
  {
    if r.outcome.Accepted? then calls[r.id := calls[r.id].(acceptance := Some(r.outcome.acceptance))] else calls
  }

  function WithRefusal(rejected: map<nat, Refusal>, r: MutationResult): map<nat, Refusal> {
    if r.outcome.Rejected? then rejected[r.id := r.outcome.refusal] else rejected
  }

  /** The results so far are in the rows, the refused ones collected. */
  predicate OutcomesStored(q: Queue, results: seq<MutationResult>, calls: map<nat, Call>, rejected: map<nat, Refusal>) {
    calls == Accept(q, results).calls && rejected == RefusedIn(results) && calls.Keys == q.calls.Keys
  }

  lemma OutcomesNext(q: Queue, results: seq<MutationResult>, i: nat, calls: map<nat, Call>, rejected: map<nat, Refusal>)
    requires i < |results| && results[i].id in q.calls
    requires forall j, k :: 0 <= j < k < |results| ==> results[j].id != results[k].id
    requires OutcomesStored(q, results[..i], calls, rejected)
    ensures OutcomesStored(q, results[..i + 1], WithOutcome(calls, results[i]), WithRefusal(rejected, results[i]))
  {
    AcceptNext(q, results, i);
    RefusedNext(results, i);
  }

  lemma RefusedGet(results: seq<MutationResult>, id: nat)
    ensures Get(RefusedIn(results), id) == RefusalFor(results, id)
  {
    if RefusalFor(results, id).Some? { assert results[FirstResult(results, id)] in results; }
  }

  lemma SameMap<V>(a: map<nat, V>, b: map<nat, V>)
    requires forall id :: Get(a, id) == Get(b, id)
    ensures a == b
  {
    forall id ensures id in a <==> id in b { assert Get(a, id) == Get(b, id); }
    forall id | id in a ensures a[id] == b[id] { assert Get(a, id) == Get(b, id); }
  }

  lemma FirstResultAbsent(results: seq<MutationResult>, id: nat)
    requires forall j :: 0 <= j < |results| ==> results[j].id != id
    ensures FirstResult(results, id) == |results|
  {
  }

  lemma {:induction false} FirstResultElse(results: seq<MutationResult>, r: MutationResult, id: nat)
    requires r.id != id
    ensures AcceptedIn(results + [r], id) == AcceptedIn(results, id)
    ensures RefusalFor(results + [r], id) == RefusalFor(results, id)
  {
    var f := FirstResult(results, id);
    if f < |results| { FirstResultNext(results + [r], f, id); } else { FirstResultAbsent(results + [r], id); }
  }
}
