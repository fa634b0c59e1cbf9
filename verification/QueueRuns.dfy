/** Every run of the queue: what it keeps of a Batch once frozen, and of an acknowledgement once given. */
module QueueRuns {
  import opened Rows
  import opened Calls
  import opened Batches
  import opened Sending
  import opened Receipts

  datatype Action =
    | Submit(draft: Draft)
    | ResolvePrerequisite(key: string)
    | StoreLocal(id: nat, payload: Payload)
    | Freezing
    | Acknowledging(ack: Ack)
    | Settling(id: nat)
    | Cancelling(id: nat, dismiss: bool)
    | Dismissing(id: nat)
    | Migrating(materialization: string)

  /** A step that fails is rolled back. Migrating to another materialization touches no stored call. */
  ghost function Step(q: Queue, a: Action): Queue {
    match a
    case Submit(draft) => if Admissible(q, draft) then Enqueue(q, draft).0 else q
    case ResolvePrerequisite(key) => Resolve(q, key)
    case StoreLocal(id, payload) => AppendLocal(q, id, payload)
    case Freezing => Freeze(q).0
    case Acknowledging(ack) => Acknowledge(q, ack).0
    case Settling(id) => Reconcile(q, id)
    case Cancelling(id, dismiss) => Cancel(q, id, dismiss).0
    case Dismissing(id) => Dismiss(q, id).0
    case Migrating(materialization) => q.(materialization := materialization)
  }

  ghost function After(q: Queue, actions: seq<Action>): Queue {
    if actions == [] then q else Step(After(q, actions[..|actions| - 1]), actions[|actions| - 1])
  }

  lemma {:induction false} AfterConcat(q: Queue, a: seq<Action>, b: seq<Action>)
    ensures After(q, a + b) == After(After(q, a), b)
  {
    if b == [] {
      assert a + b == a;
    } else {
      assert (a + b)[..|a + b| - 1] == a + b[..|b| - 1];
      AfterConcat(q, a, b[..|b| - 1]);
    }
  }

  function EmptyQueue(store: string, materialization: string): Queue {
    Queue(store, materialization, map[], map[], {}, 0, 1)
  }

  // ----------------------------------------------------------- what is kept

  /** An assigned call keeps its Batch and envelope; in an acknowledged Batch also its outcome. */
  predicate KeptCall(q: Queue, t: Queue, id: nat) {
    id in q.calls ==>
      && id in t.calls
      && var c, d := q.calls[id], t.calls[id];
      && (c.batch.Some? ==> d.batch == c.batch && d.digest == c.digest && d.materialization == c.materialization)
      && (c.batch.Some? && c.batch.value <= q.last ==> OutcomeOf(d) == OutcomeOf(c))
  }

  /** Nothing joins a Batch that has members or is acknowledged. */
  predicate NoJoin(q: Queue, t: Queue, id: nat) {
    id in t.calls && t.calls[id].batch.Some? ==>
      var b := t.calls[id].batch.value;
      b <= q.last || !Empty(q, b) ==> Member(q, b, id)
  }

  ghost predicate Kept(q: Queue, t: Queue) {
    && t.store == q.store && q.last <= t.last
    && forall id {:trigger KeptCall(q, t, id)} {:trigger NoJoin(q, t, id)} :: KeptCall(q, t, id) && NoJoin(q, t, id)
  }

  lemma KeepsCallIsKept(q: Queue, t: Queue)
    requires t.store == q.store && t.last == q.last && forall id :: KeepsCall(q, t, id)
    ensures Kept(q, t)
  {
    forall id ensures KeptCall(q, t, id) && NoJoin(q, t, id) { assert KeepsCall(q, t, id); }
  }

  lemma DropIsKept(q: Queue, id: nat)
    requires Inv(q) && id in q.calls && q.calls[id].batch.None? && !q.calls[id].reconciled
    ensures Kept(q, Refuse(q, Refusals(q.edges, map[id := DROPPED])))
  {
    var initial := map[id := DROPPED];
    var refused := Refusals(q.edges, initial);
    assert initial.Keys == {id};
    forall i | i in refused ensures i in q.calls && q.calls[i].batch.None? { RefusalSparesSent(q, initial.Keys, i); }
    UnsentRefused(q, refused);
  }

  lemma UnsentRefused(q: Queue, refused: map<nat, Refusal>)
    requires forall i :: i in refused ==> i in q.calls && q.calls[i].batch.None?
    ensures Kept(q, Refuse(q, refused))
  {
    forall i ensures KeptCall(q, Refuse(q, refused), i) && NoJoin(q, Refuse(q, refused), i) {
      if i in q.calls { RefuseColumns(q, refused, i); }
    }
  }

  lemma DismissIsKept(q: Queue, id: nat)
    ensures Kept(q, Dismiss(q, id).0)
  {
    forall i ensures KeepsCall(q, Dismiss(q, id).0, i) {}
    KeepsCallIsKept(q, Dismiss(q, id).0);
  }

  lemma CancelIsKept(q: Queue, id: nat, dismiss: bool)
    requires Inv(q)
    ensures Kept(q, Cancel(q, id, dismiss).0)
  {
    if id in q.calls && q.calls[id].batch.None? && !q.calls[id].reconciled {
      var t := Refuse(q, Refusals(q.edges, map[id := DROPPED]));
      DropIsKept(q, id);
      DismissIsKept(t, id);
      KeptTwice(q, t, Dismiss(t, id).0);
    }
  }

  lemma FreezeIsKept(q: Queue)
    requires Inv(q)
    ensures Kept(q, Freeze(q).0)
  {
    FreezeAnswers(q);
    var t := Freeze(q).0;
    if t != q {
      forall id ensures KeptCall(q, t, id) && NoJoin(q, t, id) {
        if id in q.calls { SealedCalls(q, t, id); }
      }
    }
  }

  lemma AcknowledgeIsKept(q: Queue, ack: Ack)
    requires Inv(q)
    ensures Kept(q, Acknowledge(q, ack).0)
  {
    if ack.batch > q.last {
      AppliesExactly(q, ack);
      if Applies(q, ack) {
        var t := Settled(q, ack);
        forall id ensures KeptCall(q, t, id) && NoJoin(q, t, id) {
          if id in q.calls { SettledCalls(q, ack, id); }
        }
      }
    }
  }

  lemma EnqueueIsKept(q: Queue, d: Draft)
    requires Inv(q)
    ensures Kept(q, Enqueue(q, d).0)
  {
    var t := Enqueue(q, d).0;
    forall id ensures KeptCall(q, t, id) && NoJoin(q, t, id) { if id in q.calls { assert CallOk(q, id, q.calls[id]); } }
  }

  lemma AppendLocalIsKept(q: Queue, id: nat, payload: Payload)
    ensures Kept(q, AppendLocal(q, id, payload))
  {
    var t := AppendLocal(q, id, payload);
    forall i ensures KeptCall(q, t, i) && NoJoin(q, t, i) {}
  }

  lemma ReconcileIsKept(q: Queue, id: nat)
    ensures Kept(q, Reconcile(q, id))
  {
    var t := Reconcile(q, id);
    forall i ensures KeptCall(q, t, i) && NoJoin(q, t, i) {}
  }

  lemma ResolveIsKept(q: Queue, key: string)
    ensures Kept(q, Resolve(q, key))
  {
    forall id ensures KeepsCall(q, Resolve(q, key), id) {}
    KeepsCallIsKept(q, Resolve(q, key));
  }

  lemma MigrateKeeps(q: Queue, materialization: string)
    requires Inv(q)
    ensures var t := q.(materialization := materialization); Inv(t) && Kept(q, t)
  {
    var t := q.(materialization := materialization);
    forall i ensures KeepsCall(q, t, i) {}
    KeepsCallKeepsInv(q, t);
    KeepsCallIsKept(q, t);
  }

  lemma StepKeeps(q: Queue, a: Action)
    requires Inv(q)
    ensures Inv(Step(q, a)) && Kept(q, Step(q, a))
  {
    match a
    case Submit(draft) => if Admissible(q, draft) { EnqueueKeepsInv(q, draft); EnqueueIsKept(q, draft); }
    case ResolvePrerequisite(key) => ResolveKeepsInv(q, key); ResolveIsKept(q, key);
    case StoreLocal(id, payload) => AppendLocalKeepsInv(q, id, payload); AppendLocalIsKept(q, id, payload);
    case Freezing => FreezeKeepsInv(q); FreezeIsKept(q);
    case Acknowledging(ack) => AcknowledgeKeepsInv(q, ack); AcknowledgeIsKept(q, ack);
    case Settling(id) => ReconcileKeepsInv(q, id); ReconcileIsKept(q, id);
    case Cancelling(id, dismiss) => CancelKeepsInv(q, id, dismiss); CancelIsKept(q, id, dismiss);
    case Dismissing(id) => DismissKeepsInv(q, id); DismissIsKept(q, id);
    case Migrating(materialization) => MigrateKeeps(q, materialization);
  }

  lemma KeptTwice(q: Queue, t: Queue, u: Queue)
    requires Inv(q) && Kept(q, t) && Kept(t, u)
    ensures Kept(q, u)
  {
    forall id ensures KeptCall(q, u, id) && NoJoin(q, u, id) {
      assert KeptCall(q, t, id) && KeptCall(t, u, id) && NoJoin(t, u, id) && NoJoin(q, t, id);
      if id in q.calls { assert CallOk(q, id, q.calls[id]); }
      if id in u.calls && u.calls[id].batch.Some? {
        var b := u.calls[id].batch.value;
        if !Empty(q, b) {
          var i :| i in q.calls && Member(q, b, i);
          assert KeptCall(q, t, i) && Member(t, b, i);
        }
      }
    }
  }

  /** Every run keeps the invariant, Batch membership, envelopes and acknowledged outcomes. */
  lemma {:induction false} RunKeeps(q: Queue, actions: seq<Action>)
    requires Inv(q)
    ensures Inv(After(q, actions)) && Kept(q, After(q, actions))
  {
    if actions != [] {
      var n := |actions| - 1;
      RunKeeps(q, actions[..n]);
      StepKeeps(After(q, actions[..n]), actions[n]);
      KeptTwice(q, After(q, actions[..n]), After(q, actions));
    }
  }

  lemma EmptyInv(store: string, materialization: string)
    ensures Inv(EmptyQueue(store, materialization))
  {
  }

  // ---------------------------------------------------------------- theorems

  /** In every reachable queue a sent call's predecessors are settled, and its lifecycle predecessors
      accepted; at most one Batch has unsettled members. */
  lemma SentAfterItsPredecessors(store: string, materialization: string, actions: seq<Action>, id: nat, dep: nat)
    requires var q := After(EmptyQueue(store, materialization), actions);
      (id, dep) in q.edges && id in q.calls && q.calls[id].batch.Some?
    ensures var q := After(EmptyQueue(store, materialization), actions);
      && dep in q.calls && dep < id && q.calls[dep].reconciled
      && (q.edges[(id, dep)] == Lifecycle ==> q.calls[dep].refusal.None? && q.calls[dep].acceptance.Some?)
    ensures var q := After(EmptyQueue(store, materialization), actions);
      forall i, j :: Unsettled(q, i) && Unsettled(q, j) ==> q.calls[i].batch == q.calls[j].batch
  {
    EmptyInv(store, materialization);
    RunKeeps(EmptyQueue(store, materialization), actions);
    var q := After(EmptyQueue(store, materialization), actions);
    assert EdgeOk(q, (id, dep).0, (id, dep).1);
    assert CallOk(q, dep, q.calls[dep]);
  }

  /** In every reachable queue, what is refused with calls not yet settled - an acknowledged Batch's
      refused members, or a dropped call - was never sent. */
  lemma RefusalNeverReachesSent(store: string, materialization: string, actions: seq<Action>, initial: set<nat>,
                                id: nat)
    requires var q := After(EmptyQueue(store, materialization), actions);
      && (forall i :: i in initial ==> i in q.calls && !q.calls[i].reconciled)
      && id in Closure(q.edges, initial)
    ensures var q := After(EmptyQueue(store, materialization), actions);
      id in q.calls && (id in initial || q.calls[id].batch.None?)
  {
    EmptyInv(store, materialization);
    RunKeeps(EmptyQueue(store, materialization), actions);
    RefusalSparesSent(After(EmptyQueue(store, materialization), actions), initial, id);
  }

  /** In every reachable queue a freeze gets on: whenever no assigned call is unsettled and the earliest
      pending call has no unresolved prerequisite, a Batch with that call in it is answered. */
  lemma NeverStuck(store: string, materialization: string, actions: seq<Action>, first: nat)
    requires var q := After(EmptyQueue(store, materialization), actions);
      && (forall id :: id in q.calls ==> !Unsettled(q, id))
      && Live(q, first) && (forall id :: 0 <= id < first ==> !Live(q, id))
      && (forall p :: p in q.prerequisites ==> p.0 != first)
      && q.last + 1 <= MAX_SAFE_INTEGER
    ensures var reply := Freeze(After(EmptyQueue(store, materialization), actions)).1;
      reply.Done? && reply.value.Some? && first in RequestIds(reply.value.value)
  {
    EmptyInv(store, materialization);
    RunKeeps(EmptyQueue(store, materialization), actions);
    NeverDeadlocks(After(EmptyQueue(store, materialization), actions), first);
  }

  /** A frozen Batch is answered again, equal, whatever happens until it is acknowledged, and its
      members stay the same: a retry never finds the frozen digest changed. */
  lemma FrozenStaysFrozen(q: Queue, t: Queue, request: Request, actions: seq<Action>)
    requires Inv(q) && Freeze(q) == (t, Done(Some(request)))
    requires After(t, actions).last == t.last
    ensures Freeze(After(t, actions)) == (After(t, actions), Done(Some(request)))
    ensures MemberIds(After(t, actions), t.last + 1) == RequestIds(request)
  {
    FrozenOpen(q, t, request);
    OpenOverRun(t, actions);
  }

  lemma OpenOverRun(t: Queue, actions: seq<Action>)
    requires Inv(t) && !Empty(t, t.last + 1) && After(t, actions).last == t.last
    ensures Freeze(After(t, actions)) == (After(t, actions), Done(Some(Rebuilt(t, t.last + 1))))
    ensures MemberIds(After(t, actions), t.last + 1) == RequestIds(Rebuilt(t, t.last + 1))
  {
    RunKeeps(t, actions);
    OpenKept(t, After(t, actions));
  }

  lemma OpenKept(t: Queue, u: Queue)
    requires Inv(t) && Inv(u) && Kept(t, u) && u.last == t.last && !Empty(t, t.last + 1)
    ensures Freeze(u) == (u, Done(Some(Rebuilt(t, t.last + 1))))
    ensures MemberIds(u, t.last + 1) == RequestIds(Rebuilt(t, t.last + 1))
  {
    OpenStaysOpen(t, u);
    OpenAnswers(u);
  }

  lemma OpenStaysOpen(t: Queue, u: Queue)
    requires Inv(t) && Inv(u) && Kept(t, u) && u.last == t.last && !Empty(t, t.last + 1)
    ensures !Empty(u, t.last + 1) && Rebuilt(u, t.last + 1) == Rebuilt(t, t.last + 1)
  {
    var id :| id in t.calls && Member(t, t.last + 1, id);
    assert KeptCall(t, u, id) && FrozenOk(t, id);
    assert FrozenOk(u, id) && Member(u, t.last + 1, id);
  }

  lemma OpenAnswers(u: Queue)
    requires Inv(u) && !Empty(u, u.last + 1)
    ensures Freeze(u) == (u, Done(Some(Rebuilt(u, u.last + 1))))
    ensures MemberIds(u, u.last + 1) == RequestIds(Rebuilt(u, u.last + 1))
  {
    FreezeAnswers(u);
    forall i | i in u.calls ensures i < u.next { assert CallOk(u, i, u.calls[i]); }
    RequestIdsAreMembers(u, u.last + 1);
  }

  lemma FrozenOpen(q: Queue, t: Queue, request: Request)
    requires Inv(q) && Freeze(q) == (t, Done(Some(request)))
    ensures Inv(t) && t.last == q.last && !Empty(t, t.last + 1) && request == Rebuilt(t, t.last + 1)
  {
    FreezeAnswers(q);
    if Empty(q, q.last + 1) {
      FrozenNew(q, t);
    }
  }

  lemma FrozenNew(q: Queue, t: Queue)
    requires Inv(q) && CanFreeze(q) && t == Seal(Taken(q), q.last + 1, NewRequest(q))
    ensures Inv(t) && !Empty(t, t.last + 1) && NewRequest(q) == Rebuilt(t, t.last + 1)
  {
    TakenReconstructs(q);
    SealedKeepsInv(q, t);
    SealedRebuilt(q, t);
    SealedOpen(q, t);
  }

  lemma SealedOpen(q: Queue, t: Queue)
    requires Inv(q) && CanFreeze(q) && t == Seal(Taken(q), q.last + 1, NewRequest(q))
    ensures !Empty(t, q.last + 1)
  {
    var id :| id in ReadyCalls(q);
    SealedCalls(q, t, id);
    assert Member(t, q.last + 1, id);
  }

  /** What an applied acknowledgement leaves on record. */
  ghost predicate Recorded(q: Queue, ack: Ack) {
    && ValidAck(ack) && ack.store == q.store && ack.batch <= q.last
    && MemberIds(q, ack.batch) == ResultIds(ack) != {}
    && forall id :: id in MemberIds(q, ack.batch) ==> Repeats(q, ack, id)
  }

  lemma {:induction false} ResultIdCount(results: seq<MutationResult>)
    requires forall i, j :: 0 <= i < j < |results| ==> results[i].id != results[j].id
    ensures |set r | r in results :: r.id| == |results|
  {
    if results != [] {
      var n := |results| - 1;
      ResultIdCount(results[..n]);
      var below := set r | r in results[..n] :: r.id;
      assert results == results[..n] + [results[n]];
      assert (set r | r in results :: r.id) == below + {results[n].id};
    }
  }

  lemma RecordedReplays(q: Queue, ack: Ack)
    requires Recorded(q, ack)
    ensures Acknowledge(q, ack) == (q, Done(()))
  {
    ResultIdCount(ack.results);
    forall id | 0 <= id < q.next && Member(q, ack.batch, id) ensures Repeats(q, ack, id) {
      assert id in MemberIds(q, ack.batch);
    }
    ReplayedAll(q, ack, q.next);
  }

  lemma {:induction false} ReplayedAll(q: Queue, ack: Ack, bound: nat)
    ensures ReplayedBelow(q, ack, bound).Done? ==> ReplayedBelow(q, ack, bound) == Done(())
    ensures ReplayedBelow(q, ack, bound).Done? <==>
      forall id :: 0 <= id < bound && Member(q, ack.batch, id) ==> Repeats(q, ack, id)
  {
    if bound > 0 {
      ReplayedAll(q, ack, bound - 1);
      assert Repeats(q, ack, bound - 1) ==> Answered(ack, bound - 1);
    }
  }

  lemma SettledBatch(q: Queue, ack: Ack, batch: nat, id: nat)
    requires id in q.calls
    ensures Member(Settled(q, ack), batch, id) <==> Member(q, batch, id)
  {
    SettledRowIs(q, ack, id);
  }

  lemma SameMembers(q: Queue, t: Queue, batch: nat)
    requires t.calls.Keys == q.calls.Keys && !Empty(q, batch)
    requires forall id :: id in q.calls ==> (Member(t, batch, id) <==> Member(q, batch, id))
    ensures MemberIds(t, batch) == MemberIds(q, batch) != {}
  {
    var some :| some in q.calls && Member(q, batch, some);
    assert some in MemberIds(q, batch);
  }

  /** The members of an acknowledged Batch are the ones it had. */
  lemma SettledMembers(q: Queue, ack: Ack)
    requires !Empty(q, ack.batch)
    ensures MemberIds(Settled(q, ack), ack.batch) == MemberIds(q, ack.batch) != {}
  {
    SettledTables(q, ack);
    forall id | id in q.calls ensures Member(Settled(q, ack), ack.batch, id) <==> Member(q, ack.batch, id) {
      SettledBatch(q, ack, ack.batch, id);
    }
    SameMembers(q, Settled(q, ack), ack.batch);
  }

  lemma MemberEnvelope(q: Queue, ack: Ack, id: nat)
    requires Inv(q) && Applies(q, ack) && Member(q, ack.batch, id)
    ensures q.calls[id].digest == Some(ack.digest) && q.calls[id].materialization == Some(ack.materialization)
  {
    assert FrozenOk(q, id);
  }

  lemma SettledRepeats(q: Queue, ack: Ack, id: nat)
    requires Inv(q) && Applies(q, ack) && Member(q, ack.batch, id)
    ensures Repeats(Settled(q, ack), ack, id)
  {
    MemberEnvelope(q, ack, id);
    SettledRowIs(q, ack, id);
    RefusedMember(q, ack, id);
    MemberFresh(q, ack, id);
    MemberAnswered(q.calls[id], ack, id, Settled(q, ack).calls[id]);
  }

  lemma AckIsRecorded(q: Queue, ack: Ack)
    requires Inv(q) && Acknowledge(q, ack).1.Done?
    ensures Recorded(Acknowledge(q, ack).0, ack)
  {
    if ack.batch <= q.last {
      ReplayMembers(q, ack);
    } else {
      AppliesExactly(q, ack);
      SettledTables(q, ack);
      SettledMembers(q, ack);
      forall id | id in MemberIds(q, ack.batch) ensures Repeats(Settled(q, ack), ack, id) {
        SettledRepeats(q, ack, id);
      }
    }
  }

  lemma ReplayMembers(q: Queue, ack: Ack)
    requires Inv(q) && ValidAck(ack) && Replayed(q, ack).Done?
    ensures MemberIds(q, ack.batch) == ResultIds(ack) != {}
    ensures forall id :: id in MemberIds(q, ack.batch) ==> Repeats(q, ack, id)
  {
    var members, ids := MemberIds(q, ack.batch), ResultIds(ack);
    ResultIdCount(ack.results);
    ReplayedAll(q, ack, q.next);
    forall id | id in members ensures id in ids && Repeats(q, ack, id) { assert CallOk(q, id, q.calls[id]); }
    SubsetFills(members, ids);
  }

  lemma SubsetFills(a: set<nat>, b: set<nat>)
    requires a <= b && |a| == |b|
    ensures a == b
  {
    assert b == a + (b - a);
    assert |b| == |a| + |b - a|;
  }

  lemma KeptIsRecorded(q: Queue, t: Queue, ack: Ack)
    requires Recorded(q, ack) && Kept(q, t)
    ensures Recorded(t, ack)
  {
    forall id ensures id in MemberIds(t, ack.batch) <==> id in MemberIds(q, ack.batch) {
      assert KeptCall(q, t, id) && NoJoin(q, t, id);
    }
    forall id | id in MemberIds(t, ack.batch) ensures Repeats(t, ack, id) {
      assert id in MemberIds(q, ack.batch) && Repeats(q, ack, id) && KeptCall(q, t, id);
    }
  }

  /** Once an acknowledgement succeeded, after any further steps it succeeds again and changes nothing. */
  lemma AckIsIdempotent(q: Queue, ack: Ack, actions: seq<Action>)
    requires Inv(q) && Acknowledge(q, ack).1.Done?
    ensures var u := After(Acknowledge(q, ack).0, actions);
      Recorded(u, ack) && Acknowledge(u, ack) == (u, Done(()))
  {
    AcknowledgeKeepsInv(q, ack);
    AckIsRecorded(q, ack);
    var t := Acknowledge(q, ack).0;
    RunKeeps(t, actions);
    KeptIsRecorded(t, After(t, actions), ack);
    RecordedReplays(After(t, actions), ack);
  }

  ghost predicate SameReceipt(ack: Ack, other: Ack) {
    && other.digest == ack.digest && other.materialization == ack.materialization && other.store == ack.store
    && forall r :: r in other.results <==> r in ack.results
  }

  /** An acknowledgement of a Batch already acknowledged is accepted exactly when it says the same:
      the same digest, materialization, members and outcomes. */
  lemma ReplayAcceptedExactly(q: Queue, ack: Ack, other: Ack)
    requires Inv(q) && Recorded(q, ack) && other.batch == ack.batch
    ensures Acknowledge(q, other).1.Done? <==> ValidAck(other) && SameReceipt(ack, other)
    ensures Acknowledge(q, other).0 == q
  {
    if ValidAck(other) && SameReceipt(ack, other) {
      forall id | id in MemberIds(q, ack.batch) ensures Repeats(q, other, id) { assert Repeats(q, ack, id); }
      assert ResultIds(other) == ResultIds(ack);
      RecordedReplays(q, other);
    }
    if Acknowledge(q, other).1.Done? {
      ReplayMembers(q, other);
      SameResults(q, ack, other);
      SameResults(q, other, ack);
    }
  }

  lemma SameResults(q: Queue, ack: Ack, other: Ack)
    requires Recorded(q, ack) && Recorded(q, other) && other.batch == ack.batch
    ensures forall r :: r in other.results ==> r in ack.results
    ensures other.digest == ack.digest && other.materialization == ack.materialization
  {
    forall r | r in other.results
      ensures r in ack.results && other.digest == ack.digest && other.materialization == ack.materialization
    {
      assert r.id in ResultIds(other);
      assert Repeats(q, ack, r.id) && Repeats(q, other, r.id);
    }
    var id :| id in MemberIds(q, ack.batch);
    assert Repeats(q, ack, id) && Repeats(q, other, id);
  }

  // ------------------------------------------------- a refusal may be reported again

  /** A refusal takes with it exactly the calls its lifecycle paths lead to. */
  lemma RefusesExactly(edges: map<(nat, nat), EdgeKind>, initial: map<nat, Refusal>, id: nat)
    ensures id in Refusals(edges, initial) <==> Reached(edges, initial.Keys, id)
  {
    if Reached(edges, initial.Keys, id) {
      var path :| RefusalPath(edges, path) && path[0] in initial.Keys && path[|path| - 1] == id;
      if |path| > 1 {
        var dep := path[|path| - 2];
        assert Follows(edges, path[|path| - 1], dep);
        assert (id, dep) in edges && (id, dep).0 == id;
      }
    }
  }

  /** However a refusal starts, from calls not yet settled, it refuses again - and so reports again, as
      `dependency.rejected` - exactly the earlier refusals a lifecycle path leads to, all of them never
      sent; every other earlier refusal is kept. */
  lemma RefusesAgainExactly(q: Queue, initial: map<nat, Refusal>, id: nat)
    requires Inv(q) && forall i :: i in initial ==> i in q.calls && !q.calls[i].reconciled
    requires id in q.calls && q.calls[id].refusal.Some?
    ensures id in Refusals(q.edges, initial) <==> Reached(q.edges, initial.Keys, id)
    ensures Get(Refusals(q.edges, initial), id) ==
      if Reached(q.edges, initial.Keys, id) then Some(DEPENDENCY_REJECTED) else None
    ensures Reached(q.edges, initial.Keys, id) ==> q.calls[id].batch.None?
  {
    RefusesExactly(q.edges, initial, id);
    assert CallOk(q, id, q.calls[id]);
    if Reached(q.edges, initial.Keys, id) {
      RefusalSparesSent(q, initial.Keys, id);
    }
  }

  /** For a dropped or discarded call. */
  lemma DropRefusesAgainExactly(q: Queue, dropped: nat, dismiss: bool, id: nat)
    requires Inv(q) && dropped in q.calls && q.calls[dropped].batch.None? && !q.calls[dropped].reconciled
    requires id in q.calls && q.calls[id].refusal.Some?
    ensures Cancel(q, dropped, dismiss).0.calls[id].refusal ==
      if Reached(q.edges, {dropped}, id) then Some(DEPENDENCY_REJECTED) else q.calls[id].refusal
  {
    var initial := map[dropped := DROPPED];
    assert initial.Keys == {dropped};
    RefusesAgainExactly(q, initial, id);
    RefuseColumns(q, Refusals(q.edges, initial), id);
  }

  /** For the refused members of an acknowledged Batch. An acknowledgement given again refuses nothing. */
  lemma AckRefusesAgainExactly(q: Queue, ack: Ack, id: nat)
    requires Inv(q) && id in q.calls && q.calls[id].refusal.Some?
    ensures var t := Acknowledge(q, ack).0;
      && id in t.calls
      && t.calls[id].refusal ==
        if ack.batch > q.last && Applies(q, ack) && Reached(q.edges, RefusedIn(ack.results).Keys, id)
        then Some(DEPENDENCY_REJECTED)
        else q.calls[id].refusal
  {
    if ack.batch > q.last {
      AppliesExactly(q, ack);
      if Applies(q, ack) {
        AckRefusesAgain(q, ack, id);
      }
    }
  }

  lemma AckRefusesAgain(q: Queue, ack: Ack, id: nat)
    requires Inv(q) && Applies(q, ack) && id in q.calls && q.calls[id].refusal.Some?
    ensures id in Settled(q, ack).calls
    ensures Settled(q, ack).calls[id].refusal ==
      if Reached(q.edges, RefusedIn(ack.results).Keys, id) then Some(DEPENDENCY_REJECTED) else q.calls[id].refusal
  {
    UnsettledRefusals(q, ack);
    RefusesAgainExactly(q, RefusedIn(ack.results), id);
    SettledRowIs(q, ack, id);
  }

  // ------------------------------------------------ and is not, once it is dismissed

  /** A refused call that no edge names. */
  predicate Gone(q: Queue, id: nat) {
    id in q.calls && q.calls[id].refusal.Some? && forall e :: e in q.edges ==> e.0 != id && e.1 != id
  }

  lemma DismissedIsGone(q: Queue, id: nat)
    requires Inv(q) && id in q.calls && q.calls[id].refusal.Some?
    ensures Dismiss(q, id).1 == Done(()) && Gone(Dismiss(q, id).0, id)
    ensures Dismiss(q, id).0.calls[id].refusal == q.calls[id].refusal
  {
    assert CallOk(q, id, q.calls[id]);
  }

  lemma LastFollows(edges: map<(nat, nat), EdgeKind>, path: seq<nat>)
    requires RefusalPath(edges, path) && |path| > 1
    ensures (path[|path| - 1], path[|path| - 2]) in edges
  {
    assert Follows(edges, path[|path| - 1], path[|path| - 2]);
  }

  /** No refusal that starts from calls not yet settled takes such a call with it. */
  lemma GoneNotRefused(q: Queue, initial: map<nat, Refusal>, id: nat)
    requires Inv(q) && Gone(q, id) && forall i :: i in initial ==> i in q.calls && !q.calls[i].reconciled
    ensures id !in Refusals(q.edges, initial)
  {
    if Reached(q.edges, initial.Keys, id) {
      assert CallOk(q, id, q.calls[id]);
      var path :| RefusalPath(q.edges, path) && path[0] in initial.Keys && path[|path| - 1] == id;
      if |path| > 1 {
        LastFollows(q.edges, path);
        assert false;
      }
    }
  }

  ghost predicate StaysGone(q: Queue, t: Queue, id: nat) {
    Gone(t, id) && id in q.calls && t.calls[id].refusal == q.calls[id].refusal
  }

  lemma SubmitStaysGone(q: Queue, d: Draft, id: nat)
    requires Inv(q) && Gone(q, id) && Admissible(q, d)
    ensures StaysGone(q, Enqueue(q, d).0, id)
  {
    assert CallOk(q, id, q.calls[id]);
    forall e | e in NewEdges(q.next, d) ensures e.0 != id && e.1 != id { assert Live(q, e.1); }
  }

  lemma FreezeStaysGone(q: Queue, id: nat)
    requires Inv(q) && Gone(q, id)
    ensures StaysGone(q, Freeze(q).0, id)
  {
    FreezeAnswers(q);
    if Freeze(q).0 != q { SealedCalls(q, Freeze(q).0, id); }
  }

  lemma AcknowledgeStaysGone(q: Queue, ack: Ack, id: nat)
    requires Inv(q) && Gone(q, id)
    ensures StaysGone(q, Acknowledge(q, ack).0, id)
  {
    if ack.batch > q.last {
      AppliesExactly(q, ack);
      if Applies(q, ack) {
        UnsettledRefusals(q, ack);
        GoneNotRefused(q, RefusedIn(ack.results), id);
        SettledRowIs(q, ack, id);
        SettledTables(q, ack);
      }
    }
  }

  lemma CancelStaysGone(q: Queue, dropped: nat, dismiss: bool, id: nat)
    requires Inv(q) && Gone(q, id)
    ensures StaysGone(q, Cancel(q, dropped, dismiss).0, id)
  {
    if dropped in q.calls && q.calls[dropped].batch.None? && !q.calls[dropped].reconciled {
      var initial := map[dropped := DROPPED];
      GoneNotRefused(q, initial, id);
      RefuseColumns(q, Refusals(q.edges, initial), id);
    }
  }

  lemma StepStaysGone(q: Queue, a: Action, id: nat)
    requires Inv(q) && Gone(q, id)
    ensures StaysGone(q, Step(q, a), id)
  {
    match a
    case Submit(draft) => if Admissible(q, draft) { SubmitStaysGone(q, draft, id); }
    case Freezing => FreezeStaysGone(q, id);
    case Acknowledging(ack) => AcknowledgeStaysGone(q, ack, id);
    case Cancelling(dropped, dismiss) => CancelStaysGone(q, dropped, dismiss, id);
    case Dismissing(other) => DismissStaysGone(q, other, id);
    case StoreLocal(other, payload) => StoreStaysGone(q, other, payload, id);
    case Settling(other) => SettleStaysGone(q, other, id);
    case ResolvePrerequisite(_) =>
    case Migrating(_) =>
  }

  lemma StoreStaysGone(q: Queue, other: nat, payload: Payload, id: nat)
    requires Gone(q, id)
    ensures StaysGone(q, AppendLocal(q, other, payload), id)
  {
  }

  lemma SettleStaysGone(q: Queue, other: nat, id: nat)
    requires Gone(q, id)
    ensures StaysGone(q, Reconcile(q, other), id)
  {
  }

  lemma DismissStaysGone(q: Queue, other: nat, id: nat)
    requires Gone(q, id)
    ensures StaysGone(q, Dismiss(q, other).0, id)
  {
  }

  lemma {:induction false} RunStaysGone(q: Queue, actions: seq<Action>, id: nat)
    requires Inv(q) && Gone(q, id)
    ensures Inv(After(q, actions)) && StaysGone(q, After(q, actions), id)
  {
    RunKeeps(q, actions);
    if actions != [] {
      var n := |actions| - 1;
      RunStaysGone(q, actions[..n], id);
      StepStaysGone(After(q, actions[..n]), actions[n], id);
    }
  }

  /** Once a refused call is dismissed its refusal is final: after any further steps it is the same, and
      no refusal that starts from unsettled calls - a drop, or an acknowledgement - reports it again. */
  lemma DismissedForGood(q: Queue, id: nat, actions: seq<Action>, initial: map<nat, Refusal>)
    requires Inv(q) && id in q.calls && q.calls[id].refusal.Some?
    requires var u := After(Dismiss(q, id).0, actions);
      forall i :: i in initial ==> i in u.calls && !u.calls[i].reconciled
    ensures var u := After(Dismiss(q, id).0, actions);
      id in u.calls && u.calls[id].refusal == q.calls[id].refusal && id !in Refusals(u.edges, initial)
  {
    DismissKeepsInv(q, id);
    DismissedIsGone(q, id);
    RunStaysGone(Dismiss(q, id).0, actions, id);
    GoneNotRefused(After(Dismiss(q, id).0, actions), initial, id);
  }

  // ------------------------------------------------------------ and a run in which it is

  const RECORD := Key("model", map[])

  function OneWrite(change: Change, lifecycle: set<nat>): Draft {
    Draft("call", 1, "descriptor", [(Some("input"), Written(Operation(RECORD, change)))], lifecycle, {}, {})
  }

  const CREATES := OneWrite(Create(map[]), {})

  /** An update of the record the first call creates, which therefore follows it. */
  const UPDATES := OneWrite(Update(map[]), {1})

  function TwoCalls(): Queue {
    EmptyQueue("store", "materialization").(
      calls := map[1 := NewCall(CREATES), 2 := NewCall(UPDATES).(refusal := Some(DROPPED), reconciled := true)],
      edges := map[(2, 1) := Lifecycle], next := 3)
  }

  const TWO_CALLS := [Submit(CREATES), Submit(UPDATES), Cancelling(2, false)]

  /** Two calls, the second after the first by lifecycle; the second is dropped. */
  lemma TwoCallsReached()
    ensures After(EmptyQueue("store", "materialization"), TWO_CALLS) == TwoCalls()
  {
    var q0 := EmptyQueue("store", "materialization");
    var q1 := q0.(calls := map[1 := NewCall(CREATES)], next := 2);
    var q2 := q1.(calls := map[1 := NewCall(CREATES), 2 := NewCall(UPDATES)], edges := map[(2, 1) := Lifecycle],
                  next := 3);
    FirstSubmitted(q0, q1);
    SecondSubmitted(q1, q2);
    SecondDropped(q2);
    AfterNext(q0, [], Submit(CREATES));
    AfterNext(q0, [] + [Submit(CREATES)], Submit(UPDATES));
    AfterNext(q0, [] + [Submit(CREATES)] + [Submit(UPDATES)], Cancelling(2, false));
    assert [] + [Submit(CREATES)] + [Submit(UPDATES)] + [Cancelling(2, false)] == TWO_CALLS;
  }

  lemma SecondDropped(q2: Queue)
    requires q2 == EmptyQueue("store", "materialization").(
      calls := map[1 := NewCall(CREATES), 2 := NewCall(UPDATES)], edges := map[(2, 1) := Lifecycle], next := 3)
    ensures Step(q2, Cancelling(2, false)) == TwoCalls()
  {
    OnlyDropped(q2, 2);
    assert Refuse(q2, map[2 := DROPPED]).calls == TwoCalls().calls;
  }

  lemma OnlyDropped(q: Queue, id: nat)
    requires id in q.calls && q.calls[id].batch.None? && !q.calls[id].reconciled
    requires forall other :: !Follows(q.edges, other, id)
    ensures Step(q, Cancelling(id, false)) == Refuse(q, map[id := DROPPED])
  {
    OnlyRefused(q.edges, id);
  }

  lemma FirstSubmitted(q0: Queue, q1: Queue)
    requires q0 == EmptyQueue("store", "materialization")
    requires q1 == q0.(calls := map[1 := NewCall(CREATES)], next := 2)
    ensures Step(q0, Submit(CREATES)) == q1
  {
    assert NewEdges(1, CREATES) == map[];
  }

  lemma SecondSubmitted(q1: Queue, q2: Queue)
    requires q1 == EmptyQueue("store", "materialization").(calls := map[1 := NewCall(CREATES)], next := 2)
    requires q2 == q1.(calls := map[1 := NewCall(CREATES), 2 := NewCall(UPDATES)], edges := map[(2, 1) := Lifecycle],
                       next := 3)
    ensures Step(q1, Submit(UPDATES)) == q2
  {
    assert Live(q1, 1) && Admissible(q1, UPDATES);
    assert NewEdges(2, UPDATES) == map[(2, 1) := Lifecycle];
  }

  /** Refusing a call no other follows refuses that call alone. */
  lemma OnlyRefused(edges: map<(nat, nat), EdgeKind>, id: nat)
    requires forall other :: !Follows(edges, other, id)
    ensures Refusals(edges, map[id := DROPPED]) == map[id := DROPPED]
  {
    var initial := map[id := DROPPED];
    assert initial.Keys == {id};
    ClosureGrows(edges, initial.Keys);
    forall other | other in Closure(edges, initial.Keys) ensures other == id {
      var path :| RefusalPath(edges, path) && path[0] in initial.Keys && path[|path| - 1] == other;
      if |path| > 1 {
        FirstFollows(edges, path);
        assert false;
      }
    }
    assert Closure(edges, initial.Keys) == {id};
  }

  lemma FirstFollows(edges: map<(nat, nat), EdgeKind>, path: seq<nat>)
    requires RefusalPath(edges, path) && |path| > 1
    ensures Follows(edges, path[1], path[0])
  {
  }

  lemma AfterNext(q: Queue, actions: seq<Action>, a: Action)
    ensures After(q, actions + [a]) == Step(After(q, actions), a)
  {
    assert (actions + [a])[..|actions|] == actions;
  }

  /** So a run can report a dependent again: it was dropped, then the call it depends on is. */
  lemma DropRefusesAgain(dismiss: bool)
    ensures var q := After(EmptyQueue("store", "materialization"), TWO_CALLS);
      && 2 in q.calls && q.calls[2].refusal == Some(DROPPED)
      && var t := Cancel(q, 1, dismiss).0; 2 in t.calls && t.calls[2].refusal == Some(DEPENDENCY_REJECTED)
  {
    TwoCallsReached();
    EmptyInv("store", "materialization");
    RunKeeps(EmptyQueue("store", "materialization"), TWO_CALLS);
    SecondReached(TwoCalls().edges);
    DropRefusesAgainExactly(TwoCalls(), 1, dismiss, 2);
  }

  lemma SecondReached(edges: map<(nat, nat), EdgeKind>)
    requires Follows(edges, 2, 1)
    ensures Reached(edges, {1}, 2)
  {
    var path := [1, 2];
    assert RefusalPath(edges, path) && path[0] in {1} && path[|path| - 1] == 2;
  }
}
