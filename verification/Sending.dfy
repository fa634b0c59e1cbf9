/** Freezing and acknowledging: a Batch is rebuilt as the request it was frozen as, the queue never
    waits on itself, and an acknowledgement is applied once. */
module Sending {
  import opened Rows
  import opened Calls
  import opened Batches

  // -------------------------------------------------------------- the request

  lemma {:induction false} ContextOf(q: Queue, batch: nat, bound: nat, materialization: string)
    requires forall id :: 0 <= id < bound && Member(q, batch, id) ==>
      q.calls[id].materialization == Some(materialization)
    ensures ContextBelow(q, batch, bound) ==
      if exists id :: 0 <= id < bound && Member(q, batch, id) then Some(materialization) else None
  {
    if bound > 0 {
      ContextOf(q, batch, bound - 1, materialization);
      if exists id :: 0 <= id < bound && Member(q, batch, id) {
        var id :| 0 <= id < bound && Member(q, batch, id);
        assert id == bound - 1 || 0 <= id < bound - 1;
      }
    }
  }

  lemma {:induction false} MutationsFromMembers(q: Queue, batch: nat, bound: nat, m: Mutation)
    requires m in MutationsBelow(q, batch, bound)
    ensures m.id < bound && Member(q, batch, m.id) && m == Sent(m.id, q.calls[m.id])
  {
    if m in MutationsBelow(q, batch, bound - 1) {
      MutationsFromMembers(q, batch, bound - 1, m);
    }
  }

  lemma {:induction false} MembersInMutations(q: Queue, batch: nat, bound: nat, id: nat)
    requires id < bound && Member(q, batch, id)
    ensures Sent(id, q.calls[id]) in MutationsBelow(q, batch, bound)
  {
    if id < bound - 1 {
      MembersInMutations(q, batch, bound - 1, id);
    }
  }

  /** The mutations of a Batch are its members, each with what it sends, in order of their ids. */
  lemma {:induction false} MutationsAscend(q: Queue, batch: nat, bound: nat)
    ensures var ms := MutationsBelow(q, batch, bound); forall i, j :: 0 <= i < j < |ms| ==> ms[i].id < ms[j].id
  {
    if bound > 0 {
      MutationsAscend(q, batch, bound - 1);
      var below := MutationsBelow(q, batch, bound - 1);
      var ms := MutationsBelow(q, batch, bound);
      forall i, j | 0 <= i < j < |ms| ensures ms[i].id < ms[j].id {
        assert ms[i] == below[i];
        MutationsFromMembers(q, batch, bound - 1, below[i]);
        assert j < |below| ==> ms[j] == below[j];
      }
    }
  }

  function RequestIds(request: Request): set<nat> {
    set m | m in request.mutations :: m.id
  }

  lemma RequestIdsAreMembers(q: Queue, batch: nat)
    requires forall id :: id in q.calls ==> id < q.next
    ensures RequestIds(Rebuilt(q, batch)) == MemberIds(q, batch)
  {
    forall id | id in MemberIds(q, batch) ensures id in RequestIds(Rebuilt(q, batch)) {
      MembersInMutations(q, batch, q.next, id);
      assert Sent(id, q.calls[id]) in MutationsBelow(q, batch, q.next);
    }
    forall m | m in MutationsBelow(q, batch, q.next) ensures m.id in MemberIds(q, batch) {
      MutationsFromMembers(q, batch, q.next, m);
    }
  }

  /** The open Batch is always rebuilt as the request it was frozen as. */
  lemma OpenReconstructs(q: Queue)
    requires Inv(q) && !Empty(q, q.last + 1)
    ensures Reconstruct(q, q.last + 1) == Done(Rebuilt(q, q.last + 1))
  {
    var id :| id in q.calls && Member(q, q.last + 1, id);
    forall i | i in q.calls && Member(q, q.last + 1, i) ensures q.calls[i].digest == Some(Rebuilt(q, q.last + 1)) {
      assert FrozenOk(q, i);
    }
    assert CallOk(q, id, q.calls[id]);
    forall i | 0 <= i < q.next && Member(q, q.last + 1, i)
      ensures q.calls[i].materialization == Some(Rebuilt(q, q.last + 1).materialization)
    {
      assert FrozenOk(q, i);
    }
    ContextOf(q, q.last + 1, q.next, Rebuilt(q, q.last + 1).materialization);
  }

  lemma OpenIsNext(q: Queue, batch: nat)
    requires Inv(q) && OpenBatch(q, batch)
    ensures batch == q.last + 1 && !Empty(q, batch)
  {
    var id :| Assigned(q, batch, id);
    assert CallOk(q, id, q.calls[id]);
    assert Member(q, batch, id);
  }

  lemma NextIsOpen(q: Queue)
    requires Inv(q) && !Empty(q, q.last + 1)
    ensures OpenBatch(q, q.last + 1)
  {
    var id :| id in q.calls && Member(q, q.last + 1, id);
    assert Assigned(q, q.last + 1, id);
  }

  // ------------------------------------------------------------------ freezing

  predicate CanFreeze(q: Queue) {
    && Empty(q, q.last + 1)
    && (forall id :: id in q.calls ==> !Unsettled(q, id))
    && ReadyCalls(q) != {}
  }

  function Taken(q: Queue): Queue {
    Assign(q, ReadyCalls(q), q.last + 1)
  }

  function NewRequest(q: Queue): Request {
    Rebuilt(Taken(q), q.last + 1)
  }

  lemma TakenReconstructs(q: Queue)
    requires Inv(q) && CanFreeze(q)
    ensures Reconstruct(Taken(q), q.last + 1) == Done(NewRequest(q))
    ensures NewRequest(q).materialization == q.materialization
    ensures MemberIds(Taken(q), q.last + 1) == ReadyCalls(q)
  {
    var t, open := Taken(q), q.last + 1;
    forall id | id in q.calls ensures Member(t, open, id) <==> id in ReadyCalls(q) { assert !Member(q, open, id); }
    var id :| id in ReadyCalls(q);
    assert CallOk(q, id, q.calls[id]);
    ContextOf(t, open, t.next, q.materialization);
    forall i | i in t.calls && Member(t, open, i) ensures t.calls[i].digest.None? { assert CallOk(q, i, q.calls[i]); }
  }

  /** The three answers of a freeze. It fails only when the Batch counter is exhausted: a frozen
      request is never found changed. */
  lemma FreezeAnswers(q: Queue)
    requires Inv(q)
    ensures !Empty(q, q.last + 1) ==> Freeze(q) == (q, Done(Some(Rebuilt(q, q.last + 1))))
    ensures CanFreeze(q) && q.last + 1 > MAX_SAFE_INTEGER ==> Freeze(q) == (q, Failed(CounterExhausted))
    ensures CanFreeze(q) && q.last + 1 <= MAX_SAFE_INTEGER ==>
      Freeze(q) == (Seal(Taken(q), q.last + 1, NewRequest(q)), Done(Some(NewRequest(q))))
    ensures Empty(q, q.last + 1) && !CanFreeze(q) ==> Freeze(q) == (q, Done(None))
  {
    if !Empty(q, q.last + 1) {
      NextIsOpen(q);
      forall batch | OpenBatch(q, batch) ensures batch == q.last + 1 { OpenIsNext(q, batch); }
      OpenReconstructs(q);
    } else {
      forall batch ensures !OpenBatch(q, batch) { if OpenBatch(q, batch) { OpenIsNext(q, batch); } }
      if CanFreeze(q) { TakenReconstructs(q); }
    }
  }

  lemma FreezeKeepsInv(q: Queue)
    requires Inv(q)
    ensures Inv(Freeze(q).0)
  {
    FreezeAnswers(q);
    if CanFreeze(q) && q.last + 1 <= MAX_SAFE_INTEGER {
      TakenReconstructs(q);
      SealedKeepsInv(q, Freeze(q).0);
    }
  }

  predicate SealedCall(q: Queue, t: Queue, id: nat) {
    && id in q.calls && id in t.calls
    && t.calls[id] == if id in ReadyCalls(q)
      then q.calls[id].(batch := Some(q.last + 1), materialization := Some(q.materialization),
                        digest := Some(NewRequest(q)))
      else q.calls[id]
  }

  lemma SealedCalls(q: Queue, t: Queue, id: nat)
    requires Inv(q) && CanFreeze(q) && t == Seal(Taken(q), q.last + 1, NewRequest(q)) && id in q.calls
    ensures SealedCall(q, t, id)
  {
    assert !Member(q, q.last + 1, id);
    assert Member(Taken(q), q.last + 1, id) <==> id in ReadyCalls(q);
  }

  lemma SealedKeepsInv(q: Queue, t: Queue)
    requires Inv(q) && CanFreeze(q) && t == Seal(Taken(q), q.last + 1, NewRequest(q))
    requires NewRequest(q).materialization == q.materialization
    ensures Inv(t)
  {
    forall id | id in q.calls ensures SealedCall(q, t, id) { SealedCalls(q, t, id); }
    SealedRebuilt(q, t);
    SealedInv(q, t);
  }

  lemma SealedInv(q: Queue, t: Queue)
    requires Inv(q) && CanFreeze(q) && NewRequest(q).materialization == q.materialization
    requires t.calls.Keys == q.calls.Keys && t.edges == q.edges && t.next == q.next && t.last == q.last
    requires forall id :: id in q.calls ==> SealedCall(q, t, id)
    requires Rebuilt(t, q.last + 1) == NewRequest(q)
    ensures Inv(t)
  {
    forall id | id in t.calls ensures CallOk(t, id, t.calls[id]) && FrozenOk(t, id) { SealedCallOk(q, t, id); }
    forall e | e in t.edges ensures EdgeOk(t, e.0, e.1) {
      assert EdgeOk(q, e.0, e.1);
      SealedEdge(q, t, e.0, e.1);
    }
    forall i | Unsettled(t, i) ensures t.calls[i].batch == Some(q.last + 1) {
      assert SealedCall(q, t, i) && !Unsettled(q, i);
    }
  }

  lemma SealedCallOk(q: Queue, t: Queue, id: nat)
    requires Inv(q) && CanFreeze(q) && NewRequest(q).materialization == q.materialization
    requires t.next == q.next && t.last == q.last && SealedCall(q, t, id)
    requires Rebuilt(t, q.last + 1) == NewRequest(q)
    ensures CallOk(t, id, t.calls[id]) && FrozenOk(t, id)
  {
    assert CallOk(q, id, q.calls[id]) && !Member(q, q.last + 1, id);
  }

  lemma SealedEdge(q: Queue, t: Queue, id: nat, dep: nat)
    requires (id, dep) in q.edges && EdgeOk(q, id, dep) && t.edges == q.edges
    requires SealedCall(q, t, id) && SealedCall(q, t, dep)
    ensures EdgeOk(t, id, dep)
  {
    var e := (id, dep);
    if id in ReadyCalls(q) { assert e in q.edges && e.0 == id && Cleared(q, id, e.1); }
  }

  lemma SealedRebuilt(q: Queue, t: Queue)
    requires t == Seal(Taken(q), q.last + 1, NewRequest(q))
    ensures Rebuilt(t, q.last + 1) == NewRequest(q)
  {
    var u, open := Taken(q), q.last + 1;
    forall id ensures SameSent(u, t, open, id) {}
    BelowSame(u, t, open, q.next);
  }

  /** The queue never waits on itself: when no assigned call is unsettled and the earliest pending
      call has no unresolved prerequisite, a freeze answers a Batch with that call in it. The Batch is
      exactly the ready calls, in order. */
  lemma NeverDeadlocks(q: Queue, first: nat)
    requires Inv(q) && forall id :: id in q.calls ==> !Unsettled(q, id)
    requires Live(q, first) && forall id :: 0 <= id < first ==> !Live(q, id)
    requires forall p :: p in q.prerequisites ==> p.0 != first
    requires q.last + 1 <= MAX_SAFE_INTEGER
    ensures var (t, reply) := Freeze(q);
      && reply.Done? && reply.value.Some?
      && first in ReadyCalls(q) && RequestIds(reply.value.value) == ReadyCalls(q)
      && forall id :: id in ReadyCalls(q) ==> Member(t, q.last + 1, id) && t.calls[id].digest == Some(reply.value.value)
  {
    FirstIsReady(q, first);
    forall id | id in q.calls ensures !Member(q, q.last + 1, id) {
      assert CallOk(q, id, q.calls[id]) && !Unsettled(q, id);
    }
    FreezeAnswers(q);
    TakenReconstructs(q);
    forall id | id in q.calls ensures id < q.next { assert CallOk(q, id, q.calls[id]); }
    RequestIdsAreMembers(Taken(q), q.last + 1);
    var t := Freeze(q).0;
    forall id | id in ReadyCalls(q) ensures Member(t, q.last + 1, id) && t.calls[id].digest == Some(NewRequest(q)) {
      SealedCalls(q, t, id);
    }
  }

  lemma FirstIsReady(q: Queue, first: nat)
    requires Inv(q) && forall id :: id in q.calls ==> !Unsettled(q, id)
    requires Live(q, first) && forall id :: 0 <= id < first ==> !Live(q, id)
    requires forall p :: p in q.prerequisites ==> p.0 != first
    ensures first in ReadyCalls(q)
  {
    assert !Unsettled(q, first);
    forall e | e in q.edges && e.0 == first ensures Cleared(q, first, e.1) {
      assert EdgeOk(q, e.0, e.1) && !Live(q, e.1) && CallOk(q, e.1, q.calls[e.1]);
      assert e == (first, e.1);
    }
  }

  /** A freeze sends a call exactly when no assigned call is unsettled, the next Batch has a number, and
      the call pends, waits for no prerequisite, and has every predecessor settled, those by lifecycle
      without a refusal. */
  lemma FreezeTakesExactly(q: Queue, id: nat)
    requires Inv(q) && id in q.calls && q.calls[id].batch.None?
    ensures id in Freeze(q).0.calls
    ensures Freeze(q).0.calls[id].batch.Some? <==>
      && (forall other :: other in q.calls && q.calls[other].batch.Some? ==> q.calls[other].reconciled)
      && q.last < 9007199254740991
      && !q.calls[id].reconciled && q.calls[id].refusal.None?
      && (forall key :: (id, key) !in q.prerequisites)
      && (forall dep :: (id, dep) in q.edges && dep in q.calls ==>
        q.calls[dep].reconciled && (q.edges[(id, dep)] == Lifecycle ==> q.calls[dep].refusal.None?))
  {
    FreezeAnswers(q);
    ReadyIs(q, id);
    if id in ReadyCalls(q) { CanFreezeIs(q); }
    if Freeze(q).0 != q { SealedCalls(q, Freeze(q).0, id); }
  }

  lemma CanFreezeIs(q: Queue)
    requires Inv(q) && ReadyCalls(q) != {}
    ensures CanFreeze(q) <==>
      forall other :: other in q.calls && q.calls[other].batch.Some? ==> q.calls[other].reconciled
  {
    forall other | other in q.calls ensures Member(q, q.last + 1, other) ==> Unsettled(q, other) {
      assert CallOk(q, other, q.calls[other]);
    }
    forall other | other in q.calls
      ensures Unsettled(q, other) <==> q.calls[other].batch.Some? && !q.calls[other].reconciled
    {
    }
  }

  lemma ReadyIs(q: Queue, id: nat)
    requires id in q.calls && q.calls[id].batch.None?
    ensures id in ReadyCalls(q) <==>
      && !q.calls[id].reconciled && q.calls[id].refusal.None?
      && (forall key :: (id, key) !in q.prerequisites)
      && (forall dep :: (id, dep) in q.edges && dep in q.calls ==>
        q.calls[dep].reconciled && (q.edges[(id, dep)] == Lifecycle ==> q.calls[dep].refusal.None?))
  {
    forall p | p in q.prerequisites && p.0 == id ensures (id, p.1) in q.prerequisites {}
    forall e | e in q.edges && e.0 == id ensures (id, e.1) in q.edges {}
    if Ready(q, id) {
      forall key ensures (id, key) !in q.prerequisites { assert (id, key).0 == id; }
      forall dep | (id, dep) in q.edges && dep in q.calls ensures Cleared(q, id, dep) { assert (id, dep).0 == id; }
    }
  }

  ghost predicate Memberless(q: Queue, batch: nat) {
    forall id :: id in q.calls ==> q.calls[id].batch != Some(batch)
  }

  /** What rebuilding a Batch answers: a request of its members alone that none of them was frozen
      otherwise than, or what is missing or changed. */
  lemma ReconstructExactly(q: Queue, batch: nat)
    ensures match Reconstruct(q, batch)
      case Done(request) =>
        && request.batch == batch && !Memberless(q, batch)
        && (forall m :: m in request.mutations ==>
          m.id in q.calls && q.calls[m.id].batch == Some(batch) && m.inputs == Inputs(q.calls[m.id].items))
        && (forall id :: id in q.calls && q.calls[id].batch == Some(batch) && id < q.next ==>
          exists m :: m in request.mutations && m.id == id)
        && forall id :: id in q.calls && q.calls[id].batch == Some(batch) ==>
          q.calls[id].digest.None? || q.calls[id].digest == Some(request)
      case Failed(UnknownBatch) => Memberless(q, batch)
      case Failed(DigestChanged) =>
        exists id :: id in q.calls && q.calls[id].batch == Some(batch)
          && q.calls[id].digest.Some? && q.calls[id].digest != Some(Rebuilt(q, batch))
      case Failed(problem) => problem == ContextMissing && !Memberless(q, batch)
  {
    assert Empty(q, batch) <==> Memberless(q, batch) by {
      forall id | id in q.calls ensures Member(q, batch, id) <==> q.calls[id].batch == Some(batch) {}
    }
    forall m | m in MutationsBelow(q, batch, q.next) ensures Member(q, batch, m.id) && m == Sent(m.id, q.calls[m.id]) {
      MutationsFromMembers(q, batch, q.next, m);
    }
    forall id | id in q.calls && Member(q, batch, id) && id < q.next
      ensures Sent(id, q.calls[id]) in MutationsBelow(q, batch, q.next)
    {
      MembersInMutations(q, batch, q.next, id);
    }
    forall id | id in q.calls && Member(q, batch, id) && id < q.next
      ensures exists m :: m in Rebuilt(q, batch).mutations && m.id == id
    {
      assert Sent(id, q.calls[id]).id == id;
    }
  }
}
