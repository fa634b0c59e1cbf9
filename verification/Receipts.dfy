/** Acknowledgements over whole runs of the queue. */
module Receipts {
  import opened Rows
  import opened Calls
  import opened Batches
  import opened Sending

  // ------------------------------------------------- applying an acknowledgement

  /** A first acknowledgement that is applied answers exactly the open Batch. */
  predicate Applies(q: Queue, ack: Ack) {
    && ValidAck(ack) && ack.store == q.store && ack.batch == q.last + 1
    && !Empty(q, ack.batch)
    && ack.digest == Rebuilt(q, ack.batch) && ack.materialization == ack.digest.materialization
    && MemberIds(q, ack.batch) == ResultIds(ack)
    && TargetsSupplied(ack.digest, ack)
  }

  lemma AppliesExactly(q: Queue, ack: Ack)
    requires Inv(q) && ack.batch > q.last
    ensures Acknowledge(q, ack).1.Done? <==> Applies(q, ack)
    ensures Applies(q, ack) ==> Acknowledge(q, ack) == (Settled(q, ack), Done(()))
    ensures !Applies(q, ack) ==> Acknowledge(q, ack).0 == q
  {
    forall id | id in q.calls ensures id < q.next { assert CallOk(q, id, q.calls[id]); }
    if ack.batch == q.last + 1 && !Empty(q, ack.batch) {
      OpenReconstructs(q);
      RequestIdsAreMembers(q, ack.batch);
    }
  }

  /** The outcome names no record twice, no cursor past its own, and no number past the safe ones. */
  ghost predicate WellFormed(r: MutationResult) {
    && 1 <= r.id <= 9007199254740991
    && match r.outcome
       case Rejected(_) => true
       case Accepted(acceptance) =>
         && acceptance.cursor <= 9007199254740991
         && (forall t :: t in acceptance.targets && t.Stream? ==> t.cursor <= acceptance.cursor)
         && forall i, j :: 0 <= i < j < |acceptance.targets| ==> acceptance.targets[i].key != acceptance.targets[j].key
  }

  /** An accepted call's targets hold every record its inputs write. */
  ghost predicate Covered(c: Call, outcome: Outcome) {
    outcome.Accepted? ==>
      forall item :: item in c.items && item.path.Some? && item.payload.Written? ==>
        exists t :: t in outcome.acceptance.targets && t.key == item.payload.op.key
  }

  /** Every result is well formed and none answers a call twice. */
  ghost predicate Formed(ack: Ack) {
    && 1 <= ack.batch <= 9007199254740991
    && (forall r :: r in ack.results ==> WellFormed(r))
    && forall i, j :: 0 <= i < j < |ack.results| ==> ack.results[i].id != ack.results[j].id
  }

  /** The acknowledgement repeats the request its calls were frozen as. */
  ghost predicate AsFrozen(q: Queue, ack: Ack) {
    forall id :: id in q.calls && q.calls[id].batch == Some(ack.batch) ==>
      q.calls[id].digest == Some(ack.digest) && ack.materialization == ack.digest.materialization
  }

  /** There is a result for every call of the Batch, and for no other. */
  ghost predicate AnswersAll(q: Queue, ack: Ack) {
    && (forall id :: id in q.calls && q.calls[id].batch == Some(ack.batch) ==>
      exists r :: r in ack.results && r.id == id)
    && (forall r :: r in ack.results ==> r.id in q.calls && q.calls[r.id].batch == Some(ack.batch))
  }

  /** A first acknowledgement is applied exactly when it is well formed, answers the next Batch of this
      store, frozen as it says, with one result for each of its calls, and every accepted call's targets
      hold the records it writes; otherwise it is told the first of these that is wrong. */
  lemma ToldExactly(q: Queue, ack: Ack)
    requires Inv(q) && ack.batch > q.last
    ensures Acknowledge(q, ack).1 ==
      if !Formed(ack) then Failed(InvalidAck)
      else if ack.store != q.store then Failed(StoreMismatch)
      else if ack.batch > q.last + 1 then Failed(Skipped)
      else if Memberless(q, ack.batch) then Failed(UnknownBatch)
      else if !AsFrozen(q, ack) then Failed(Mismatch)
      else if !AnswersAll(q, ack) then Failed(MembershipMismatch)
      else if exists r :: r in ack.results && !Covered(q.calls[r.id], r.outcome) then Failed(TargetMissing)
      else Done(())
  {
    WellFormedAck(ack);
    ReconstructExactly(q, ack.batch);
    if ack.batch == q.last + 1 && !Memberless(q, ack.batch) { ToldOpen(q, ack); }
  }

  lemma ToldOpen(q: Queue, ack: Ack)
    requires Inv(q) && ack.batch == q.last + 1 && !Memberless(q, ack.batch)
    ensures Reconstruct(q, ack.batch) == Done(Rebuilt(q, ack.batch))
    ensures var request := Rebuilt(q, ack.batch);
      && (ack.digest == request && ack.materialization == request.materialization <==> AsFrozen(q, ack))
      && ((set m | m in request.mutations :: m.id) == ResultIds(ack) <==> AnswersAll(q, ack))
      && (AnswersAll(q, ack) ==>
        (TargetsSupplied(request, ack) <==> !exists r :: r in ack.results && !Covered(q.calls[r.id], r.outcome)))
  {
    forall id | id in q.calls ensures id < q.next { assert CallOk(q, id, q.calls[id]); }
    forall id | id in q.calls && q.calls[id].batch == Some(ack.batch)
      ensures Member(q, ack.batch, id) && q.calls[id].digest == Some(Rebuilt(q, ack.batch))
    {
      assert FrozenOk(q, id);
    }
    var id :| id in q.calls && q.calls[id].batch == Some(ack.batch);
    assert Member(q, ack.batch, id);
    OpenReconstructs(q);
    RequestIdsAreMembers(q, ack.batch);
    SameIds(q, ack);
    if MemberIds(q, ack.batch) == ResultIds(ack) { CoveredIs(q, ack); }
  }

  lemma WellFormedAck(ack: Ack)
    ensures ValidAck(ack) <==> Formed(ack)
  {
    forall r: MutationResult ensures ValidResult(r) <==> WellFormed(r) {}
  }

  lemma SameIds(q: Queue, ack: Ack)
    ensures MemberIds(q, ack.batch) == ResultIds(ack) <==> AnswersAll(q, ack)
  {
    forall id ensures id in ResultIds(ack) <==> exists r :: r in ack.results && r.id == id {}
    forall id ensures id in MemberIds(q, ack.batch) <==> id in q.calls && q.calls[id].batch == Some(ack.batch) {}
    if MemberIds(q, ack.batch) == ResultIds(ack) {
      forall r | r in ack.results ensures r.id in MemberIds(q, ack.batch) { assert r.id in ResultIds(ack); }
    }
  }

  lemma CoveredIs(q: Queue, ack: Ack)
    requires Inv(q) && MemberIds(q, ack.batch) == ResultIds(ack)
    ensures TargetsSupplied(Rebuilt(q, ack.batch), ack) <==>
      forall r :: r in ack.results ==> r.id in q.calls && Covered(q.calls[r.id], r.outcome)
  {
    var request := Rebuilt(q, ack.batch);
    forall r | r in ack.results ensures r.id in q.calls && Sent(r.id, q.calls[r.id]) in request.mutations {
      assert r.id in ResultIds(ack);
      assert r.id in MemberIds(q, ack.batch) && CallOk(q, r.id, q.calls[r.id]);
      MembersInMutations(q, ack.batch, q.next, r.id);
    }
    forall r, m | r in ack.results && m in request.mutations && m.id == r.id ensures m == Sent(r.id, q.calls[r.id]) {
      MutationsFromMembers(q, ack.batch, q.next, m);
    }
    forall r | r in ack.results && r.outcome.Accepted?
      ensures Supplied(Sent(r.id, q.calls[r.id]), r.outcome.acceptance.targets) <==> Covered(q.calls[r.id], r.outcome)
    {
      forall item ensures item in Inputs(q.calls[r.id].items) <==> item in q.calls[r.id].items && item.path.Some? {
        InputsListed(q.calls[r.id].items, item);
      }
    }
  }

  lemma FirstResultFinds(results: seq<MutationResult>, i: nat)
    requires i < |results| && forall j, k :: 0 <= j < k < |results| ==> results[j].id != results[k].id
    ensures FirstResult(results, results[i].id) == i
  {
    var f := FirstResult(results, results[i].id);
    assert f <= i;
    assert results[f].id == results[i].id;
  }

  predicate ResultFor(ack: Ack, i: nat, id: nat) {
    i < |ack.results| && ack.results[i].id == id && FirstResult(ack.results, id) == i
  }

  lemma ResultOf(ack: Ack, id: nat) returns (i: nat)
    requires ValidAck(ack) && id in ResultIds(ack)
    ensures ResultFor(ack, i, id)
    ensures match ack.results[i].outcome
      case Accepted(acceptance) =>
        AcceptedIn(ack.results, id) == Some(acceptance) && Get(RefusedIn(ack.results), id).None?
      case Rejected(refusal) => AcceptedIn(ack.results, id).None? && Get(RefusedIn(ack.results), id) == Some(refusal)
  {
    var r :| r in ack.results && r.id == id;
    i :| 0 <= i < |ack.results| && ack.results[i] == r;
    FirstResultFinds(ack.results, i);
  }

  /** A call after an acknowledgement: members get their outcomes, what follows a refusal is refused
      with it, everything else is as it was. */
  predicate SettledCall(q: Queue, ack: Ack, t: Queue, id: nat) {
    && id in q.calls && id in t.calls
    && var c, d := q.calls[id], t.calls[id];
    && d == c.(acceptance := d.acceptance, refusal := d.refusal, reconciled := d.reconciled)
    && if Member(q, ack.batch, id) then
         && d.reconciled == d.refusal.Some?
         && c.acceptance.None? && c.refusal.None? && !c.reconciled
         && d.acceptance.Some? == d.refusal.None?
         && exists r :: r in ack.results && r.id == id && OutcomeOf(d) == Some(r.outcome)
       else
         && d.acceptance == c.acceptance
         && ((d.refusal == c.refusal && d.reconciled == c.reconciled)
             || (d.refusal == Some(DEPENDENCY_REJECTED) && d.reconciled && c.batch.None?))
  }

  lemma InitialRefusals(q: Queue, ack: Ack, id: nat)
    requires Inv(q) && Applies(q, ack) && id in RefusedIn(ack.results)
    ensures id in q.calls && Member(q, ack.batch, id) && !q.calls[id].reconciled
  {
    assert id in ResultIds(ack);
    assert id in MemberIds(q, ack.batch) && CallOk(q, id, q.calls[id]);
  }

  /** A call's row after an acknowledgement, column by column. */
  function SettledRow(c: Call, acceptance: Option<Acceptance>, refusal: Option<Refusal>): Call {
    c.(acceptance := if acceptance.Some? then acceptance else c.acceptance,
       refusal := if refusal.Some? then refusal else c.refusal,
       reconciled := refusal.Some? || c.reconciled)
  }

  lemma SettledRowIs(q: Queue, ack: Ack, id: nat)
    requires id in q.calls
    ensures id in Settled(q, ack).calls
    ensures var refusal := Get(Refusals(q.edges, RefusedIn(ack.results)), id);
      Settled(q, ack).calls[id] == SettledRow(q.calls[id], AcceptedIn(ack.results, id), refusal)
  {
    RefuseColumns(Accept(q, ack.results), Refusals(q.edges, RefusedIn(ack.results)), id);
  }

  lemma RefusedSent(q: Queue, initial: map<nat, Refusal>, id: nat)
    requires Inv(q) && id in q.calls && q.calls[id].batch.Some?
    requires forall i :: i in initial ==> i in q.calls && !q.calls[i].reconciled
    ensures Get(Refusals(q.edges, initial), id) == Get(initial, id)
  {
    ClosureGrows(q.edges, initial.Keys);
    if id in Closure(q.edges, initial.Keys) {
      RefusalSparesSent(q, initial.Keys, id);
    }
  }

  lemma RefusedMember(q: Queue, ack: Ack, id: nat)
    requires Inv(q) && Applies(q, ack) && Member(q, ack.batch, id)
    ensures Get(Refusals(q.edges, RefusedIn(ack.results)), id) == Get(RefusedIn(ack.results), id)
  {
    forall i | i in RefusedIn(ack.results) ensures i in q.calls && !q.calls[i].reconciled {
      InitialRefusals(q, ack, i);
    }
    RefusedSent(q, RefusedIn(ack.results), id);
  }

  lemma SettledMember(q: Queue, ack: Ack, id: nat)
    requires Inv(q) && Applies(q, ack) && Member(q, ack.batch, id)
    ensures SettledCall(q, ack, Settled(q, ack), id)
  {
    SettledRowIs(q, ack, id);
    RefusedMember(q, ack, id);
    MemberFresh(q, ack, id);
    MemberAnswered(q.calls[id], ack, id, Settled(q, ack).calls[id]);
  }

  lemma MemberFresh(q: Queue, ack: Ack, id: nat)
    requires Inv(q) && Applies(q, ack) && Member(q, ack.batch, id)
    ensures q.calls[id].acceptance.None? && q.calls[id].refusal.None? && !q.calls[id].reconciled
    ensures ValidAck(ack) && id in ResultIds(ack)
  {
    assert CallOk(q, id, q.calls[id]) && id in MemberIds(q, ack.batch);
  }

  lemma MemberAnswered(c: Call, ack: Ack, id: nat, d: Call)
    requires c.acceptance.None? && c.refusal.None? && !c.reconciled && ValidAck(ack) && id in ResultIds(ack)
    requires d == SettledRow(c, AcceptedIn(ack.results, id), Get(RefusedIn(ack.results), id))
    ensures d.reconciled == d.refusal.Some? && d.acceptance.Some? == d.refusal.None?
    ensures exists r :: r in ack.results && r.id == id && OutcomeOf(d) == Some(r.outcome)
  {
    var i := ResultOf(ack, id);
    assert ack.results[i] in ack.results;
  }

  lemma MemberNotFollowed(q: Queue, ack: Ack, id: nat)
    requires Inv(q) && Applies(q, ack) && id in Closure(q.edges, RefusedIn(ack.results).Keys)
    ensures id in q.calls && (id in RefusedIn(ack.results) || q.calls[id].batch.None?)
  {
    forall i | i in RefusedIn(ack.results).Keys ensures i in q.calls && !q.calls[i].reconciled {
      InitialRefusals(q, ack, i);
    }
    RefusalSparesSent(q, RefusedIn(ack.results).Keys, id);
  }

  lemma SettledOther(q: Queue, ack: Ack, id: nat)
    requires Inv(q) && Applies(q, ack) && id in q.calls && !Member(q, ack.batch, id)
    ensures SettledCall(q, ack, Settled(q, ack), id)
  {
    assert id !in MemberIds(q, ack.batch);
    assert id !in ResultIds(ack);
    NotAccepted(ack, id);
    SettledRowIs(q, ack, id);
    if id in Refusals(q.edges, RefusedIn(ack.results)) {
      MemberNotFollowed(q, ack, id);
    }
  }

  lemma SettledColumns(q: Queue, ack: Ack, id: nat)
    requires id in q.calls
    ensures RefusedColumns(q, Refusals(q.edges, RefusedIn(ack.results)), Settled(q, ack), id)
  {
    SettledRowIs(q, ack, id);
  }

  lemma SettledCalls(q: Queue, ack: Ack, id: nat)
    requires Inv(q) && Applies(q, ack) && id in q.calls
    ensures SettledCall(q, ack, Settled(q, ack), id)
    ensures RefusedColumns(q, Refusals(q.edges, RefusedIn(ack.results)), Settled(q, ack), id)
  {
    SettledColumns(q, ack, id);
    if Member(q, ack.batch, id) { SettledMember(q, ack, id); } else { SettledOther(q, ack, id); }
  }

  lemma NotAccepted(ack: Ack, id: nat)
    requires id !in ResultIds(ack)
    ensures AcceptedIn(ack.results, id).None? && id !in RefusedIn(ack.results)
  {
    forall r | r in ack.results ensures r.id != id { assert r.id in ResultIds(ack); }
  }

  lemma AcknowledgeKeepsInv(q: Queue, ack: Ack)
    requires Inv(q)
    ensures Inv(Acknowledge(q, ack).0)
  {
    if ack.batch > q.last {
      AppliesExactly(q, ack);
      if Applies(q, ack) { SettledKeepsInv(q, ack, Settled(q, ack)); }
    }
  }

  lemma SettledTables(q: Queue, ack: Ack)
    ensures var t := Settled(q, ack);
      t.last == ack.batch && t.next == q.next && t.edges == q.edges && t.calls.Keys == q.calls.Keys
  {
  }

  lemma UnsettledRefusals(q: Queue, ack: Ack)
    requires Inv(q) && Applies(q, ack)
    ensures forall i :: i in RefusedIn(ack.results) ==> i in q.calls && !q.calls[i].reconciled
  {
    forall i | i in RefusedIn(ack.results) ensures i in q.calls && !q.calls[i].reconciled {
      InitialRefusals(q, ack, i);
    }
  }

  lemma SettledKeepsInv(q: Queue, ack: Ack, t: Queue)
    requires Inv(q) && Applies(q, ack) && t == Settled(q, ack)
    ensures Inv(t)
  {
    SettledTables(q, ack);
    UnsettledRefusals(q, ack);
    forall id | id in q.calls
      ensures SettledCall(q, ack, t, id) && RefusedColumns(q, Refusals(q.edges, RefusedIn(ack.results)), t, id)
    {
      SettledCalls(q, ack, id);
    }
    SettledInv(q, ack, t);
  }

  lemma SettledInv(q: Queue, ack: Ack, t: Queue)
    requires Inv(q) && ack.batch == q.last + 1 == t.last && t.next == q.next && t.edges == q.edges
    requires t.calls.Keys == q.calls.Keys
    requires forall id :: id in q.calls ==> SettledCall(q, ack, t, id)
    requires forall id :: id in q.calls ==> RefusedColumns(q, Refusals(q.edges, RefusedIn(ack.results)), t, id)
    requires forall i :: i in RefusedIn(ack.results) ==> i in q.calls && !q.calls[i].reconciled
    ensures Inv(t)
  {
    forall id | id in t.calls ensures CallOk(t, id, t.calls[id]) && FrozenOk(t, id) {
      assert SettledCall(q, ack, t, id) && CallOk(q, id, q.calls[id]);
    }
    forall e | e in t.edges ensures EdgeOk(t, e.0, e.1) { RefusedEdge(q, RefusedIn(ack.results), t, e.0, e.1); }
    forall i, j | Unsettled(t, i) && Unsettled(t, j) ensures t.calls[i].batch == t.calls[j].batch {
      assert SettledCall(q, ack, t, i) && SettledCall(q, ack, t, j);
      assert Unsettled(q, i) && Unsettled(q, j);
    }
  }
}
