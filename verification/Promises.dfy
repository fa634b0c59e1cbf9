/** What becomes of a submitted call, over every run of the queue from its submission on. */
module Promises {
  import opened Rows
  import opened Calls
  import opened Batches
  import opened Sending
  import opened Receipts
  import opened QueueRuns

  // ------------------------------------------------------------- prerequisites

  /** The call is in no Batch, and waits or was refused. */
  ghost predicate Waits(q: Queue, id: nat, key: string) {
    && id in q.calls && q.calls[id].batch.None?
    && ((id, key) in q.prerequisites || q.calls[id].refusal.Some?)
  }

  lemma StepWaits(q: Queue, a: Action, id: nat, key: string)
    requires Inv(q) && Waits(q, id, key) && a != ResolvePrerequisite(key)
    ensures Waits(Step(q, a), id, key)
  {
    match a
    case Submit(draft) => SubmitWaits(q, draft, id, key);
    case Freezing => FreezeWaits(q, id, key);
    case Acknowledging(ack) => AcknowledgeWaits(q, ack, id, key);
    case Cancelling(dropped, dismiss) => CancelWaits(q, dropped, dismiss, id, key);
    case Dismissing(other) => DismissWaits(q, other, id, key);
    case ResolvePrerequisite(_) =>
    case StoreLocal(other, payload) => LocalWaits(q, other, payload, id, key);
    case Settling(_) =>
    case Migrating(_) =>
  }

  lemma SubmitWaits(q: Queue, d: Draft, id: nat, key: string)
    requires Inv(q) && Waits(q, id, key)
    ensures Waits(Enqueue(q, d).0, id, key)
  {
    assert CallOk(q, id, q.calls[id]);
  }

  lemma LocalWaits(q: Queue, other: nat, payload: Payload, id: nat, key: string)
    requires Waits(q, id, key)
    ensures Waits(AppendLocal(q, other, payload), id, key)
  {
  }

  lemma FreezeWaits(q: Queue, id: nat, key: string)
    requires Inv(q) && Waits(q, id, key)
    ensures Waits(Freeze(q).0, id, key)
  {
    FreezeTakesExactly(q, id);
    FreezeAnswers(q);
    if Freeze(q).0 != q { SealedCalls(q, Freeze(q).0, id); }
  }

  lemma AcknowledgeWaits(q: Queue, ack: Ack, id: nat, key: string)
    requires Inv(q) && Waits(q, id, key)
    ensures Waits(Acknowledge(q, ack).0, id, key)
  {
    if ack.batch > q.last {
      AppliesExactly(q, ack);
      if Applies(q, ack) { SettledRowIs(q, ack, id); }
    }
  }

  lemma DismissWaits(q: Queue, other: nat, id: nat, key: string)
    requires Waits(q, id, key)
    ensures Waits(Dismiss(q, other).0, id, key)
  {
  }

  lemma CancelWaits(q: Queue, dropped: nat, dismiss: bool, id: nat, key: string)
    requires Waits(q, id, key)
    ensures Waits(Cancel(q, dropped, dismiss).0, id, key)
  {
    if dropped in q.calls && q.calls[dropped].batch.None? && !q.calls[dropped].reconciled {
      var refused := Refusals(q.edges, map[dropped := DROPPED]);
      RefuseColumns(q, refused, id);
      DismissWaits(Refuse(q, refused), dropped, id, key);
    }
  }

  lemma {:induction false} RunWaits(q: Queue, actions: seq<Action>, id: nat, key: string)
    requires Inv(q) && Waits(q, id, key) && forall a :: a in actions ==> a != ResolvePrerequisite(key)
    ensures Waits(After(q, actions), id, key)
  {
    if actions != [] {
      var n := |actions| - 1;
      assert actions[n] in actions;
      forall a | a in actions[..n] ensures a in actions {}
      RunWaits(q, actions[..n], id, key);
      RunKeeps(q, actions[..n]);
      StepWaits(After(q, actions[..n]), actions[n], id, key);
    }
  }

  /** A call submitted with a prerequisite is in no Batch until a step resolves that prerequisite,
      whatever else is resolved, settled, dropped or dismissed meanwhile. */
  lemma WaitsForPrerequisite(q: Queue, d: Draft, key: string, actions: seq<Action>)
    requires Inv(q) && Admissible(q, d) && q.next < MAX_SAFE_INTEGER && key in d.prerequisites
    requires forall a :: a in actions ==> a != ResolvePrerequisite(key)
    ensures var u := After(Step(q, Submit(d)), actions); q.next in u.calls && u.calls[q.next].batch.None?
  {
    StepKeeps(q, Submit(d));
    RunWaits(Step(q, Submit(d)), actions, q.next, key);
  }

  /** And once it is resolved no call waits for it. */
  lemma ResolvedReleases(q: Queue, key: string, id: nat)
    ensures (id, key) !in Step(q, ResolvePrerequisite(key)).prerequisites
    ensures forall other :: other != key ==>
      ((id, other) in Step(q, ResolvePrerequisite(key)).prerequisites <==> (id, other) in q.prerequisites)
  {
  }

  // ---------------------------------------------------------------- what is sent

  /** A call's inputs: the stored operations that have an input path, each at its step. */
  ghost function SentItems(list: seq<(Option<string>, Payload)>): seq<Item> {
    if list == [] then []
    else
      var n := |list| - 1;
      SentItems(list[..n]) + if list[n].0.Some? then [Item(n, list[n].0, list[n].1)] else []
  }

  ghost predicate SentAs(q: Queue, id: nat, d: Draft) {
    && id in q.calls
    && q.calls[id].name == d.name && q.calls[id].version == d.version && q.calls[id].descriptor == d.descriptor
    && (!q.calls[id].reconciled ==> Inputs(q.calls[id].items) == SentItems(d.items))
  }

  /** A step keeps what identifies a call, and its inputs while it pends. */
  ghost predicate SameCall(q: Queue, t: Queue, id: nat) {
    id in q.calls ==>
      && id in t.calls
      && var c, d := q.calls[id], t.calls[id];
      && d.name == c.name && d.version == c.version && d.descriptor == c.descriptor
      && (!d.reconciled ==> !c.reconciled && Inputs(d.items) == Inputs(c.items))
  }

  lemma StepSame(q: Queue, a: Action, id: nat)
    requires Inv(q)
    ensures SameCall(q, Step(q, a), id)
  {
    match a
    case Submit(draft) => if id in q.calls { assert CallOk(q, id, q.calls[id]); }
    case Freezing => FreezeSame(q, id);
    case Acknowledging(ack) => AcknowledgeSame(q, ack, id);
    case Cancelling(dropped, dismiss) => CancelSame(q, dropped, dismiss, id);
    case Dismissing(other) => DismissSame(q, other, id);
    case StoreLocal(other, payload) => StoreSame(q, other, payload, id);
    case Settling(other) => SettleSame(q, other, id);
    case ResolvePrerequisite(_) =>
    case Migrating(_) =>
  }

  lemma SettleSame(q: Queue, other: nat, id: nat)
    ensures SameCall(q, Reconcile(q, other), id)
  {
  }

  lemma StoreSame(q: Queue, other: nat, payload: Payload, id: nat)
    ensures SameCall(q, AppendLocal(q, other, payload), id)
  {
    if Live(q, other) { InputsAppend(q.calls[other].items, Item(|q.calls[other].items|, None, payload)); }
  }

  lemma FreezeSame(q: Queue, id: nat)
    requires Inv(q)
    ensures SameCall(q, Freeze(q).0, id)
  {
    FreezeAnswers(q);
    if Freeze(q).0 != q && id in q.calls { SealedCalls(q, Freeze(q).0, id); }
  }

  lemma AcknowledgeSame(q: Queue, ack: Ack, id: nat)
    requires Inv(q)
    ensures SameCall(q, Acknowledge(q, ack).0, id)
  {
    if ack.batch > q.last && id in q.calls {
      AppliesExactly(q, ack);
      if Applies(q, ack) { SettledRowIs(q, ack, id); }
    }
  }

  lemma CancelSame(q: Queue, dropped: nat, dismiss: bool, id: nat)
    ensures SameCall(q, Cancel(q, dropped, dismiss).0, id)
  {
    if id in q.calls && dropped in q.calls && q.calls[dropped].batch.None? && !q.calls[dropped].reconciled {
      RefuseColumns(q, Refusals(q.edges, map[dropped := DROPPED]), id);
      if dismiss { DismissSame(Refuse(q, Refusals(q.edges, map[dropped := DROPPED])), dropped, id); }
    }
  }

  lemma DismissSame(q: Queue, other: nat, id: nat)
    ensures SameCall(q, Dismiss(q, other).0, id)
  {
  }

  lemma {:induction false} NumberedInputs(list: seq<(Option<string>, Payload)>)
    ensures Inputs(Numbered(list)) == SentItems(list)
  {
    if list != [] {
      var n := |list| - 1;
      var item := Item(n, list[n].0, list[n].1);
      assert Numbered(list) == Numbered(list[..n]) + [item];
      InputsAppend(Numbered(list[..n]), item);
      NumberedInputs(list[..n]);
    }
  }

  lemma {:induction false} RunSentAs(q: Queue, actions: seq<Action>, id: nat, d: Draft)
    requires Inv(q) && SentAs(q, id, d)
    ensures SentAs(After(q, actions), id, d)
  {
    if actions != [] {
      var n := |actions| - 1;
      RunSentAs(q, actions[..n], id, d);
      RunKeeps(q, actions[..n]);
      StepSame(After(q, actions[..n]), actions[n], id);
    }
  }

  lemma SubmittedAs(q: Queue, d: Draft)
    requires Inv(q) && Admissible(q, d) && q.next < MAX_SAFE_INTEGER
    ensures Inv(Step(q, Submit(d))) && SentAs(Step(q, Submit(d)), q.next, d)
  {
    StepKeeps(q, Submit(d));
    NumberedInputs(d.items);
  }

  /** Whenever after its submission a call is in the open Batch, the request has it as it was submitted:
      its name, version and descriptor, and exactly its inputs, in order. */
  lemma SentAsSubmitted(q: Queue, d: Draft, actions: seq<Action>, u: Queue, m: Mutation)
    requires Inv(q) && Admissible(q, d) && q.next < MAX_SAFE_INTEGER
    requires u == After(Step(q, Submit(d)), actions)
    requires m in Rebuilt(u, u.last + 1).mutations && m.id == q.next
    ensures m.name == d.name && m.version == d.version && m.descriptor == d.descriptor
    ensures m.inputs == SentItems(d.items)
  {
    StillSentAs(q, d, actions, u);
    SentMember(u, q.next, m, d);
  }

  lemma StillSentAs(q: Queue, d: Draft, actions: seq<Action>, u: Queue)
    requires Inv(q) && Admissible(q, d) && q.next < MAX_SAFE_INTEGER
    requires u == After(Step(q, Submit(d)), actions)
    ensures Inv(u) && SentAs(u, q.next, d)
  {
    SubmittedAs(q, d);
    RunSentAs(Step(q, Submit(d)), actions, q.next, d);
    RunKeeps(Step(q, Submit(d)), actions);
  }

  lemma SentMember(u: Queue, id: nat, m: Mutation, d: Draft)
    requires Inv(u) && SentAs(u, id, d) && m in Rebuilt(u, u.last + 1).mutations && m.id == id
    ensures m.name == d.name && m.version == d.version && m.descriptor == d.descriptor
    ensures m.inputs == SentItems(d.items)
  {
    MutationsFromMembers(u, u.last + 1, u.next, m);
    assert CallOk(u, id, u.calls[id]);
  }

  // ------------------------------------------------------------ predecessors

  /** The call is bound to its lifecycle predecessor, or was refused. */
  ghost predicate Bound(q: Queue, id: nat, dep: nat) {
    && id in q.calls && dep in q.calls
    && (((id, dep) in q.edges && q.edges[(id, dep)] == Lifecycle) || q.calls[id].refusal.Some?)
  }

  lemma BoundRefused(q: Queue, id: nat, dep: nat)
    requires Inv(q) && Bound(q, id, dep) && q.calls[dep].refusal.Some?
    ensures q.calls[id].refusal.Some?
  {
    if (id, dep) in q.edges {
      assert EdgeOk(q, (id, dep).0, (id, dep).1);
      assert CallOk(q, id, q.calls[id]);
    }
  }

  lemma StepBound(q: Queue, a: Action, id: nat, dep: nat)
    requires Inv(q) && Bound(q, id, dep)
    ensures Bound(Step(q, a), id, dep)
  {
    match a
    case Submit(draft) => SubmitBound(q, draft, id, dep);
    case Freezing => FreezeBound(q, id, dep);
    case Acknowledging(ack) => AcknowledgeBound(q, ack, id, dep);
    case Cancelling(dropped, dismiss) => CancelBound(q, dropped, dismiss, id, dep);
    case Dismissing(other) => DismissBound(q, other, id, dep);
    case StoreLocal(_, _) =>
    case Settling(_) =>
    case ResolvePrerequisite(_) =>
    case Migrating(_) =>
  }

  lemma SubmitBound(q: Queue, d: Draft, id: nat, dep: nat)
    requires Inv(q) && Bound(q, id, dep)
    ensures Bound(Enqueue(q, d).0, id, dep)
  {
    assert CallOk(q, id, q.calls[id]) && CallOk(q, dep, q.calls[dep]);
  }

  lemma FreezeBound(q: Queue, id: nat, dep: nat)
    requires Inv(q) && Bound(q, id, dep)
    ensures Bound(Freeze(q).0, id, dep)
  {
    FreezeAnswers(q);
    if Freeze(q).0 != q {
      SealedCalls(q, Freeze(q).0, id);
      SealedCalls(q, Freeze(q).0, dep);
    }
  }

  lemma AcknowledgeBound(q: Queue, ack: Ack, id: nat, dep: nat)
    requires Inv(q) && Bound(q, id, dep)
    ensures Bound(Acknowledge(q, ack).0, id, dep)
  {
    if ack.batch > q.last {
      AppliesExactly(q, ack);
      if Applies(q, ack) {
        SettledTables(q, ack);
        SettledRowIs(q, ack, id);
      }
    }
  }

  lemma DismissBound(q: Queue, other: nat, id: nat, dep: nat)
    requires Inv(q) && Bound(q, id, dep)
    ensures Bound(Dismiss(q, other).0, id, dep)
  {
    if other in q.calls && q.calls[other].refusal.Some? && other == dep { BoundRefused(q, id, dep); }
  }

  lemma CancelBound(q: Queue, dropped: nat, dismiss: bool, id: nat, dep: nat)
    requires Inv(q) && Bound(q, id, dep)
    ensures Bound(Cancel(q, dropped, dismiss).0, id, dep)
  {
    if dropped in q.calls && q.calls[dropped].batch.None? && !q.calls[dropped].reconciled {
      var refused := Refusals(q.edges, map[dropped := DROPPED]);
      RefuseColumns(q, refused, id);
      DropKeepsInv(q, dropped);
      DismissBound(Refuse(q, refused), dropped, id, dep);
    }
  }

  lemma {:induction false} RunBound(q: Queue, actions: seq<Action>, id: nat, dep: nat)
    requires Inv(q) && Bound(q, id, dep)
    ensures Bound(After(q, actions), id, dep)
  {
    if actions != [] {
      var n := |actions| - 1;
      RunBound(q, actions[..n], id, dep);
      RunKeeps(q, actions[..n]);
      StepBound(After(q, actions[..n]), actions[n], id, dep);
    }
  }

  /** A call submitted after another by lifecycle is refused whenever that one is, after any steps: by a
      drop or an acknowledgement, and also once either of them has been dismissed. */
  lemma RefusedTogether(q: Queue, d: Draft, dep: nat, actions: seq<Action>)
    requires Inv(q) && Admissible(q, d) && q.next < MAX_SAFE_INTEGER && dep in d.lifecycle
    ensures var u := After(Step(q, Submit(d)), actions);
      && q.next in u.calls && dep in u.calls
      && (u.calls[dep].refusal.Some? ==> u.calls[q.next].refusal.Some?)
  {
    var t := Step(q, Submit(d));
    SubmittedBehind(q, d, dep);
    RunBound(t, actions, q.next, dep);
    RunKeeps(t, actions);
    if After(t, actions).calls[dep].refusal.Some? { BoundRefused(After(t, actions), q.next, dep); }
  }

  /** The call is behind its predecessor, or that one is settled, or this one was refused unsent. */
  ghost predicate Behind(q: Queue, id: nat, dep: nat) {
    && id in q.calls && dep in q.calls
    && ((id, dep) in q.edges || q.calls[dep].reconciled || (q.calls[id].refusal.Some? && q.calls[id].batch.None?))
  }

  lemma StepBehind(q: Queue, a: Action, id: nat, dep: nat)
    requires Inv(q) && Behind(q, id, dep)
    ensures Behind(Step(q, a), id, dep)
  {
    match a
    case Submit(draft) => assert CallOk(q, id, q.calls[id]) && CallOk(q, dep, q.calls[dep]);
    case Freezing => FreezeBehind(q, id, dep);
    case Acknowledging(ack) => AcknowledgeBehind(q, ack, id, dep);
    case Cancelling(dropped, dismiss) => CancelBehind(q, dropped, dismiss, id, dep);
    case Dismissing(other) => DismissBehind(q, other, id, dep);
    case StoreLocal(_, _) =>
    case Settling(_) =>
    case ResolvePrerequisite(_) =>
    case Migrating(_) =>
  }

  lemma FreezeBehind(q: Queue, id: nat, dep: nat)
    requires Inv(q) && Behind(q, id, dep)
    ensures Behind(Freeze(q).0, id, dep)
  {
    FreezeAnswers(q);
    if Freeze(q).0 != q {
      SealedCalls(q, Freeze(q).0, id);
      SealedCalls(q, Freeze(q).0, dep);
    }
  }

  lemma AcknowledgeBehind(q: Queue, ack: Ack, id: nat, dep: nat)
    requires Inv(q) && Behind(q, id, dep)
    ensures Behind(Acknowledge(q, ack).0, id, dep)
  {
    if ack.batch > q.last {
      AppliesExactly(q, ack);
      if Applies(q, ack) {
        SettledTables(q, ack);
        SettledRowIs(q, ack, id);
        SettledRowIs(q, ack, dep);
      }
    }
  }

  lemma DismissBehind(q: Queue, other: nat, id: nat, dep: nat)
    requires Inv(q) && Behind(q, id, dep)
    ensures Behind(Dismiss(q, other).0, id, dep)
  {
    if other == id && (id, dep) in q.edges { assert EdgeOk(q, (id, dep).0, (id, dep).1); }
  }

  lemma CancelBehind(q: Queue, dropped: nat, dismiss: bool, id: nat, dep: nat)
    requires Inv(q) && Behind(q, id, dep)
    ensures Behind(Cancel(q, dropped, dismiss).0, id, dep)
  {
    if dropped in q.calls && q.calls[dropped].batch.None? && !q.calls[dropped].reconciled {
      var refused := Refusals(q.edges, map[dropped := DROPPED]);
      RefuseColumns(q, refused, id);
      RefuseColumns(q, refused, dep);
      DropKeepsInv(q, dropped);
      DismissBehind(Refuse(q, refused), dropped, id, dep);
    }
  }

  lemma {:induction false} RunBehind(q: Queue, actions: seq<Action>, id: nat, dep: nat)
    requires Inv(q) && Behind(q, id, dep)
    ensures Behind(After(q, actions), id, dep)
  {
    if actions != [] {
      var n := |actions| - 1;
      RunBehind(q, actions[..n], id, dep);
      RunKeeps(q, actions[..n]);
      StepBehind(After(q, actions[..n]), actions[n], id, dep);
    }
  }

  /** A call submitted after another, by lifecycle or by a sequence, is in no Batch before that one is settled. */
  lemma SentAfterwards(q: Queue, d: Draft, dep: nat, actions: seq<Action>)
    requires Inv(q) && Admissible(q, d) && q.next < MAX_SAFE_INTEGER && dep in d.lifecycle + d.sequence
    ensures var u := After(Step(q, Submit(d)), actions);
      && q.next in u.calls && dep in u.calls
      && (u.calls[q.next].batch.Some? ==> u.calls[dep].reconciled)
  {
    var t := Step(q, Submit(d));
    SubmittedBehind(q, d, dep);
    RunBehind(t, actions, q.next, dep);
    RunKeeps(t, actions);
    if After(t, actions).calls[q.next].batch.Some? { BehindSettled(After(t, actions), q.next, dep); }
  }

  lemma SubmittedBehind(q: Queue, d: Draft, dep: nat)
    requires Inv(q) && Admissible(q, d) && q.next < MAX_SAFE_INTEGER && dep in d.lifecycle + d.sequence
    ensures Inv(Step(q, Submit(d))) && Behind(Step(q, Submit(d)), q.next, dep)
    ensures dep in d.lifecycle ==> Bound(Step(q, Submit(d)), q.next, dep)
  {
    StepKeeps(q, Submit(d));
    assert Live(q, dep) && CallOk(q, dep, q.calls[dep]);
    assert (q.next, dep) in NewEdges(q.next, d);
  }

  lemma BehindSettled(q: Queue, id: nat, dep: nat)
    requires Inv(q) && Behind(q, id, dep) && q.calls[id].batch.Some?
    ensures q.calls[dep].reconciled
  {
    if (id, dep) in q.edges { assert EdgeOk(q, (id, dep).0, (id, dep).1); }
  }

  // ------------------------------------------------------------------ refusals

  /** Each call follows the one before it by lifecycle. */
  ghost predicate LifecyclePath(edges: map<(nat, nat), EdgeKind>, path: seq<nat>) {
    path != [] && forall i :: 0 < i < |path| ==>
      (path[i], path[i - 1]) in edges && edges[(path[i], path[i - 1])] == Lifecycle
  }

  /** What is refused with some calls is what lifecycle edges alone lead to, with its own code where it has one. */
  lemma RefusedExactly(edges: map<(nat, nat), EdgeKind>, initial: map<nat, Refusal>, id: nat)
    ensures id in Refusals(edges, initial) <==>
      exists path :: LifecyclePath(edges, path) && path[0] in initial && path[|path| - 1] == id
    ensures id in Refusals(edges, initial) ==>
      Refusals(edges, initial)[id] == if id in initial then initial[id] else Refusal("dependency.rejected", None)
  {
    RefusesExactly(edges, initial, id);
    forall path: seq<nat> ensures LifecyclePath(edges, path) <==> RefusalPath(edges, path) { SamePath(edges, path); }
  }

  lemma SamePath(edges: map<(nat, nat), EdgeKind>, path: seq<nat>)
    ensures LifecyclePath(edges, path) <==> RefusalPath(edges, path)
  {
    if RefusalPath(edges, path) {
      forall i | 0 < i < |path| ensures (path[i], path[i - 1]) in edges && edges[(path[i], path[i - 1])] == Lifecycle {
        assert Follows(edges, path[i], path[i - 1]);
      }
    }
  }

  /** A dropped call is refused as dropped, and what follows it as a dependency. */
  lemma DroppedExactly(q: Queue, dropped: nat, dismiss: bool, id: nat)
    requires Inv(q) && dropped in q.calls && q.calls[dropped].batch.None? && !q.calls[dropped].reconciled
    requires id in q.calls
    ensures var t := Cancel(q, dropped, dismiss).0;
      && id in t.calls
      && t.calls[id].refusal ==
        if id == dropped then Some(Refusal("dropped", None))
        else if exists path :: LifecyclePath(q.edges, path) && path[0] == dropped && path[|path| - 1] == id
        then Some(Refusal("dependency.rejected", None))
        else q.calls[id].refusal
  {
    var refused := Refusals(q.edges, map[dropped := DROPPED]);
    DroppedCode(q.edges, dropped, id);
    RefuseColumns(q, refused, id);
    DismissSame(Refuse(q, refused), dropped, id);
    assert Dismiss(Refuse(q, refused), dropped).0.calls[id].refusal == Refuse(q, refused).calls[id].refusal;
  }

  lemma DroppedCode(edges: map<(nat, nat), EdgeKind>, dropped: nat, id: nat)
    ensures Get(Refusals(edges, map[dropped := DROPPED]), id) ==
      if id == dropped then Some(Refusal("dropped", None))
      else if exists path :: LifecyclePath(edges, path) && path[0] == dropped && path[|path| - 1] == id
      then Some(Refusal("dependency.rejected", None))
      else None
  {
    var initial := map[dropped := DROPPED];
    RefusedExactly(edges, initial, id);
    if id == dropped { assert LifecyclePath(edges, [id]) && [id][0] in initial && [id][|[id]| - 1] == id; }
  }

  /** A refused member of an acknowledged Batch has the code it was given. */
  lemma AcknowledgedExactly(q: Queue, ack: Ack, r: MutationResult)
    requires Inv(q) && ack.batch > q.last && Acknowledge(q, ack).1.Done? && r in ack.results
    ensures var t := Acknowledge(q, ack).0;
      && r.id in t.calls
      && match r.outcome
         case Accepted(acceptance) => t.calls[r.id].acceptance == Some(acceptance) && t.calls[r.id].refusal.None?
         case Rejected(refusal) => t.calls[r.id].refusal == Some(refusal) && t.calls[r.id].acceptance.None?
  {
    AppliesExactly(q, ack);
    assert r.id in ResultIds(ack) && r.id in MemberIds(q, ack.batch);
    MemberFresh(q, ack, r.id);
    SettledRowIs(q, ack, r.id);
    RefusedMember(q, ack, r.id);
    var i := ResultOf(ack, r.id);
    assert ack.results[i] == r;
  }
}
