/** What every step of the queue keeps, and what follows for a Batch that may have been sent. */
module Batches {
  import opened Rows
  import opened Calls

  /** A call's own columns. */
  predicate CallOk(q: Queue, id: nat, c: Call) {
    && 1 <= id < q.next
    && (c.batch.Some? ==> 1 <= c.batch.value <= q.last + 1 && c.digest.Some? && c.materialization.Some?)
    && (c.batch.Some? && c.batch.value <= q.last ==> c.acceptance.Some? || c.refusal.Some?)
    && (c.batch == Some(q.last + 1) ==> c.acceptance.None? && c.refusal.None? && !c.reconciled)
    && (c.batch.None? ==> c.acceptance.None? && c.digest.None?)
    && (c.refusal.Some? ==> c.reconciled && c.acceptance.None?)
    && (c.reconciled ==> c.acceptance.Some? || c.refusal.Some?)
  }

  /** Edges point strictly backward to stored calls; no call still pending has a refused lifecycle
      predecessor, and every predecessor of a sent call is settled. */
  predicate EdgeOk(q: Queue, id: nat, dep: nat) {
    && id in q.calls && dep in q.calls && dep < id
    && (Follows(q.edges, id, dep) && !q.calls[id].reconciled ==> q.calls[dep].refusal.None?)
    && (q.calls[id].batch.Some? ==>
      q.calls[dep].reconciled && (Follows(q.edges, id, dep) ==> q.calls[dep].refusal.None?))
  }

  /** The open Batch is still the request it was frozen as. */
  predicate FrozenOk(q: Queue, id: nat) {
    Member(q, q.last + 1, id) ==>
      && q.calls[id].digest == Some(Rebuilt(q, q.last + 1))
      && q.calls[id].materialization == Some(Rebuilt(q, q.last + 1).materialization)
  }

  ghost predicate Inv(q: Queue) {
    && 1 <= q.next
    && (forall id :: id in q.calls ==> CallOk(q, id, q.calls[id]))
    && (forall e :: e in q.edges ==> EdgeOk(q, e.0, e.1))
    && (forall id :: id in q.calls ==> FrozenOk(q, id))
    && (forall i, j :: Unsettled(q, i) && Unsettled(q, j) ==> q.calls[i].batch == q.calls[j].batch)
  }

  // ------------------------------------------------------------- refusals stop

  /** A refusal that starts from calls not yet settled reaches, besides those, only calls that were
      never sent. */
  lemma {:induction false} PathSparesSent(q: Queue, initial: set<nat>, path: seq<nat>)
    requires Inv(q) && RefusalPath(q.edges, path) && path[0] in initial
    requires forall id :: id in initial ==> id in q.calls && !q.calls[id].reconciled
    ensures var id := path[|path| - 1]; id in q.calls && (id in initial || q.calls[id].batch.None?)
  {
    if |path| > 1 {
      var n := |path| - 1;
      PathSparesSent(q, initial, path[..n]);
      assert Follows(q.edges, path[n], path[n - 1]);
      assert EdgeOk(q, path[n], path[n - 1]);
      assert CallOk(q, path[n - 1], q.calls[path[n - 1]]);
    }
  }

  lemma RefusalSparesSent(q: Queue, initial: set<nat>, id: nat)
    requires Inv(q) && id in Closure(q.edges, initial)
    requires forall i :: i in initial ==> i in q.calls && !q.calls[i].reconciled
    ensures id in q.calls && (id in initial || q.calls[id].batch.None?)
  {
    var path :| RefusalPath(q.edges, path) && path[0] in initial && path[|path| - 1] == id;
    PathSparesSent(q, initial, path);
  }

  lemma ClosureGrows(edges: map<(nat, nat), EdgeKind>, initial: set<nat>)
    ensures initial <= Closure(edges, initial)
  {
    forall id | id in initial ensures id in Closure(edges, initial) {
      assert RefusalPath(edges, [id]);
      assert [id][0] in initial && [id][|[id]| - 1] == id;
    }
  }

  lemma ClosureClosed(edges: map<(nat, nat), EdgeKind>, initial: set<nat>, id: nat, dep: nat)
    requires dep in Closure(edges, initial) && Follows(edges, id, dep)
    ensures id in Closure(edges, initial)
  {
    var path :| RefusalPath(edges, path) && path[0] in initial && path[|path| - 1] == dep;
    var longer := path + [id];
    assert RefusalPath(edges, longer) && longer[0] in initial && longer[|longer| - 1] == id;
    assert (id, dep) in edges && (id, dep).0 == id;
  }

  // ------------------------------------------------------- rebuilding is stable

  /** A step that keeps a Batch's members and what they send keeps the request rebuilt from them. */
  predicate SameSent(q: Queue, t: Queue, batch: nat, id: nat) {
    && (Member(t, batch, id) <==> Member(q, batch, id))
    && (Member(q, batch, id) ==>
      && Sent(id, t.calls[id]) == Sent(id, q.calls[id])
      && t.calls[id].materialization == q.calls[id].materialization)
  }

  lemma {:induction false} BelowSame(q: Queue, t: Queue, batch: nat, bound: nat)
    requires forall id :: SameSent(q, t, batch, id)
    ensures MutationsBelow(t, batch, bound) == MutationsBelow(q, batch, bound)
    ensures ContextBelow(t, batch, bound) == ContextBelow(q, batch, bound)
  {
    if bound > 0 {
      assert SameSent(q, t, batch, bound - 1);
      BelowSame(q, t, batch, bound - 1);
    }
  }

  lemma {:induction false} BelowStops(q: Queue, batch: nat, low: nat, bound: nat)
    requires low <= bound && forall id :: low <= id < bound ==> !Member(q, batch, id)
    ensures MutationsBelow(q, batch, bound) == MutationsBelow(q, batch, low)
    ensures ContextBelow(q, batch, bound) == ContextBelow(q, batch, low)
  {
    if low < bound {
      BelowStops(q, batch, low, bound - 1);
    }
  }

  lemma RebuiltSame(q: Queue, t: Queue, batch: nat)
    requires q.next <= t.next && forall id :: SameSent(q, t, batch, id)
    requires forall id :: id in q.calls ==> id < q.next
    ensures Rebuilt(t, batch) == Rebuilt(q, batch)
  {
    BelowSame(q, t, batch, q.next);
    forall id | q.next <= id < t.next ensures !Member(t, batch, id) { assert SameSent(q, t, batch, id); }
    BelowStops(t, batch, q.next, t.next);
  }

  lemma InputsAppend(items: seq<Item>, item: Item)
    ensures Inputs(items + [item]) == Inputs(items) + if item.path.Some? then [item] else []
  {
    assert (items + [item])[..|items|] == items;
  }

  /** The sent operations are exactly the ones with an input path. */
  lemma {:induction false} InputsListed(items: seq<Item>, item: Item)
    ensures item in Inputs(items) <==> item in items && item.path.Some?
  {
    if items != [] {
      var n := |items| - 1;
      assert items == items[..n] + [items[n]];
      InputsListed(items[..n], item);
    }
  }

  // ---------------------------------------------- what refusing a closure keeps

  /** The calls after a refusal: columns of a refused call change, nothing else does. */
  lemma RefuseColumns(q: Queue, refused: map<nat, Refusal>, id: nat)
    requires id in q.calls
    ensures var t := Refuse(q, refused);
      && id in t.calls && t.calls.Keys == q.calls.Keys
      && t.calls[id] == if id in refused
        then q.calls[id].(refusal := Some(refused[id]), reconciled := true)
        else q.calls[id]
  {
  }

  lemma RefusedEdge(q: Queue, initial: map<nat, Refusal>, t: Queue, id: nat, dep: nat)
    requires Inv(q) && (id, dep) in q.edges
    requires forall i :: i in initial ==> i in q.calls && !q.calls[i].reconciled
    requires t.edges == q.edges && t.calls.Keys == q.calls.Keys
    requires forall i :: i in q.calls ==> RefusedColumns(q, Refusals(q.edges, initial), t, i)
    ensures EdgeOk(t, id, dep)
  {
    assert EdgeOk(q, id, dep);
    assert RefusedColumns(q, Refusals(q.edges, initial), t, id);
    assert RefusedColumns(q, Refusals(q.edges, initial), t, dep);
    if dep in Closure(q.edges, initial.Keys) {
      RefusalSparesSent(q, initial.Keys, dep);
      assert CallOk(q, dep, q.calls[dep]);
      if Follows(q.edges, id, dep) { ClosureClosed(q.edges, initial.Keys, id, dep); }
    }
  }

  /** What edges read of a call changes only by the refusal. */
  predicate RefusedColumns(q: Queue, refused: map<nat, Refusal>, t: Queue, id: nat) {
    && id in q.calls && id in t.calls
    && t.calls[id].batch == q.calls[id].batch
    && t.calls[id].refusal == (if id in refused then Some(refused[id]) else q.calls[id].refusal)
    && t.calls[id].reconciled == (id in refused || q.calls[id].reconciled)
  }

  // --------------------------------------------------------- each step keeps Inv

  lemma EnqueueKeepsInv(q: Queue, d: Draft)
    requires Inv(q) && Admissible(q, d)
    ensures Inv(Enqueue(q, d).0)
  {
    var t := Enqueue(q, d).0;
    if t != q {
      var open := q.last + 1;
      forall id ensures SameSent(q, t, open, id) {}
      RebuiltSame(q, t, open);
      forall id | id in t.calls ensures CallOk(t, id, t.calls[id]) && FrozenOk(t, id) {
        if id != q.next { assert CallOk(q, id, q.calls[id]) && FrozenOk(q, id); }
      }
      forall e | e in t.edges ensures EdgeOk(t, e.0, e.1) {
        if e in NewEdges(q.next, d) {
          assert Live(q, e.1) && CallOk(q, e.1, q.calls[e.1]);
        } else {
          assert EdgeOk(q, e.0, e.1) && CallOk(q, e.0, q.calls[e.0]);
        }
      }
      forall i, j | Unsettled(t, i) && Unsettled(t, j) ensures t.calls[i].batch == t.calls[j].batch {
        assert Unsettled(q, i) && Unsettled(q, j);
      }
    }
  }

  /** A step that touches no batch, outcome or sent input of any call, and only drops edges. */
  predicate KeepsCall(q: Queue, t: Queue, id: nat) {
    && (id in t.calls <==> id in q.calls)
    && (id in q.calls ==>
      var c, d := q.calls[id], t.calls[id];
      && d.batch == c.batch && d.materialization == c.materialization && d.digest == c.digest
      && d.acceptance == c.acceptance && d.refusal == c.refusal && d.reconciled == c.reconciled
      && d.name == c.name && d.version == c.version && d.descriptor == c.descriptor
      && (c.reconciled || Inputs(d.items) == Inputs(c.items)))
  }

  lemma KeepsCallKeepsInv(q: Queue, t: Queue)
    requires Inv(q) && t.next == q.next && t.last == q.last
    requires forall id :: KeepsCall(q, t, id)
    requires forall e :: e in t.edges ==> e in q.edges && t.edges[e] == q.edges[e]
    ensures Inv(t)
  {
    var open := q.last + 1;
    forall id ensures SameSent(q, t, open, id) {
      assert KeepsCall(q, t, id);
      if id in q.calls { assert CallOk(q, id, q.calls[id]); }
    }
    RebuiltSame(q, t, open);
    forall id | id in t.calls ensures CallOk(t, id, t.calls[id]) && FrozenOk(t, id) {
      assert KeepsCall(q, t, id) && CallOk(q, id, q.calls[id]) && FrozenOk(q, id);
    }
    forall e | e in t.edges ensures EdgeOk(t, e.0, e.1) {
      assert EdgeOk(q, e.0, e.1) && KeepsCall(q, t, e.0) && KeepsCall(q, t, e.1);
    }
    forall i, j | Unsettled(t, i) && Unsettled(t, j) ensures t.calls[i].batch == t.calls[j].batch {
      assert KeepsCall(q, t, i) && KeepsCall(q, t, j) && Unsettled(q, i) && Unsettled(q, j);
    }
  }

  lemma AppendLocalKeepsInv(q: Queue, id: nat, payload: Payload)
    requires Inv(q)
    ensures Inv(AppendLocal(q, id, payload))
  {
    var t := AppendLocal(q, id, payload);
    if Live(q, id) { InputsAppend(q.calls[id].items, Item(|q.calls[id].items|, None, payload)); }
    forall i ensures KeepsCall(q, t, i) {}
    KeepsCallKeepsInv(q, t);
  }

  lemma ResolveKeepsInv(q: Queue, key: string)
    requires Inv(q)
    ensures Inv(Resolve(q, key))
  {
    forall i ensures KeepsCall(q, Resolve(q, key), i) {}
    KeepsCallKeepsInv(q, Resolve(q, key));
  }

  lemma DismissKeepsInv(q: Queue, id: nat)
    requires Inv(q)
    ensures Inv(Dismiss(q, id).0)
  {
    forall i ensures KeepsCall(q, Dismiss(q, id).0, i) {}
    KeepsCallKeepsInv(q, Dismiss(q, id).0);
  }

  lemma ReconcileKeepsInv(q: Queue, id: nat)
    requires Inv(q)
    ensures Inv(Reconcile(q, id))
  {
    var t := Reconcile(q, id);
    if t != q {
      assert CallOk(q, id, q.calls[id]);
      ReconcileCalls(q, id, t);
      forall e | e in t.edges ensures EdgeOk(t, e.0, e.1) { assert EdgeOk(q, e.0, e.1); }
      forall i, j | Unsettled(t, i) && Unsettled(t, j) ensures t.calls[i].batch == t.calls[j].batch {
        assert Unsettled(q, i) && Unsettled(q, j);
      }
    }
  }

  /** A settled call was in an acknowledged Batch, so no open one is rebuilt otherwise. */
  lemma ReconcileCalls(q: Queue, id: nat, t: Queue)
    requires Inv(q) && id in q.calls && q.calls[id].acceptance.Some?
    requires t == q.(calls := q.calls[id := q.calls[id].(reconciled := true, items := [])])
    ensures forall i :: i in t.calls ==> CallOk(t, i, t.calls[i]) && FrozenOk(t, i)
  {
    var open := q.last + 1;
    assert CallOk(q, id, q.calls[id]);
    forall i ensures SameSent(q, t, open, i) {}
    RebuiltSame(q, t, open);
    forall i | i in t.calls ensures CallOk(t, i, t.calls[i]) && FrozenOk(t, i) {
      assert CallOk(q, i, q.calls[i]) && FrozenOk(q, i);
    }
  }

  lemma CancelKeepsInv(q: Queue, id: nat, dismiss: bool)
    requires Inv(q)
    ensures Inv(Cancel(q, id, dismiss).0)
  {
    if id in q.calls && q.calls[id].batch.None? && !q.calls[id].reconciled {
      DropKeepsInv(q, id);
      DismissKeepsInv(Refuse(q, Refusals(q.edges, map[id := DROPPED])), id);
    }
  }

  /** Dropping reaches only calls that were never sent. */
  lemma DropKeepsInv(q: Queue, id: nat)
    requires Inv(q) && id in q.calls && q.calls[id].batch.None? && !q.calls[id].reconciled
    ensures Inv(Refuse(q, Refusals(q.edges, map[id := DROPPED])))
  {
    var initial := map[id := DROPPED];
    var refused := Refusals(q.edges, initial);
    assert initial.Keys == {id};
    forall i | i in refused ensures i in q.calls && q.calls[i].batch.None? { RefusalSparesSent(q, initial.Keys, i); }
    forall i | i in q.calls ensures DroppedColumns(q, refused, Refuse(q, refused), i) { RefuseColumns(q, refused, i); }
    DroppedInv(q, initial, Refuse(q, refused));
  }

  lemma DroppedInv(q: Queue, initial: map<nat, Refusal>, t: Queue)
    requires Inv(q) && t.next == q.next && t.last == q.last && t.calls.Keys == q.calls.Keys && t.edges == q.edges
    requires forall i :: i in initial ==> i in q.calls && !q.calls[i].reconciled
    requires forall i :: i in q.calls ==> DroppedColumns(q, Refusals(q.edges, initial), t, i)
    ensures Inv(t)
  {
    DroppedCalls(q, Refusals(q.edges, initial), t);
    forall i | i in q.calls ensures RefusedColumns(q, Refusals(q.edges, initial), t, i) {
      assert DroppedColumns(q, Refusals(q.edges, initial), t, i);
    }
    forall e | e in t.edges ensures EdgeOk(t, e.0, e.1) { RefusedEdge(q, initial, t, e.0, e.1); }
  }

  predicate DroppedColumns(q: Queue, refused: map<nat, Refusal>, t: Queue, id: nat) {
    && RefusedColumns(q, refused, t, id)
    && (id in refused ==> q.calls[id].batch.None?)
    && var c, d := q.calls[id], t.calls[id];
    && d.materialization == c.materialization && d.digest == c.digest && d.acceptance == c.acceptance
    && Sent(id, d) == Sent(id, c)
  }

  lemma DroppedCalls(q: Queue, refused: map<nat, Refusal>, t: Queue)
    requires Inv(q) && t.next == q.next && t.last == q.last && t.calls.Keys == q.calls.Keys
    requires forall i :: i in q.calls ==> DroppedColumns(q, refused, t, i)
    ensures forall id :: id in t.calls ==> CallOk(t, id, t.calls[id]) && FrozenOk(t, id)
    ensures forall i, j :: Unsettled(t, i) && Unsettled(t, j) ==> t.calls[i].batch == t.calls[j].batch
  {
    var open := q.last + 1;
    forall id ensures SameSent(q, t, open, id) {
      if id in q.calls { assert DroppedColumns(q, refused, t, id); }
    }
    RebuiltSame(q, t, open);
    forall id | id in t.calls ensures CallOk(t, id, t.calls[id]) && FrozenOk(t, id) {
      DroppedCall(q, refused, t, id);
    }
    forall i, j | Unsettled(t, i) && Unsettled(t, j) ensures t.calls[i].batch == t.calls[j].batch {
      assert DroppedColumns(q, refused, t, i) && DroppedColumns(q, refused, t, j);
      assert Unsettled(q, i) && Unsettled(q, j);
    }
  }

  lemma DroppedCall(q: Queue, refused: map<nat, Refusal>, t: Queue, id: nat)
    requires id in q.calls && CallOk(q, id, q.calls[id]) && FrozenOk(q, id) && DroppedColumns(q, refused, t, id)
    requires t.next == q.next && t.last == q.last && Rebuilt(t, q.last + 1) == Rebuilt(q, q.last + 1)
    ensures CallOk(t, id, t.calls[id]) && FrozenOk(t, id)
  {
  }
}
