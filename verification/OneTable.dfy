/** The operation rows of a call are one table: the row layer replays them, the queue sends those with an
    input path. What each layer keeps of it, and why the two agree. */
module OneTable {
  import opened Rows
  import opened Calls
  import Batches
  import Engine
  import History
  import MutationQueue
  import QueueRuns
  import Receipts
  import Replica
  import Runs
  import Sending

  // ------------------------------------------------------------ storing a call

  /** What a call stores: a companion, a record written by an input, or the value of an input. */
  datatype Entry = Local(op: Operation) | Input(path: string, op: Operation) | Given(path: string, value: string)

  /** The rows that have a record. */
  function TableOps(entries: seq<Entry>): seq<Engine.CallOp> {
    if entries == [] then []
    else
      var below := TableOps(entries[..|entries| - 1]);
      match entries[|entries| - 1]
      case Local(op) => below + [(History.Companion, op)]
      case Input(_, op) => below + [(History.Wire, op)]
      case Given(_, _) => below
  }

  function Effects(keys: seq<Key>): seq<(Option<string>, Payload)> {
    seq(|keys|, i requires 0 <= i < |keys| => (None, Written(Operation(keys[i], Delete))))
  }

  /** All rows: each operation after the deletes of the records its own delete took along. */
  function ItemsFor(entries: seq<Entry>, blocks: seq<seq<Key>>): seq<(Option<string>, Payload)>
    requires |blocks| == |TableOps(entries)|
  {
    if entries == [] then []
    else
      var n, m := |entries| - 1, |blocks| - 1;
      match entries[n]
      case Given(path, value) => ItemsFor(entries[..n], blocks) + [(Some(path), Argument(value))]
      case Local(op) => ItemsFor(entries[..n], blocks[..m]) + Effects(blocks[m]) + [(None, Written(op))]
      case Input(path, op) => ItemsFor(entries[..n], blocks[..m]) + Effects(blocks[m]) + [(Some(path), Written(op))]
  }

  /** The rows that have a record, one for each entry that has one: a companion's or an input's. */
  lemma {:induction false} TableOpsExactly(entries: seq<Entry>, i: nat)
    requires i < |entries| && !entries[i].Given?
    ensures var at := Records(entries[..i]);
      && at < |TableOps(entries)| == Records(entries)
      && TableOps(entries)[at] == (if entries[i].Local? then History.Companion else History.Wire, entries[i].op)
  {
    var n := |entries| - 1;
    RecordsAre(entries);
    RecordsAre(entries[..i]);
    if i < n {
      assert entries[..n][..i] == entries[..i];
      TableOpsExactly(entries[..n], i);
    }
  }

  ghost function Records(entries: seq<Entry>): nat {
    if entries == [] then 0
    else Records(entries[..|entries| - 1]) + if entries[|entries| - 1].Given? then 0 else 1
  }

  lemma {:induction false} RecordsAre(entries: seq<Entry>)
    ensures |TableOps(entries)| == Records(entries)
  {
    if entries != [] { RecordsAre(entries[..|entries| - 1]); }
  }

  /** The rows with an input path, and those without, each in order. */
  ghost function Among(list: seq<(Option<string>, Payload)>, sent: bool): seq<(Option<string>, Payload)> {
    if list == [] then []
    else
      var last := list[|list| - 1];
      Among(list[..|list| - 1], sent) + if last.0.Some? == sent then [last] else []
  }

  ghost function EntryInputs(entries: seq<Entry>): seq<(Option<string>, Payload)> {
    if entries == [] then []
    else
      EntryInputs(entries[..|entries| - 1])
      + match entries[|entries| - 1]
        case Local(_) => []
        case Input(path, op) => [(Some(path), Written(op))]
        case Given(path, value) => [(Some(path), Argument(value))]
  }

  ghost function DeletesOf(keys: seq<Key>): seq<(Option<string>, Payload)> {
    seq(|keys|, i requires 0 <= i < |keys| => (None, Written(Operation(keys[i], Delete))))
  }

  ghost function EntryLocals(entries: seq<Entry>, blocks: seq<seq<Key>>): seq<(Option<string>, Payload)>
    requires |blocks| == |TableOps(entries)|
  {
    if entries == [] then []
    else
      var n, m := |entries| - 1, |blocks| - 1;
      match entries[n]
      case Local(op) => EntryLocals(entries[..n], blocks[..m]) + DeletesOf(blocks[m]) + [(None, Written(op))]
      case Input(_, _) => EntryLocals(entries[..n], blocks[..m]) + DeletesOf(blocks[m])
      case Given(_, _) => EntryLocals(entries[..n], blocks)
  }

  lemma AmongAppend(list: seq<(Option<string>, Payload)>, last: (Option<string>, Payload), sent: bool)
    ensures Among(list + [last], sent) == Among(list, sent) + if last.0.Some? == sent then [last] else []
  {
    assert (list + [last])[..|list|] == list;
  }

  lemma {:induction false} EffectsUnsentIn(list: seq<(Option<string>, Payload)>, keys: seq<Key>)
    ensures Among(list + Effects(keys), true) == Among(list, true)
  {
    if keys == [] {
      assert list + Effects(keys) == list;
    } else {
      var n := |keys| - 1;
      EffectsUnsentIn(list, keys[..n]);
      EffectsLast(list, keys);
      AmongAppend(list + Effects(keys[..n]), Effects(keys)[n], true);
    }
  }

  lemma {:induction false} EffectsLocal(list: seq<(Option<string>, Payload)>, keys: seq<Key>)
    ensures Among(list + Effects(keys), false) == Among(list, false) + DeletesOf(keys)
  {
    if keys == [] {
      assert list + Effects(keys) == list;
      assert Among(list, false) + DeletesOf(keys) == Among(list, false);
    } else {
      var n := |keys| - 1;
      EffectsLocal(list, keys[..n]);
      EffectsLast(list, keys);
      AmongAppend(list + Effects(keys[..n]), Effects(keys)[n], false);
    }
  }

  lemma EffectsLast(list: seq<(Option<string>, Payload)>, keys: seq<Key>)
    requires keys != []
    ensures var n := |keys| - 1;
      && list + Effects(keys) == list + Effects(keys[..n]) + [Effects(keys)[n]]
      && DeletesOf(keys) == DeletesOf(keys[..n]) + [Effects(keys)[n]]
  {
  }

  lemma AmongBlock(list: seq<(Option<string>, Payload)>, keys: seq<Key>, last: (Option<string>, Payload))
    ensures Among(list + Effects(keys) + [last], true) == Among(list, true) + if last.0.Some? then [last] else []
    ensures Among(list + Effects(keys) + [last], false) ==
      Among(list, false) + DeletesOf(keys) + if last.0.Some? then [] else [last]
  {
    EffectsUnsentIn(list, keys);
    EffectsLocal(list, keys);
    AmongAppend(list + Effects(keys), last, true);
    AmongAppend(list + Effects(keys), last, false);
  }

  /** A new call's rows with an input path are its inputs, in order; those without are, in order, its
      companions, and before each operation the deletes of what its own delete took along. */
  lemma {:induction false} ItemsExactly(entries: seq<Entry>, blocks: seq<seq<Key>>)
    requires |blocks| == |TableOps(entries)|
    ensures Among(ItemsFor(entries, blocks), true) == EntryInputs(entries)
    ensures Among(ItemsFor(entries, blocks), false) == EntryLocals(entries, blocks)
  {
    if entries != [] {
      var n, m := |entries| - 1, |blocks| - 1;
      match entries[n]
      case Given(path, value) =>
        ItemsExactly(entries[..n], blocks);
        AmongAppend(ItemsFor(entries[..n], blocks), (Some(path), Argument(value)), true);
        AmongAppend(ItemsFor(entries[..n], blocks), (Some(path), Argument(value)), false);
      case Local(op) =>
        ItemsExactly(entries[..n], blocks[..m]);
        AmongBlock(ItemsFor(entries[..n], blocks[..m]), blocks[m], (None, Written(op)));
      case Input(path, op) =>
        ItemsExactly(entries[..n], blocks[..m]);
        AmongBlock(ItemsFor(entries[..n], blocks[..m]), blocks[m], (Some(path), Written(op)));
    }
  }

  /** The records some inputs write, in order. */
  function WrittenOps(inputs: seq<Item>): seq<Operation> {
    if inputs == [] then []
    else
      var last := inputs[|inputs| - 1];
      WrittenOps(inputs[..|inputs| - 1]) + if last.payload.Written? then [last.payload.op] else []
  }

  function SentOps(items: seq<Item>): seq<Operation> {
    WrittenOps(Inputs(items))
  }

  lemma SentAppend(items: seq<Item>, item: Item)
    ensures SentOps(items + [item]) ==
      SentOps(items) + if item.path.Some? && item.payload.Written? then [item.payload.op] else []
  {
    Batches.InputsAppend(items, item);
    var inputs := Inputs(items);
    assert (inputs + [item])[..|inputs|] == inputs;
    assert inputs + [] == inputs;
  }

  lemma {:induction false} SentNumbered(list: seq<(Option<string>, Payload)>)
    ensures SentOps(Numbered(list)) == MutationQueue.WireOps(list)
  {
    if list != [] {
      var n := |list| - 1;
      assert Numbered(list) == Numbered(list[..n]) + [Item(n, list[n].0, list[n].1)];
      SentAppend(Numbered(list[..n]), Item(n, list[n].0, list[n].1));
      SentNumbered(list[..n]);
    }
  }

  lemma {:induction false} WireOpsConcat(a: seq<(Option<string>, Payload)>, b: seq<(Option<string>, Payload)>)
    ensures MutationQueue.WireOps(a + b) == MutationQueue.WireOps(a) + MutationQueue.WireOps(b)
  {
    if b == [] {
      assert a + b == a;
    } else {
      assert (a + b)[..|a + b| - 1] == a + b[..|b| - 1];
      WireOpsConcat(a, b[..|b| - 1]);
    }
  }

  lemma {:induction false} EffectsUnsent(keys: seq<Key>)
    ensures MutationQueue.WireOps(Effects(keys)) == []
  {
    if keys != [] {
      var n := |keys| - 1;
      assert Effects(keys)[..n] == Effects(keys[..n]);
      EffectsUnsent(keys[..n]);
    }
  }

  lemma WireOpsBlock(below: seq<(Option<string>, Payload)>, keys: seq<Key>, last: (Option<string>, Payload))
    ensures MutationQueue.WireOps(below + Effects(keys) + [last]) ==
      MutationQueue.WireOps(below) + if last.0.Some? && last.1.Written? then [last.1.op] else []
  {
    EffectsUnsent(keys);
    WireOpsConcat(below, Effects(keys));
    WireOpsConcat(below + Effects(keys), [last]);
  }

  /** What a new call sends is what it submits to the row layer. */
  lemma {:induction false} ItemsWires(entries: seq<Entry>, blocks: seq<seq<Key>>)
    requires |blocks| == |TableOps(entries)|
    ensures MutationQueue.WireOps(ItemsFor(entries, blocks)) == Engine.WireOf(TableOps(entries))
  {
    if entries != [] {
      var n, m := |entries| - 1, |blocks| - 1;
      var below := TableOps(entries[..n]);
      if entries[n].Given? {
        ItemsWires(entries[..n], blocks);
        WireOpsConcat(ItemsFor(entries[..n], blocks), [(Some(entries[n].path), Argument(entries[n].value))]);
      } else {
        ItemsWires(entries[..n], blocks[..m]);
        var path := if entries[n].Input? then Some(entries[n].path) else None;
        WireOpsBlock(ItemsFor(entries[..n], blocks[..m]), blocks[m], (path, Written(entries[n].op)));
        assert TableOps(entries)[..|below|] == below;
      }
    }
  }

  // -------------------------------------------------------- both layers agree

  /** The calls the tables replay are the ones that pend in the queue. */
  ghost predicate Coupled(live: set<nat>, q: Queue) {
    forall id :: id in live <==> Live(q, id)
  }

  /** A pending call submitted to the tables exactly what it sends. */
  ghost predicate Tied(actions: seq<Runs.Action>, q: Queue) {
    forall id :: Live(q, id) ==> Runs.SubmittedWires(actions, id) == SentOps(q.calls[id].items)
  }

  /** Some calls stop pending; the others send what they sent. */
  predicate LeavesCall(q: Queue, t: Queue, gone: set<nat>, id: nat) {
    && (Live(t, id) <==> Live(q, id) && id !in gone)
    && (Live(t, id) ==> SentOps(t.calls[id].items) == SentOps(q.calls[id].items))
  }

  ghost predicate Leaves(q: Queue, t: Queue, gone: set<nat>) {
    t.next == q.next && forall id :: LeavesCall(q, t, gone, id)
  }

  /** A step of the queue that lets some calls go and steps of the tables that let the same calls go and
      submit nothing to be sent keep the layers together. */
  lemma StayTogether(q: Queue, t: Queue, gone: set<nat>, live0: set<nat>, live: set<nat>, actions0: seq<Runs.Action>,
                     actions: seq<Runs.Action>)
    requires Coupled(live0, q) && Tied(actions0, q) && Leaves(q, t, gone) && live == live0 - gone
    requires forall id :: Runs.SubmittedWires(actions, id) == Runs.SubmittedWires(actions0, id)
    ensures Coupled(live, t) && Tied(actions, t)
  {
    forall id: nat ensures id in live <==> Live(t, id) { assert LeavesCall(q, t, gone, id); }
    forall id | Live(t, id) ensures Runs.SubmittedWires(actions, id) == SentOps(t.calls[id].items) {
      assert LeavesCall(q, t, gone, id);
    }
  }

  lemma SameLeaves(q: Queue)
    ensures Leaves(q, q, {})
  {
    forall id ensures LeavesCall(q, q, {}, id) {}
  }

  /** A step that is no submission sends nothing. */
  lemma UnsentStep(actions: seq<Runs.Action>, a: Runs.Action)
    requires !a.Submit?
    ensures forall id :: Runs.SubmittedWires(actions + [a], id) == Runs.SubmittedWires(actions, id)
  {
    assert (actions + [a])[..|actions|] == actions;
  }

  /** Queuing a call in both. */
  lemma EnqueueTogether(q: Queue, d: Draft, live: set<nat>, actions0: seq<Runs.Action>, actions: seq<Runs.Action>,
                        wires: seq<Operation>)
    requires Batches.Inv(q) && q.next + 1 <= MAX_SAFE_INTEGER && Coupled(live, q) && Tied(actions0, q)
    requires MutationQueue.WireOps(d.items) == wires && Runs.SubmittedWires(actions0, q.next) == []
    requires forall id :: (Runs.SubmittedWires(actions, id) ==
                           Runs.SubmittedWires(actions0, id) + if id == q.next then wires else [])
    ensures Coupled(live + {q.next}, Enqueue(q, d).0) && Tied(actions, Enqueue(q, d).0)
  {
    var t := Enqueue(q, d).0;
    SentNumbered(d.items);
    forall id: nat ensures id in live + {q.next} <==> Live(t, id) {
      if id in q.calls { assert Batches.CallOk(q, id, q.calls[id]); }
    }
    forall id | Live(t, id) ensures Runs.SubmittedWires(actions, id) == SentOps(t.calls[id].items) {
      if id != q.next { assert Live(q, id); }
    }
  }

  // ------------------------------------------------- what the queue's steps leave

  lemma FreezeLeaves(q: Queue)
    requires Batches.Inv(q)
    ensures Leaves(q, Freeze(q).0, {})
  {
    Sending.FreezeAnswers(q);
    var t := Freeze(q).0;
    forall id ensures LeavesCall(q, t, {}, id) {
      if t != q && id in q.calls { Sending.SealedCalls(q, t, id); }
    }
  }

  /** The calls a cancellation refuses. */
  ghost function Cancelled(q: Queue, id: nat): map<nat, Refusal> {
    if MutationQueue.Cancellable(q, id) then Refusals(q.edges, map[id := DROPPED]) else map[]
  }

  lemma CancelLeaves(q: Queue, id: nat, dismiss: bool)
    requires Batches.Inv(q)
    ensures Leaves(q, Cancel(q, id, dismiss).0, Cancelled(q, id).Keys)
  {
    if MutationQueue.Cancellable(q, id) {
      var refused := Cancelled(q, id);
      Batches.ClosureGrows(q.edges, (map[id := DROPPED]).Keys);
      RefuseLeaves(q, refused);
      if dismiss {
        DismissLeaves(Refuse(q, refused), id);
        LeavesTwice(q, Refuse(q, refused), refused.Keys, Cancel(q, id, dismiss).0);
      }
    }
  }

  lemma LeavesTwice(q: Queue, t: Queue, gone: set<nat>, u: Queue)
    requires Leaves(q, t, gone) && Leaves(t, u, {})
    ensures Leaves(q, u, gone)
  {
    forall id ensures LeavesCall(q, u, gone, id) { assert LeavesCall(q, t, gone, id) && LeavesCall(t, u, {}, id); }
  }

  lemma RefuseLeaves(q: Queue, refused: map<nat, Refusal>)
    ensures Leaves(q, Refuse(q, refused), refused.Keys)
  {
    forall id ensures LeavesCall(q, Refuse(q, refused), refused.Keys, id) {
      if id in q.calls { Batches.RefuseColumns(q, refused, id); }
    }
  }

  lemma DismissLeaves(q: Queue, id: nat)
    ensures Leaves(q, Dismiss(q, id).0, {})
  {
    forall i ensures LeavesCall(q, Dismiss(q, id).0, {}, i) {}
  }

  lemma ResolveLeaves(q: Queue, key: string)
    ensures Leaves(q, Resolve(q, key), {})
  {
    forall i ensures LeavesCall(q, Resolve(q, key), {}, i) {}
  }

  /** The calls an acknowledgement refuses. */
  ghost function Refused(q: Queue, ack: Ack): map<nat, Refusal> {
    if Acknowledge(q, ack).1.Done? && ack.batch > q.last then Refusals(q.edges, RefusedIn(ack.results)) else map[]
  }

  lemma AcknowledgeLeaves(q: Queue, ack: Ack)
    requires Batches.Inv(q)
    ensures Leaves(q, Acknowledge(q, ack).0, Refused(q, ack).Keys)
  {
    if ack.batch > q.last {
      Receipts.AppliesExactly(q, ack);
      if Receipts.Applies(q, ack) {
        Receipts.SettledTables(q, ack);
        forall id ensures LeavesCall(q, Settled(q, ack), Refused(q, ack).Keys, id) {
          if id in q.calls { Receipts.SettledRowIs(q, ack, id); }
        }
      }
    }
  }

  lemma ReconcileLeaves(q: Queue, id: nat)
    requires id in q.calls && q.calls[id].acceptance.Some?
    ensures Leaves(q, Reconcile(q, id), {id})
  {
    forall i ensures LeavesCall(q, Reconcile(q, id), {id}, i) {}
  }

  /** A companion's rows: the deletes its own delete took along, then itself. */
  function CompanionOps(children: seq<Key>, op: Operation): seq<Operation> {
    seq(|children|, i requires 0 <= i < |children| => Operation(children[i], Delete)) + [op]
  }

  function AppendAll(q: Queue, id: nat, ops: seq<Operation>): Queue {
    if ops == [] then q else AppendLocal(AppendAll(q, id, ops[..|ops| - 1]), id, Written(ops[|ops| - 1]))
  }

  lemma AppendLeaves(q: Queue, id: nat, payload: Payload)
    ensures Leaves(q, AppendLocal(q, id, payload), {})
  {
    forall i ensures LeavesCall(q, AppendLocal(q, id, payload), {}, i) {
      if Live(q, id) { SentAppend(q.calls[id].items, Item(|q.calls[id].items|, None, payload)); }
    }
  }

  lemma {:induction false} AppendAllLeaves(q: Queue, id: nat, ops: seq<Operation>)
    ensures Leaves(q, AppendAll(q, id, ops), {})
  {
    if ops == [] {
      forall i ensures LeavesCall(q, q, {}, i) {}
    } else {
      var n := |ops| - 1;
      AppendAllLeaves(q, id, ops[..n]);
      AppendLeaves(AppendAll(q, id, ops[..n]), id, Written(ops[n]));
      LeavesTwice(q, AppendAll(q, id, ops[..n]), {}, AppendAll(q, id, ops));
    }
  }

  /** The pending call takes the operations at its next steps, without input paths; no other call changes. */
  lemma {:induction false} AppendAllExactly(q: Queue, id: nat, ops: seq<Operation>)
    requires Live(q, id)
    ensures Live(AppendAll(q, id, ops), id)
    ensures var had, now := q.calls[id].items, AppendAll(q, id, ops).calls[id].items;
      && |now| == |had| + |ops| && now[..|had|] == had
      && forall i :: 0 <= i < |ops| ==> now[|had| + i] == Item(|had| + i, None, Written(ops[i]))
    ensures forall other :: other != id ==> Get(AppendAll(q, id, ops).calls, other) == Get(q.calls, other)
  {
    if ops != [] { AppendAllExactly(q, id, ops[..|ops| - 1]); }
  }

  // ----------------------------------------------------- a frozen Batch and its rows

  lemma FrozenMember(q: Queue, m: Mutation)
    requires Batches.Inv(q) && m in Rebuilt(q, q.last + 1).mutations
    ensures Live(q, m.id) && m.inputs == Inputs(q.calls[m.id].items)
  {
    Sending.MutationsFromMembers(q, q.last + 1, q.next, m);
    assert Batches.CallOk(q, m.id, q.calls[m.id]);
  }

  /** After any run of both layers, the wire rows of an open Batch's member are the records its inputs in
      the request write, in order. */
  lemma OpenSendsItsRows(schema: Schema, configs: seq<Runs.Config>, actions: seq<Runs.Action>, q: Queue, m: Mutation)
    requires Runs.Run(schema, configs, actions) && configs[0] == Runs.Config(Replica.EMPTY_STORE, {})
    requires Batches.Inv(q) && Coupled(configs[|actions|].s.live, q) && Tied(actions, q)
    requires m in Rebuilt(q, q.last + 1).mutations
    ensures Runs.Sends(configs[|actions|].s.ops, m.id, WrittenOps(m.inputs))
  {
    FrozenMember(q, m);
    Runs.PendingSendsWhatWasSubmitted(schema, configs, actions, m.id);
  }

  /** Until the Batch is acknowledged they stay so: whatever both layers do meanwhile, its request is
      rebuilt equal and its members' wire rows write exactly what it says. */
  lemma FrozenRowsStay(schema: Schema, configs: seq<Runs.Config>, actions: seq<Runs.Action>, q: Queue,
                       steps: seq<QueueRuns.Action>, m: Mutation)
    requires Batches.Inv(q) && m in Rebuilt(q, q.last + 1).mutations
    requires QueueRuns.After(q, steps).last == q.last
    requires Runs.Run(schema, configs, actions) && configs[0] == Runs.Config(Replica.EMPTY_STORE, {})
    requires Coupled(configs[|actions|].s.live, QueueRuns.After(q, steps)) && Tied(actions, QueueRuns.After(q, steps))
    ensures Rebuilt(QueueRuns.After(q, steps), q.last + 1) == Rebuilt(q, q.last + 1)
    ensures m.id in configs[|actions|].s.live && Runs.Sends(configs[|actions|].s.ops, m.id, WrittenOps(m.inputs))
  {
    var u := QueueRuns.After(q, steps);
    RequestStays(q, steps, m);
    FrozenMember(u, m);
    OpenSendsItsRows(schema, configs, actions, u, m);
  }

  lemma RequestStays(q: Queue, steps: seq<QueueRuns.Action>, m: Mutation)
    requires Batches.Inv(q) && m in Rebuilt(q, q.last + 1).mutations
    requires QueueRuns.After(q, steps).last == q.last
    ensures Batches.Inv(QueueRuns.After(q, steps))
    ensures Rebuilt(QueueRuns.After(q, steps), q.last + 1) == Rebuilt(q, q.last + 1)
  {
    Sending.MutationsFromMembers(q, q.last + 1, q.next, m);
    QueueRuns.RunKeeps(q, steps);
    QueueRuns.OpenStaysOpen(q, QueueRuns.After(q, steps));
  }
}
