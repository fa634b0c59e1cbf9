/** The row tables as the engine changes them. Every change to them is a step of `Runs`, recorded in
    the ghost `actions`, so what holds of every run holds of every engine. */
module Engine {
  import opened Rows
  import opened History
  import opened Replica
  import opened Rebuilding
  import opened Runs
  import opened Cascade
  import LocalSteps
  import Settlement

  /** An operation of a call, with its kind. */
  type CallOp = (OpKind, Operation)

  class Tables {
    const schema: Schema
    var main: map<Key, Row>
    var before: map<Key, Row>
    var ops: set<QueuedOp>
    var live: set<nat>
    var writes: set<LocalWrite>
    var layer: map<Key, seq<Operation>>
    var evidence: map<Key, nat>
    var diverged: set<nat>
    var nextOrdinal: nat
    var nextSequence: nat
    ghost var authority: map<Key, Row>
    ghost var held: set<Key>
    ghost var configs: seq<Config>
    ghost var actions: seq<Action>

    ghost function View(): State
      reads this
    {
      State(main, before, ops, live, writes, layer, evidence, diverged, nextOrdinal, nextSequence, authority)
    }

    ghost predicate Valid()
      reads this
    {
      && Run(schema, configs, actions)
      && configs[0] == Config(EMPTY_STORE, {})
      && configs[|actions|] == Config(View(), held)
      && Inv(schema, View(), held)
      && Related(schema)
    }

    /** The whole change since the call began is the one step `a`. */
    twostate predicate Took(a: Action)
      reads this
    {
      && actions == old(actions) + [a]
      && configs == old(configs) + [Config(View(), held)]
    }

    constructor (schema: Schema)
      requires Related(schema)
      ensures Valid() && held == {} && View() == EMPTY_STORE && this.schema == schema
    {
      this.schema := schema;
      main, before, ops, live, writes := map[], map[], {}, {}, {};
      layer, evidence, diverged := map[], map[], {};
      nextOrdinal, nextSequence := 1, 1;
      authority, held := map[], {};
      configs, actions := [Config(EMPTY_STORE, {})], [];
      new;
      EmptyStoreInv(schema);
    }

    ghost method Record(a: Action)
      requires Related(schema) && Run(schema, configs, actions) && configs[0] == Config(EMPTY_STORE, {})
      requires var c := configs[|actions|];
        Inv(schema, c.s, c.held) && Next(schema, c, a, Config(View(), held))
      modifies this`configs, this`actions
      ensures Valid() && Took(a)
    {
      var c, d := configs[|actions|], Config(View(), held);
      NextKeepsInv(schema, c, a, d);
      RunExtends(schema, configs, actions, a, d);
      configs, actions := configs + [d], actions + [a];
    }

    // ------------------------------------------------------------- reading

    method HistoryOf(k: Key) returns (steps: seq<Step>)
      requires Stored(schema, View())
      ensures steps == Hist(schema, View(), k)
    {
      EntriesPlaced(schema, View(), k);
      steps := [];
      var rest := ops;
      while rest != {}
        invariant rest <= ops
        invariant Lists(steps, PendingOf(ops - rest, live, k))
      {
        var q :| q in rest;
        rest := rest - {q};
        if q.ordinal in live && q.op.key == k {
          assert Pending(q) in Entries(View(), k);
          steps := Insert(Pending(q), steps);
        }
      }
      assert ops - {} == ops;
      var journal := writes;
      while journal != {}
        invariant journal <= writes
        invariant Lists(steps, PendingOf(ops, live, k) + SettledOf(writes - journal, k))
      {
        var w :| w in journal;
        journal := journal - {w};
        if w.op.key == k {
          assert Settled(w) in Entries(View(), k);
          steps := Insert(Settled(w), steps);
        }
      }
      assert writes - {} == writes;
      HistIs(schema, View(), k, steps);
    }

    method Descendants(parent: Key) returns (found: seq<Key>)
      requires Valid() && Identified(schema, parent)
      ensures Distinct(found) && parent !in found
      ensures forall k :: k in found <==> Below(schema, View(), parent, k)
      ensures AllIdentified(schema, set k | k in found)
    {
      ReachableKeys(schema, configs, actions);
      var all := main.Keys + before.Keys;
      found := DescendantsWhere(Children(schema, main, before, parent), parent, all);
      forall k ensures k in found <==> Below(schema, View(), parent, k) {
        DescendsExactly(schema, main, before, all, parent, k);
      }
      forall k | k in found ensures Identified(schema, k) { BelowStored(schema, View(), parent, k); }
    }

    // ------------------------------------------------------------- rebuild

    method RetainLocal(k: Key, op: Operation)
      modifies this`layer
      ensures layer == old(layer)[k := Retain(old(LayerIn(layer, k)), op)]
    {
      var operations := LayerIn(layer, k);
      if op.change.Create? || op.change.Delete? {
        operations := [];
      }
      if op.change.Update? && operations != [] && operations[|operations| - 1].change.Update? {
        var last := operations[|operations| - 1];
        operations := operations[|operations| - 1 := last.(change := Update(last.change.patch + op.change.patch))];
      } else {
        operations := operations + [op];
      }
      assert operations == Retain(old(LayerIn(layer, k)), op);
      layer := layer[k := operations];
    }

    /** One settled write goes into the base and the local layer, and out of the journal. */
    method FoldOne(k: Key, base0: Option<Row>, write: LocalWrite) returns (base: Option<Row>)
      requires forall w :: w in writes && w.sequence == write.sequence ==> w == write
      modifies this`layer, this`writes
      ensures base == ApplySettled(base0, write.op)
      ensures writes == old(writes) - {write}
      ensures layer == old(layer)[k := Retain(old(LayerIn(layer, k)), write.op)]
    {
      base := ApplySettled(base0, write.op);
      RetainLocal(k, write.op);
      writes := set w | w in writes && w.sequence != write.sequence;
    }

    /** Settled writes no earlier pending operation precedes go into the base and the local layer. */
    method FoldPrefix(k: Key, base0: Option<Row>, prefix: seq<Step>) returns (base: Option<Row>)
      requires Sequenced(ops, writes) && forall x :: x in prefix ==> x.Settled? && x.write in writes
      modifies this`layer, this`writes
      ensures base == SettledView(base0, prefix)
      ensures writes == set w | w in old(writes) && Settled(w) !in prefix
      ensures layer == if prefix == [] then old(layer) else old(layer)[k := RetainSteps(old(LayerIn(layer, k)), prefix)]
    {
      base := base0;
      var i := 0;
      while i < |prefix|
        invariant 0 <= i <= |prefix| && writes <= old(writes)
        invariant FoldedTo(old(writes), old(layer), k, base0, prefix[..i], writes, layer, base)
      {
        assert prefix[i] in prefix;
        FoldedToNext(old(writes), old(layer), k, base0, prefix, i, writes, layer, base);
        base := FoldOne(k, base, prefix[i].write);
        i := i + 1;
      }
      assert prefix[..|prefix|] == prefix;
      FoldedAway(old(writes), prefix);
    }

    /** The replay of what remains, up to the first pending operation that conflicts. */
    method ReplayRest(base: Option<Row>, steps: seq<Step>) returns (row: Option<Row>, failed: Option<nat>)
      ensures failed == match Replay(base, steps) case Replayed(_) => None case Diverged(o) => Some(o)
      ensures row == Projection(base, steps)
      ensures Replay(base, if failed.Some? then Kept(steps, SettledIn(steps)) else steps) == Replayed(row)
    {
      row, failed := base, None;
      var i := 0;
      while i < |steps| && failed.None?
        invariant 0 <= i <= |steps|
        invariant failed.None? ==> Replay(base, steps[..i]) == Replayed(row)
        invariant failed.Some? ==> Replay(base, steps[..i]) == Diverged(failed.value)
        decreases |steps| - i
      {
        assert steps[..i + 1][..i] == steps[..i];
        match steps[i] {
          case Pending(queued) =>
            match ApplyToRow(row, queued.op) {
              case Ok(next) => row := next;
              case Conflict => failed := Some(queued.ordinal);
            }
          case Settled(write) => row := ApplySettled(row, write.op);
        }
        i := i + 1;
      }
      assert steps == steps[..i] + steps[i..];
      ReplayConcat(base, steps[..i], steps[i..]);
      if failed.Some? {
        row := SettledView(base, steps);
        DivergedProjects(base, steps, SettledIn(steps));
      }
    }

    /** `take_while(Settled)`. */
    method SettledCount(steps: seq<Step>) returns (settled: nat)
      ensures settled == Prefix(steps)
    {
      settled := 0;
      while settled < |steps| && steps[settled].Settled?
        invariant 0 <= settled <= |steps| && AllSettled(steps[..settled])
      {
        settled := settled + 1;
      }
      PrefixIs(steps, settled);
    }

    /** The rebuild itself, on the tables. */
    method RebuildTables(k: Key, steps: seq<Step>, ghost plan: Plan) returns (failed: Option<nat>)
      requires Sequenced(ops, writes) && forall x :: x in steps && x.Settled? ==> x.write in writes
      requires plan == RebuildPlan(Get(before, k), LayerIn(layer, k), steps)
      modifies this`main, this`before, this`writes, this`layer, this`diverged
      ensures writes == set w | w in old(writes) && Settled(w) !in plan.folded
      ensures layer == if plan.folded == [] then old(layer) else old(layer)[k := plan.layer]
      ensures main == Put(old(main), k, if plan.pending then plan.row else plan.base)
      ensures before == Put(old(before), k, if plan.pending then plan.base else None)
      ensures diverged == old(diverged) + if plan.pending then plan.failed else {}
      ensures (if plan.pending then plan.failed else {}) == if failed.Some? then {failed.value} else {}
    {
      var settled := SettledCount(steps);
      var base := FoldPrefix(k, Get(before, k), steps[..settled]);
      failed := ShowRebuilt(k, steps, settled, base, plan);
    }

    /** With nothing pending left the base becomes the row; otherwise it is held and the rest projected. */
    method ShowRebuilt(k: Key, steps: seq<Step>, settled: nat, base: Option<Row>, ghost plan: Plan)
      returns (failed: Option<nat>)
      requires settled <= |steps| && base == plan.base && plan.pending == (settled < |steps|)
      requires plan.row == Projection(base, steps[settled..])
      requires plan.failed == match Replay(base, steps[settled..]) case Replayed(_) => {} case Diverged(o) => {o}
      requires settled == 0 ==> base == Get(before, k)
      modifies this`main, this`before, this`diverged
      ensures main == Put(old(main), k, if plan.pending then plan.row else plan.base)
      ensures before == Put(old(before), k, if plan.pending then plan.base else None)
      ensures diverged == old(diverged) + if plan.pending then plan.failed else {}
      ensures (if plan.pending then plan.failed else {}) == if failed.Some? then {failed.value} else {}
    {
      failed := None;
      if settled == |steps| {
        main := Put(main, k, base);
        before := Put(before, k, None);
      } else {
        if settled > 0 {
          before := Put(before, k, base);
        } else {
          PutGet(before, k);
        }
        failed := ShowRest(k, base, steps[settled..]);
      }
    }

    method ShowRest(k: Key, base: Option<Row>, rest: seq<Step>) returns (failed: Option<nat>)
      modifies this`main, this`diverged
      ensures main == Put(old(main), k, Projection(base, rest))
      ensures failed == match Replay(base, rest) case Replayed(_) => None case Diverged(o) => Some(o)
      ensures diverged == old(diverged) + if failed.Some? then {failed.value} else {}
    {
      var row;
      row, failed := ReplayRest(base, rest);
      main := Put(main, k, row);
      if failed.Some? {
        diverged := diverged + {failed.value};
      }
    }

    /** Rebuild one record. Answers the first call that no longer replays. */
    method RebuildStored(k: Key) returns (failed: Option<nat>)
      requires Stored(schema, View())
      modifies this`main, this`before, this`writes, this`layer, this`diverged
      ensures View() == Rebuilding.Rebuild(schema, old(View()), k)
      ensures failed == Divergence(schema, old(View()), k)
    {
      var steps := HistoryOf(k);
      FoldingPreserves(Get(before, k), steps, Prefix(steps));
      AllSettledReplays(Get(before, k), steps);
      forall x | x in steps && x.Settled? ensures x.write in writes { assert x in Entries(View(), k); }
      failed := RebuildTables(k, steps, RebuildPlan(Get(before, k), Layer(View(), k), steps));
    }

    method RebuildRow(k: Key) returns (failed: Option<nat>)
      requires Valid() && (k in held || Dirty(View(), k))
      modifies this
      ensures Valid() && Took(Action.Rebuild(k)) && KeptTruth()
      ensures View() == Rebuilding.Rebuild(schema, old(View()), k) && held == old(held) - {k}
      ensures failed == Divergence(schema, old(View()), k)
      ensures failed.Some? ==> Get(main, k) == Truth(schema, View(), held, k)
      ensures failed.None? ==> Replay(Get(old(before), k), old(Hist(schema, View(), k))) == Replayed(Get(main, k))
    {
      DivergedShowsTruth(schema, View(), held, k);
      RebuildKeepsInv(schema, View(), held, k);
      failed := RebuildStored(k);
      held := held - {k};
      Record(Action.Rebuild(k));
    }

    /** Every record in hand is rebuilt; the answer names the call each diverged one fails at. */
    method RebuildAll(keys: set<Key>) returns (reports: map<Key, nat>)
      requires Valid() && keys == held
      modifies this
      ensures Valid() && held == {} && Grew() && KeptTruth() && live == old(live) && ops == old(ops)
      ensures Reports(schema, old(View()), keys, reports)
      ensures Showing(schema, old(View()), old(held), main, keys)
      ensures OnlyRebuilds(actions[|old(actions)|..], keys)
    {
      reports := map[];
      var rest := keys;
      while rest != {}
        invariant rest <= keys && rest == held && Valid() && Grew() && KeptTruth() && live == old(live)
        invariant ops == old(ops)
        invariant OnlyRebuilds(actions[|old(actions)|..], keys - rest)
        invariant Waiting(schema, old(View()), View(), rest)
        invariant Reports(schema, old(View()), keys - rest, reports)
        invariant Showing(schema, old(View()), old(held), main, keys - rest)
      {
        var k :| k in rest;
        ghost var s, done := View(), actions;
        var failed := RebuildRow(k);
        OnlyRebuildsNext(old(actions), done, actions, keys, rest, k);
        WaitingRest(schema, old(View()), s, rest, k);
        ShowingNext(schema, old(View()), old(held), s, main, keys, rest, k);
        ReportsNext(schema, old(View()), s, keys, rest, k, reports);
        rest := rest - {k};
        if failed.Some? {
          reports := reports[k := failed.value];
        }
      }
      assert keys - {} == keys;
    }

    // ------------------------------------------------- submitting a call

    /** Insert, patch or delete the visible row: an insert fails on a row that exists, a patch on one
        that does not. */
    method ApplyMain(op: Operation) returns (ok: bool)
      modifies this`main
      ensures ok <==> Accepts(Get(old(main), op.key), op)
      ensures ok ==> Holds(Get(old(main), op.key), op, Get(main, op.key))
      ensures main == if ok then Put(old(main), op.key, ApplyToRow(Get(old(main), op.key), op).row) else old(main)
    {
      match op.change {
        case Create(values) =>
          if op.key in main {
            return false;
          }
          main := main[op.key := MergeIdentity(op.key.identity, values)];
        case Update(patch) =>
          if op.key !in main {
            return false;
          }
          main := main[op.key := main[op.key] + patch];
        case Delete =>
          main := main - {op.key};
      }
      return true;
    }

    /** From here on the record's before-image is its base, the one it had already; no other is touched. */
    method HoldTruth(k: Key)
      modifies this`before
      ensures before == Holding(old(View()), k)
      ensures Dirty(View(), k) || k !in old(before) ==> Get(before, k) == Base(old(View()), {}, k)
      ensures forall other :: Base(View(), {}, other) == Base(old(View()), {}, other)
      ensures forall other :: other != k ==> Get(before, other) == Get(old(before), other)
    {
      if HasPending(ops, live, k) {
        return;
      }
      if k in main && k !in before {
        before := before[k := main[k]];
      }
    }

    /** `MAX(step) + 1` over the call's rows. */
    method NextStep(ordinal: nat) returns (position: nat)
      ensures NextPosition(ops, ordinal, position)
    {
      position := 0;
      var rest := ops;
      while rest != {}
        invariant rest <= ops && NextPosition(ops - rest, ordinal, position)
      {
        var q :| q in rest;
        rest := rest - {q};
        if q.ordinal == ordinal && position <= q.position {
          position := q.position + 1;
        }
      }
      assert ops - {} == ops;
    }

    method AppendOp(ordinal: nat, kind: OpKind, op: Operation) returns (position: nat)
      modifies this`ops, this`nextSequence
      ensures NextPosition(old(ops), ordinal, position)
      ensures ops == old(ops) + {NewOp(old(View()), ordinal, position, kind, op)}
      ensures nextSequence == old(nextSequence) + 1
    {
      position := NextStep(ordinal);
      ops := ops + {QueuedOp(ordinal, position, nextSequence, kind, op, EvidenceIn(evidence, op.key))};
      nextSequence := nextSequence + 1;
    }

    /** Hold, apply, store; a conflict leaves nothing behind. */
    method SubmitTables(ordinal: nat, kind: OpKind, op: Operation) returns (ok: bool, position: nat)
      modifies this`main, this`before, this`ops, this`nextSequence
      ensures ok <==> Accepts(Get(old(main), op.key), op)
      ensures ok ==> Holds(Get(old(main), op.key), op, Get(main, op.key))
      ensures ok ==> NextPosition(old(ops), ordinal, position)
      ensures ok ==> Submitted(old(View()), ordinal, position, kind, op) == Some(View())
      ensures !ok ==> View() == old(View())
    {
      var saved := before;
      position := 0;
      HoldTruth(op.key);
      ok := ApplyMain(op);
      if !ok {
        before := saved;
        return;
      }
      position := AppendOp(ordinal, kind, op);
    }

    /** One operation of the latest call. */
    method SubmitOne(ordinal: nat, kind: OpKind, op: Operation) returns (ok: bool, position: nat)
      requires Valid() && held == {} && Latest(View(), ordinal) && Normalized(schema, op)
      modifies this
      ensures Valid() && held == {} && Latest(View(), ordinal) && KeptTruth()
      ensures ok <==> Accepts(Get(old(main), op.key), op)
      ensures ok ==> Holds(Get(old(main), op.key), op, Get(main, op.key))
      ensures ok ==> Took(Action.Submit(ordinal, position, kind, op))
      ensures ok ==> Submitted(old(View()), ordinal, position, kind, op) == Some(View())
      ensures !ok ==> View() == old(View()) && actions == old(actions) && configs == old(configs)
    {
      ok, position := SubmitTables(ordinal, kind, op);
      if ok {
        SubmitKeepsInv(schema, old(View()), ordinal, position, kind, op, View());
        Record(Action.Submit(ordinal, position, kind, op));
      }
    }

    twostate predicate KeptTruth()
      requires Stored(schema, View()) && old(Stored(schema, View()))
      reads this
    {
      forall k :: Truth(schema, View(), held, k) == old(Truth(schema, View(), held, k))
    }

    /** Only quiet steps were added to the run. */
    twostate predicate Quietly()
      reads this
    {
      Grew() && QuietFrom(actions, |old(actions)|)
    }

    /** Only rebuilds and cascade extensions were added to the run. */
    twostate predicate Refreshed()
      reads this
    {
      Grew() && RefreshFrom(actions, |old(actions)|)
    }

    /** Nothing recorded is rewritten. */
    twostate predicate Grew()
      reads this
    {
      old(actions) <= actions && old(configs) <= configs
    }

    /** The records a delete cascades to, each deleted by the call, in order. */
    method SubmitDeletes(ordinal: nat, kind: OpKind, children: seq<Key>)
      requires Valid() && held == {} && Latest(View(), ordinal)
      requires forall k :: k in children ==> Identified(schema, k)
      modifies this
      ensures Valid() && held == {} && Latest(View(), ordinal) && Grew() && KeptTruth()
      ensures Submits(actions[|old(actions)|..], ordinal, Deletes(children, kind))
      ensures children == [] ==> View() == old(View())
      ensures SameButSubmits(old(View()), View())
    {
      var i := 0;
      while i < |children|
        invariant 0 <= i <= |children|
        invariant Valid() && held == {} && Latest(View(), ordinal) && Grew() && KeptTruth()
        invariant Submits(actions[|old(actions)|..], ordinal, Deletes(children[..i], kind))
        invariant i == 0 ==> View() == old(View())
        invariant SameButSubmits(old(View()), View())
      {
        ghost var done := actions;
        assert children[i] in children;
        var ok, position := SubmitOne(ordinal, kind, Operation(children[i], Delete));
        SubmitsNext(old(actions), done, actions, ordinal, Deletes(children[..i], kind), position, kind,
                    Operation(children[i], Delete));
        DeletesNext(children, i, kind);
        i := i + 1;
      }
      assert children[..i] == children;
    }

    /** A delete's cascade comes before the delete, each record stored at its trigger. Holding the
        record itself first, as the cascade runs, or at its own turn is the same: it is none of the cascade. */
    method ApplyInOrder(ordinal: nat, own: OpKind, cascade: OpKind, op: Operation)
      returns (ok: bool, children: seq<Key>)
      requires Valid() && held == {} && Latest(View(), ordinal) && Normalized(schema, op)
      modifies this
      ensures Valid() && held == {} && Latest(View(), ordinal) && Grew() && KeptTruth()
      ensures SameButSubmits(old(View()), View())
      ensures ok <==> Accepts(Get(old(main), op.key), op)
      ensures ok ==> Holds(Get(old(main), op.key), op, Get(main, op.key))
      ensures ok ==> InOrder(schema, old(View()), actions[|old(actions)|..], ordinal, own, cascade, op, children)
      ensures !ok ==> View() == old(View()) && actions == old(actions) && configs == old(configs)
    {
      children := [];
      if op.change.Delete? {
        children := Descendants(op.key);
        SubmitDeletes(ordinal, cascade, children);
      }
      assert CascadeOf(schema, old(View()), op, children);
      ghost var done := actions;
      var position;
      ok, position := SubmitOne(ordinal, own, op);
      if ok {
        SubmitsNext(old(actions), done, actions, ordinal, Deletes(children, cascade), position, own, op);
      }
    }

    /** Queue one call: its ordinal, then its companions and inputs, each in local order with its
        cascade. A failure rolls the whole call back. */
    method Enqueue(calls: seq<CallOp>)
      returns (ok: bool, ordinal: nat, blocks: seq<seq<Key>>, ghost cuts: seq<nat>)
      requires Valid() && held == {} && forall e :: e in calls ==> Normalized(schema, e.1)
      modifies this
      ensures Valid() && held == {} && KeptTruth()
      ensures ordinal == old(nextOrdinal) && (ok ==> Latest(View(), ordinal))
      ensures ok ==> live == old(live) + {ordinal} && nextOrdinal == old(nextOrdinal) + 1
      ensures ok ==> Grew() && |actions| > |old(actions)| && actions[|old(actions)|] == Action.Allocate
      ensures ok ==> CallSteps(schema, configs, actions, cuts, ordinal, calls, blocks) && cuts[0] == |old(actions)| + 1
      ensures !ok ==> View() == old(View()) && actions == old(actions) && configs == old(configs)
      ensures !ok ==> Refused(schema, old(configs), old(actions), ordinal, calls)
    {
      var main0, before0, ops0, live0, ordinal0, sequence0 := main, before, ops, live, nextOrdinal, nextSequence;
      ordinal := Begin();
      ok, blocks, cuts := EnqueueOps(ordinal, calls);
      if !ok {
        Restore(main0, before0, ops0, live0, ordinal0, sequence0, old(configs), old(actions));
      }
    }

    method Restore(main0: map<Key, Row>, before0: map<Key, Row>, ops0: set<QueuedOp>, live0: set<nat>, ordinal0: nat,
                   sequence0: nat, ghost configs0: seq<Config>, ghost actions0: seq<Action>)
      modifies this`main, this`before, this`ops, this`live, this`nextOrdinal, this`nextSequence
      modifies this`configs, this`actions
      ensures main == main0 && before == before0 && ops == ops0 && live == live0
      ensures nextOrdinal == ordinal0 && nextSequence == sequence0 && configs == configs0 && actions == actions0
    {
      main, before, ops, live, nextOrdinal, nextSequence := main0, before0, ops0, live0, ordinal0, sequence0;
      configs, actions := configs0, actions0;
    }

    method EnqueueOps(ordinal: nat, calls: seq<CallOp>) returns (ok: bool, blocks: seq<seq<Key>>, ghost cuts: seq<nat>)
      requires Valid() && held == {} && Latest(View(), ordinal) && forall e :: e in calls ==> Normalized(schema, e.1)
      modifies this
      ensures Valid() && held == {} && Latest(View(), ordinal) && Grew() && KeptTruth()
      ensures SameButSubmits(old(View()), View())
      ensures ok ==> CallSteps(schema, configs, actions, cuts, ordinal, calls, blocks) && cuts[0] == |old(actions)|
      ensures !ok ==> StopsAt(schema, configs, actions, cuts, ordinal, calls, blocks) && cuts[0] == |old(actions)|
    {
      ok, blocks, cuts := true, [], [|actions|];
      var i := 0;
      while i < |calls|
        invariant 0 <= i <= |calls|
        invariant Valid() && held == {} && Latest(View(), ordinal) && Grew() && KeptTruth()
        invariant CallSteps(schema, configs, actions, cuts, ordinal, calls[..i], blocks) && cuts[0] == |old(actions)|
        invariant SameButSubmits(old(View()), View())
      {
        assert calls[i] in calls;
        ok, blocks, cuts := EnqueueOne(ordinal, calls, i, blocks, cuts);
        if !ok {
          return;
        }
        i := i + 1;
      }
      assert calls[..i] == calls;
    }

    method EnqueueOne(ordinal: nat, calls: seq<CallOp>, i: nat, blocks0: seq<seq<Key>>, ghost cuts0: seq<nat>)
      returns (ok: bool, blocks: seq<seq<Key>>, ghost cuts: seq<nat>)
      requires Valid() && held == {} && Latest(View(), ordinal) && i < |calls| && Normalized(schema, calls[i].1)
      requires CallSteps(schema, configs, actions, cuts0, ordinal, calls[..i], blocks0)
      modifies this
      ensures Valid() && held == {} && Latest(View(), ordinal) && Grew() && KeptTruth()
      ensures SameButSubmits(old(View()), View())
      ensures ok ==> CallSteps(schema, configs, actions, cuts, ordinal, calls[..i + 1], blocks) && cuts[0] == cuts0[0]
      ensures !ok ==> cuts == cuts0 && StopsAt(schema, configs, actions, cuts, ordinal, calls, blocks)
    {
      ghost var at := |actions|;
      assert configs[at].s == View();
      var children;
      var cascade := if calls[i].0 == Companion then Companion else Effect;
      ok, children := ApplyInOrder(ordinal, calls[i].0, cascade, calls[i].1);
      blocks, cuts := blocks0, cuts0;
      if ok {
        blocks, cuts := blocks0 + [children], cuts0 + [|actions|];
        CallStepsAppend(schema, old(configs), old(actions), configs, actions, cuts0, ordinal, calls[..i], blocks0,
                        calls[i], children);
        assert calls[..i + 1] == calls[..i] + [calls[i]];
      }
    }

    method Begin() returns (ordinal: nat)
      requires Valid() && held == {}
      modifies this
      ensures Valid() && held == {} && KeptTruth() && Took(Action.Allocate) && View() == Runs.Allocated(old(View()))
      ensures ordinal == old(nextOrdinal) && Latest(View(), ordinal)
    {
      ordinal := nextOrdinal;
      AllocateKeepsInv(schema, View());
      live := live + {nextOrdinal};
      nextOrdinal := nextOrdinal + 1;
      Record(Action.Allocate);
    }

    /** A local companion joins the latest call, while that call is unsent and nothing was written
        after it. */
    method AppendCompanion(ordinal: nat, unsent: bool, op: Operation) returns (ok: bool, children: seq<Key>)
      requires Valid() && held == {} && Normalized(schema, op)
      modifies this
      ensures Valid() && held == {} && Grew() && KeptTruth()
      ensures ok <==> (unsent && ordinal in old(live) && old(nextOrdinal) == ordinal + 1
                       && (forall w :: w in old(writes) && w.kind == Independent ==> w.ordinal < ordinal)
                       && Accepts(Get(old(main), op.key), op))
      ensures ok ==> Latest(View(), ordinal) && SameButSubmits(old(View()), View())
      ensures ok ==>
        InOrder(schema, old(View()), actions[|old(actions)|..], ordinal, Companion, Companion, op, children)
      ensures !ok ==> View() == old(View()) && actions == old(actions)
    {
      ok, children := false, [];
      if ordinal !in live || !unsent {
        return;
      }
      if nextOrdinal - 1 != ordinal || exists w :: w in writes && w.kind == Independent && w.ordinal >= ordinal {
        return;
      }
      ok, children := ApplyInOrder(ordinal, Companion, Companion, op);
    }

    // ------------------------------------------------------- direct writes

    /** One write that is never sent: journaled after everything written to a dirty record, retained
        in the local layer of a clean one. */
    method DirectOne(op: Operation) returns (ok: bool)
      requires Valid() && held == {} && Normalized(schema, op)
      modifies this
      ensures Valid() && held == {} && Grew()
      ensures ok <==> Accepts(Get(old(main), op.key), op)
      ensures ok ==> Holds(Get(old(main), op.key), op, Get(main, op.key))
      ensures ok ==> Took(Action.Direct(op)) && LocalSteps.Direct(old(View()), op) == Some(View())
      ensures ok ==> forall k :: LocalSteps.Moves(schema, old(View()), op, View(), k)
      ensures !ok ==> View() == old(View()) && actions == old(actions) && configs == old(configs)
    {
      ok := DirectTables(op);
      if ok {
        LocalSteps.DirectKeepsInv(schema, old(View()), op, View());
        Record(Action.Direct(op));
      }
    }

    method DirectTables(op: Operation) returns (ok: bool)
      requires 1 <= nextOrdinal
      modifies this`main, this`writes, this`layer, this`nextSequence
      ensures ok <==> Accepts(Get(old(main), op.key), op)
      ensures ok ==> Holds(Get(old(main), op.key), op, Get(main, op.key))
      ensures ok ==> LocalSteps.Direct(old(View()), op) == Some(View())
      ensures !ok ==> View() == old(View())
    {
      var dirty := HasPending(ops, live, op.key);
      ok := ApplyMain(op);
      if !ok {
        return;
      }
      if dirty {
        var after := nextOrdinal - 1;
        writes := writes + {LocalWrite(nextSequence, after, 0, Independent, op)};
        nextSequence := nextSequence + 1;
      } else {
        nextSequence := nextSequence + 1;
        RetainLocal(op.key, op);
      }
    }

    /** A direct write moves the truth of its own record by its operation, deletes the truth of every
        record a delete cascades to, and moves no other. */
    method DirectWrite(op: Operation) returns (ok: bool)
      requires Valid() && held == {} && Normalized(schema, op)
      modifies this
      ensures Valid() && held == {} && Quietly()
      ensures ok <==> Accepts(Get(old(main), op.key), op)
      ensures ok ==> Holds(Get(old(main), op.key), op, Get(main, op.key))
      ensures ok ==> forall k :: DirectTruth(schema, old(View()), op, View(), k)
      ensures !ok ==> View() == old(View()) && actions == old(actions)
    {
      ghost var children := DirectCascade(op);
      ghost var s := View();
      ok := DirectOne(op);
      if ok { DirectTruths(schema, old(View()), s, op, children, View()); }
    }

    /** What the write cascades to goes first. */
    method DirectCascade(op: Operation) returns (ghost children: seq<Key>)
      requires Valid() && held == {} && Identified(schema, op.key)
      modifies this
      ensures Valid() && held == {} && Quietly()
      ensures CascadeOf(schema, old(View()), op, children) && op.key !in children
      ensures DeletedTruth(schema, old(View()), View(), children)
      ensures !op.change.Delete? ==> View() == old(View()) && actions == old(actions)
    {
      children := [];
      if op.change.Delete? {
        var below := Descendants(op.key);
        children := below;
        DirectDeletes(below);
      }
    }

    method DirectDeletes(children: seq<Key>)
      requires Valid() && held == {} && forall k :: k in children ==> Identified(schema, k)
      modifies this
      ensures Valid() && held == {} && Quietly()
      ensures DeletedTruth(schema, old(View()), View(), children)
    {
      var i := 0;
      while i < |children|
        invariant 0 <= i <= |children| && Valid() && held == {} && Quietly()
        invariant DeletedTruth(schema, old(View()), View(), children[..i])
      {
        ghost var s := View();
        assert children[i] in children;
        var ok := DirectOne(Operation(children[i], Delete));
        DeletedNext(schema, old(View()), s, View(), children, i);
        i := i + 1;
      }
      assert children[..i] == children;
    }

    // ----------------------------------------------------- pending cascades

    /** Whether the call's last delete is followed by a local recreation. */
    method RecreatedLocally(parent: Key, ordinal: nat) returns (recreated: bool)
      requires Stored(schema, View())
      ensures recreated <==> Recreated(Hist(schema, View(), parent), ordinal)
    {
      var steps := HistoryOf(parent);
      var at := |steps|;
      while at > 0 && !(steps[at - 1].Pending? && steps[at - 1].queued.ordinal == ordinal
                        && steps[at - 1].queued.op.change.Delete?)
        invariant 0 <= at <= |steps|
        invariant forall i :: at <= i < |steps| ==> !DeletedBy(steps[i], ordinal)
      {
        at := at - 1;
      }
      recreated := at > 0 &&
        exists j :: at <= j < |steps| &&
          (if steps[j].Pending?
           then steps[j].queued.ordinal == ordinal && steps[j].queued.op.change.Create?
           else steps[j].write.op.change.Create?);
      assert forall j :: 0 <= j < |steps| && Recreates(steps[j], ordinal) ==> steps[j].Op().change.Create?;
    }

    /** One record that appeared under a queued delete goes with it. */
    method ExtendOne(ordinal: nat, kind: OpKind, child: Key) returns (position: nat)
      requires Valid() && held == {} && ordinal in live && Identified(schema, child) && kind != Wire
      modifies this
      ensures Valid() && held == {} && KeptTruth() && live == old(live)
      ensures Took(Action.Extend(ordinal, position, kind, child))
    {
      position := ExtendTables(ordinal, kind, child);
      LocalSteps.ExtendKeepsInv(schema, old(View()), ordinal, position, kind, child);
      Record(Action.Extend(ordinal, position, kind, child));
    }

    method ExtendTables(ordinal: nat, kind: OpKind, child: Key) returns (position: nat)
      requires Inv(schema, View(), {}) && ordinal in live && Identified(schema, child)
      modifies this`main, this`before, this`writes, this`layer, this`diverged, this`ops, this`nextSequence
      ensures CanQueue(schema, old(View()), {}, ordinal, position, Operation(child, Delete))
      ensures View() == LocalSteps.Extend(schema, old(View()), ordinal, position, kind, child)
    {
      position := QueueTables(ordinal, kind, Operation(child, Delete));
      QueueStored(schema, old(View()), {}, ordinal, position, kind, Operation(child, Delete));
      var failed := RebuildStored(child);
    }

    method QueueTables(ordinal: nat, kind: OpKind, op: Operation) returns (position: nat)
      modifies this`before, this`ops, this`nextSequence
      ensures NextPosition(old(ops), ordinal, position)
      ensures View() == Queue(old(View()), ordinal, position, kind, op)
    {
      HoldTruth(op.key);
      position := AppendOp(ordinal, kind, op);
    }

    /** One queued delete: unless a local write recreated its record since, every record below it that
        the call did not already delete is deleted with it. */
    method RefreshDelete(queued: QueuedOp, already: set<Key>)
      requires Valid() && held == {} && queued.ordinal in live && queued.op.change.Delete?
      requires Identified(schema, queued.op.key)
      modifies this
      ensures Valid() && held == {} && Refreshed() && KeptTruth() && live == old(live)
      ensures RefreshStep(schema, configs, actions, |old(actions)|, |actions|, queued, already)
      ensures already <= Already(old(ops), queued.ordinal) ==>
        Spared(schema, old(View()), queued) || AllDeleted(schema, View(), queued)
    {
      var parent := queued.op.key;
      if parent in main {
        var recreated := RecreatedLocally(parent, queued.ordinal);
        if recreated {
          return;
        }
      }
      var children := Descendants(parent);
      var kind := if queued.kind == Companion then Companion else Effect;
      ExtendAll(queued.ordinal, kind, children, already);
      ExtendedRefresh(actions, |old(actions)|, queued.ordinal, CascadeKind(queued.kind), Missing(children, already));
      assert actions[|old(actions)|..|actions|] == actions[|old(actions)|..];
      if already <= Already(old(ops), queued.ordinal) {
        RefreshedOnce(schema, old(View()), queued, children, already, old(configs), old(actions), configs, actions);
      }
    }

    method ExtendAll(ordinal: nat, kind: OpKind, children: seq<Key>, already: set<Key>)
      requires Valid() && held == {} && ordinal in live && kind != Wire
      requires forall k :: k in children ==> Identified(schema, k)
      modifies this
      ensures Valid() && held == {} && Grew() && KeptTruth() && live == old(live)
      ensures ExtendedBy(actions[|old(actions)|..], ordinal, kind, Missing(children, already))
    {
      var i := 0;
      while i < |children|
        invariant 0 <= i <= |children| && Valid() && held == {} && Grew() && KeptTruth() && live == old(live)
        invariant ExtendedBy(actions[|old(actions)|..], ordinal, kind, Missing(children[..i], already))
      {
        assert children[i] in children;
        ghost var done := actions;
        MissingNext(children, i, already);
        if children[i] !in already {
          var position := ExtendOne(ordinal, kind, children[i]);
          ghost var before := Missing(children[..i], already);
          ExtendedByNext(old(actions), done, actions, ordinal, position, kind, before, children[i]);
        }
        i := i + 1;
      }
      assert children[..i] == children;
    }

    /** The earliest of some rows, by call, own deletes before companions, then position. */
    method Lowest(rows: set<QueuedOp>) returns (q: QueuedOp)
      requires rows != {} && Keyed(rows)
      ensures q in rows && forall p :: p in rows && p != q ==> RefreshedBefore(q, p)
    {
      q :| q in rows;
      var rest := rows - {q};
      while rest != {}
        invariant rest <= rows && q in rows - rest
        invariant forall x :: x in rows && x !in rest && x != q ==> RefreshedBefore(q, x)
      {
        var p :| p in rest;
        rest := rest - {p};
        assert p.ordinal == q.ordinal && p.position == q.position ==> p == q;
        var first := p.kind == Wire;
        if p.ordinal < q.ordinal
           || (p.ordinal == q.ordinal && (if first == (q.kind == Wire) then p.position < q.position else first)) {
          q := p;
        }
      }
    }

    /** The deletes of every live call that cascade, in the order they are looked at. */
    method PendingDeletes() returns (list: seq<QueuedOp>)
      requires Keyed(ops)
      ensures DeletesListed(ops, live, list)
    {
      list := [];
      var rest := set q | q in ops && q.ordinal in live && q.kind != Effect && q.op.change.Delete?;
      ghost var all := rest;
      while rest != {}
        invariant rest <= all && forall q :: q in list <==> q in all - rest
        invariant forall q, p :: q in list && p in rest ==> RefreshedBefore(q, p)
        invariant forall i, j :: 0 <= i < j < |list| ==> RefreshedBefore(list[i], list[j])
      {
        var q := Lowest(rest);
        rest := rest - {q};
        list := list + [q];
      }
    }

    /** Queued deletes reach the records that appeared below them: every delete a live call held when
        the refresh began is looked at once, in order, and only their cascades are stored. */
    method RefreshPending() returns (ghost list: seq<QueuedOp>, ghost cuts: seq<nat>)
      requires Valid() && held == {}
      modifies this
      ensures Valid() && held == {} && Refreshed() && KeptTruth() && live == old(live)
      ensures DeletesListed(old(ops), old(live), list)
      ensures RefreshSteps(schema, old(ops), configs, actions, cuts, list) && cuts[0] == |old(actions)|
    {
      var rows := ops;
      var deletes := PendingDeletes();
      list, cuts := deletes, [|actions|];
      forall q | q in deletes ensures Identified(schema, q.op.key) { assert StoredOp(schema, View(), q); }
      var i := 0;
      while i < |deletes|
        invariant 0 <= i <= |deletes| && Valid() && held == {} && Refreshed() && KeptTruth() && live == old(live)
        invariant RefreshSteps(schema, old(ops), configs, actions, cuts, deletes[..i]) && cuts[0] == |old(actions)|
      {
        assert deletes[i] in deletes;
        cuts := RefreshNext(rows, deletes, i, cuts);
        i := i + 1;
      }
      assert deletes[..i] == deletes;
    }

    method RefreshNext(rows: set<QueuedOp>, deletes: seq<QueuedOp>, i: nat, ghost cuts0: seq<nat>)
      returns (ghost cuts: seq<nat>)
      requires Valid() && held == {} && i < |deletes| && deletes[i].ordinal in live && Cascades(deletes[i])
      requires RefreshSteps(schema, rows, configs, actions, cuts0, deletes[..i])
      requires Identified(schema, deletes[i].op.key)
      modifies this
      ensures Valid() && held == {} && Refreshed() && KeptTruth() && live == old(live)
      ensures RefreshSteps(schema, rows, configs, actions, cuts, deletes[..i + 1]) && cuts[0] == cuts0[0]
    {
      var ordinal := deletes[i].ordinal;
      var already := set q | q in rows && q.ordinal == ordinal && q.kind != Wire && q.op.change.Delete? :: q.op.key;
      assert already == Already(rows, ordinal);
      RefreshDelete(deletes[i], already);
      cuts := cuts0 + [|actions|];
      RefreshStepsAppend(schema, rows, old(configs), old(actions), configs, actions, cuts0, deletes, i);
    }

    /** After a base or the queue changed: the records in hand are rebuilt, each once, and then queued
        deletes are extended. */
    method RebuildHeld(keys: set<Key>) returns (reports: map<Key, nat>, ghost list: seq<QueuedOp>, ghost cuts: seq<nat>)
      requires Valid() && keys == held
      modifies this
      ensures Valid() && held == {} && Refreshed() && KeptTruth() && live == old(live)
      ensures Reports(schema, old(View()), keys, reports)
      ensures DeletesListed(old(ops), live, list) && RefreshSteps(schema, old(ops), configs, actions, cuts, list)
      ensures cuts[0] < |configs| && Showing(schema, old(View()), old(held), configs[cuts[0]].s.main, keys)
      ensures |old(actions)| <= cuts[0] <= |actions| && OnlyRebuilds(actions[|old(actions)|..cuts[0]], keys)
    {
      reports := RebuildAll(keys);
      OnlyRebuildsRefresh(actions, |old(actions)|, keys);
      ghost var rebuilt := actions;
      assert configs[|actions|].s == View();
      list, cuts := RefreshPending();
      assert actions[|old(actions)|..cuts[0]] == rebuilt[|old(actions)|..];
    }

    // ------------------------------------- refusal, settlement and authority

    /** Refused calls stop pending; the records they touch are to be rebuilt. */
    method RejectCalls(ids: set<nat>, keys0: set<Key>) returns (keys: set<Key>)
      requires Valid() && keys0 == held
      modifies this
      ensures Valid() && keys == held && Took(Action.Reject(ids)) && KeptTruth()
      ensures View() == LocalSteps.Reject(old(View()), ids) && live == old(live) - ids
      ensures held == old(held) + set q | q in old(ops) && q.ordinal in ids && q.ordinal in old(live) :: q.op.key
    {
      LocalSteps.RejectKeepsInv(schema, View(), held, ids);
      keys := keys0 + LocalSteps.TouchedIn(ops, live, ids);
      live := live - ids;
      held := keys;
      Record(Action.Reject(ids));
    }

    /** The call's last wire operation on a record. */
    method LastWireOn(id: nat, k: Key) returns (last: Option<QueuedOp>)
      requires Keyed(ops)
      ensures last.Some? ==> Settlement.LastWire(ops, id, last.value) && last.value.op.key == k
      ensures last.None? ==> !Settlement.OwnsTarget(ops, id, k)
    {
      last := None;
      var rest := ops;
      while rest != {}
        invariant rest <= ops
        invariant last.Some? ==> WireOn(last.value, id, k) && last.value in ops
        invariant forall q :: q in ops && q !in rest && WireOn(q, id, k) ==>
          last.Some? && q.position <= last.value.position
      {
        var q :| q in rest;
        rest := rest - {q};
        if WireOn(q, id, k) && (last.None? || last.value.position < q.position) {
          last := Some(q);
        }
      }
    }

    /** A finalized target's snapshot takes the place of the call's last wire operation on it, unless
        newer authority landed since. A target the call never wrote is an error. */
    method RetainFinals(id: nat, finals: map<Key, Change>) returns (ok: bool)
      requires Keyed(ops)
      modifies this`writes
      ensures ok <==> forall k :: k in finals ==> Settlement.OwnsTarget(ops, id, k)
      ensures ok ==> writes == old(writes) + Settlement.Snapshots(old(View()), id, finals)
      ensures !ok ==> writes == old(writes)
    {
      var saved := writes;
      var rest := finals.Keys;
      ok := true;
      assert finals - finals.Keys == map[];
      while rest != {}
        invariant rest <= finals.Keys
        invariant forall k :: k in finals && k !in rest ==> Settlement.OwnsTarget(ops, id, k)
        invariant writes == old(writes) + Settlement.Snapshots(old(View()), id, finals - rest)
      {
        var k :| k in rest;
        var last := LastWireOn(id, k);
        if last.None? {
          writes := saved;
          ok := false;
          return;
        }
        Settlement.SnapshotsNext(old(View()), id, finals, rest, k, last.value);
        rest := rest - {k};
        if Settlement.OwnedUnder(evidence, last.value) {
          writes := writes + {Settlement.AcceptedWrite(last.value, Operation(k, finals[k]))};
        }
      }
      assert finals - {} == finals;
    }

    /** The call's own companions stay as settled writes at their places. */
    method RetainCompanions(id: nat, targets: set<Key>)
      modifies this`writes
      ensures writes == old(writes) + Settlement.Companions(old(View()), id, targets)
    {
      var rest := ops;
      while rest != {}
        invariant rest <= ops
        invariant writes == old(writes) + Settlement.CompanionsAmong(ops - rest, old(View()), id, targets)
      {
        var q :| q in rest;
        Settlement.CompanionsNext(ops, rest, old(View()), id, targets, q);
        rest := rest - {q};
        if q.ordinal == id && q.kind == Companion && q.op.key !in targets && Settlement.OwnedUnder(evidence, q) {
          writes := writes + {Settlement.AcceptedWrite(q, q.op)};
        }
      }
      assert ops - {} == ops;
    }

    /** Settle an accepted call whose targets have what they wait for. */
    method SettleCall(id: nat, targets: set<Key>, finals: map<Key, Change>, keys0: set<Key>)
      returns (ok: bool, keys: set<Key>)
      requires Valid() && keys0 == held && Settlement.CanSettle(schema, View(), id, targets, finals)
      modifies this
      ensures Valid() && keys == held
      ensures ok <==> forall k :: k in finals ==> Settlement.OwnsTarget(old(ops), id, k)
      ensures ok ==> Took(Action.Settle(id, targets, finals))
      ensures ok ==> View() == Settlement.Settle(old(View()), id, targets, finals)
      ensures ok ==> live == old(live) - {id} && ops == set q | q in old(ops) && q.ordinal != id
      ensures ok ==> held == old(held) + set q | q in old(ops) && q.ordinal == id :: q.op.key
      ensures !ok ==> View() == old(View()) && held == old(held) && actions == old(actions)
    {
      keys := keys0;
      var touched := LocalSteps.TouchedIn(ops, live, {id});
      ok := SettleTables(id, targets, finals);
      if ok {
        keys := keys0 + touched;
        held := keys;
        Record(Action.Settle(id, targets, finals));
      }
    }

    method SettleTables(id: nat, targets: set<Key>, finals: map<Key, Change>) returns (ok: bool)
      requires Keyed(ops)
      modifies this`writes, this`live, this`ops
      ensures ok <==> forall k :: k in finals ==> Settlement.OwnsTarget(old(ops), id, k)
      ensures ok ==> View() == Settlement.Settle(old(View()), id, targets, finals)
      ensures !ok ==> writes == old(writes) && live == old(live) && ops == old(ops)
    {
      ok := RetainFinals(id, finals);
      if ok {
        Settlement.CompanionsSame(old(View()), View(), id, targets);
        RetainCompanions(id, targets);
        live := live - {id};
        ops := set q | q in ops && q.ordinal != id;
      }
    }

    /** One record's authority goes under its pending work, or becomes its row. */
    method StageRow(k: Key, incoming: Option<Row>, cursor: Option<nat>, keys0: set<Key>) returns (keys: set<Key>)
      requires Valid() && keys0 == held && TotalState(schema, k, incoming) && HeldDirty()
      modifies this
      ensures Valid() && keys == held && Took(Action.Stage(k, incoming, cursor))
      ensures View() == LocalSteps.Stage(old(View()), k, incoming, cursor)
      ensures held == LocalSteps.StageHeld(old(View()), old(held), k) && HeldDirty() && ops == old(ops)
      ensures live == old(live)
    {
      var dirty := HasPending(ops, live, k);
      keys := if dirty then keys0 + {k} else keys0;
      StageTables(k, incoming, cursor, dirty);
      held := keys;
      Record(Action.Stage(k, incoming, cursor));
    }

    /** `stage_one` for newer authority, `stage_preserving_local` for the same position again. */
    method StageTables(k: Key, incoming: Option<Row>, cursor: Option<nat>, dirty: bool)
      requires dirty == Dirty(View(), k)
      modifies this`main, this`before, this`writes, this`layer, this`evidence, this`authority
      ensures View() == LocalSteps.Stage(old(View()), k, incoming, cursor)
    {
      match cursor {
        case Some(position) => StageOne(k, incoming, position, dirty);
        case None =>
          var adapted := AdaptLayer(incoming, LayerIn(layer, k));
          PlaceBase(k, adapted, dirty);
      }
      authority := Put(authority, k, incoming);
    }

    method StageOne(k: Key, incoming: Option<Row>, position: nat, dirty: bool)
      requires dirty == Dirty(View(), k)
      modifies this`main, this`before, this`writes, this`layer, this`evidence
      ensures var known := Evidence(old(View()), k);
        evidence == old(evidence)[k := if position > known then position else known]
      ensures layer == old(layer) - {k}
      ensures writes == if dirty then LocalSteps.WithoutWrites(old(writes), k) else old(writes)
      ensures main == if dirty then old(main) else Put(old(main), k, incoming)
      ensures before == if dirty then Put(old(before), k, incoming) else old(before)
    {
      var known := EvidenceIn(evidence, k);
      evidence := evidence[k := if position > known then position else known];
      layer := layer - {k};
      if dirty {
        writes := set w | w in writes && w.op.key != k;
      }
      PlaceBase(k, incoming, dirty);
    }

    method PlaceBase(k: Key, base: Option<Row>, dirty: bool)
      modifies this`main, this`before
      ensures main == if dirty then old(main) else Put(old(main), k, base)
      ensures before == if dirty then Put(old(before), k, base) else old(before)
    {
      if dirty {
        before := Put(before, k, base);
      } else {
        main := Put(main, k, base);
      }
    }

    method AdaptLayer(incoming: Option<Row>, operations: seq<Operation>) returns (adapted: Option<Row>)
      ensures adapted == Adapt(incoming, operations)
    {
      adapted := incoming;
      var i := 0;
      while i < |operations|
        invariant 0 <= i <= |operations| && adapted == Adapt(incoming, operations[..i])
      {
        assert operations[..i + 1][..i] == operations[..i];
        if operations[i].change.Create? && adapted.Some? {
          adapted := Some(adapted.value + operations[i].change.values);
        } else {
          adapted := ApplySettled(adapted, operations[i]);
        }
        i := i + 1;
      }
      assert operations[..i] == operations;
    }

    /** Between staging and rebuilding, only records with pending work are in hand. */
    ghost predicate HeldDirty()
      reads this
    {
      forall h :: h in held ==> Dirty(View(), h)
    }

    /** Install admitted changes in turn. The changed rows are cleared before the first goes in, so that
        unique indexes see only what is final: a search below a removed record meets no changed record
        that still waits for its own row, nor, until it is rebuilt, a changed one with pending work. */
    method StageChanges(changes: seq<Admitted>, keys0: set<Key>)
      returns (keys: set<Key>, ghost blocks: seq<seq<Key>>, ghost cuts: seq<nat>)
      requires Valid() && keys0 == held && HeldDirty()
      requires forall c :: c in changes ==> Identified(schema, c.key) && TotalState(schema, c.key, c.incoming)
      modifies this
      ensures Valid() && keys == held && HeldDirty() && ops == old(ops) && live == old(live) && Quietly()
      ensures StageSteps(schema, configs, actions, cuts, changes, |changes|, blocks) && cuts[0] == |old(actions)|
    {
      keys, blocks, cuts := keys0, [], [|actions|];
      var cleared := set c | c in changes :: c.key;
      var i := 0;
      while i < |changes|
        invariant 0 <= i <= |changes| && Valid() && keys == held && HeldDirty() && ops == old(ops) && live == old(live)
        invariant Quietly() && cleared == Cleared(View(), changes, i)
        invariant StageSteps(schema, configs, actions, cuts, changes, i, blocks) && cuts[0] == |old(actions)|
      {
        var c := changes[i];
        assert c in changes;
        ClearedNext(View(), changes, i);
        if !HasPending(ops, live, c.key) {
          cleared := cleared - {c.key};
        }
        keys, blocks, cuts := StageNext(changes, i, cleared, keys, blocks, cuts);
        i := i + 1;
      }
    }

    method StageNext(changes: seq<Admitted>, i: nat, cleared: set<Key>, keys0: set<Key>, ghost blocks0: seq<seq<Key>>,
                     ghost cuts0: seq<nat>)
      returns (keys: set<Key>, ghost blocks: seq<seq<Key>>, ghost cuts: seq<nat>)
      requires Valid() && keys0 == held && HeldDirty() && i < |changes|
      requires Identified(schema, changes[i].key) && TotalState(schema, changes[i].key, changes[i].incoming)
      requires cleared == Cleared(View(), changes, i + 1)
      requires StageSteps(schema, configs, actions, cuts0, changes, i, blocks0)
      modifies this
      ensures Valid() && keys == held && HeldDirty() && ops == old(ops) && live == old(live) && Quietly()
      ensures StageSteps(schema, configs, actions, cuts, changes, i + 1, blocks) && cuts[0] == cuts0[0]
    {
      assert configs[|actions|].s == View();
      ghost var children;
      keys, children := InstallChange(changes[i], cleared, keys0);
      blocks, cuts := blocks0 + [children], cuts0 + [|actions|];
      StageStepsAppend(schema, old(configs), old(actions), configs, actions, cuts0, changes, i, blocks0, children);
    }

    /** One admitted change: the record is staged, and a removed record takes with it every record
        below it that no later authority covers. */
    method InstallChange(c: Admitted, cleared: set<Key>, keys0: set<Key>)
      returns (keys: set<Key>, ghost children: seq<Key>)
      requires Valid() && keys0 == held && HeldDirty()
      requires Identified(schema, c.key) && TotalState(schema, c.key, c.incoming)
      modifies this
      ensures Valid() && keys == held && HeldDirty() && ops == old(ops) && live == old(live)
      ensures actions == old(actions) + StageActions(c, children) && Quietly()
      ensures StageStep(schema, configs, actions, |old(actions)|, |actions|, c, cleared, children)
    {
      keys := StageOwn(c, keys0);
      ghost var staged, own := configs, actions;
      keys, children := StageBelow(c, cleared, keys);
      StageStepMade(schema, old(actions), staged, own, configs, actions, c, cleared, children);
    }

    method StageOwn(c: Admitted, keys0: set<Key>) returns (keys: set<Key>)
      requires Valid() && keys0 == held && TotalState(schema, c.key, c.incoming) && HeldDirty()
      modifies this
      ensures Valid() && keys == held && HeldDirty() && ops == old(ops) && live == old(live) && Grew()
      ensures actions == old(actions) + Stages([c.key], c.incoming, c.Position())
    {
      keys := StageAll([c.key], c.incoming, c.Position(), keys0);
    }

    method StageBelow(c: Admitted, cleared: set<Key>, keys0: set<Key>)
      returns (keys: set<Key>, ghost children: seq<Key>)
      requires Valid() && keys0 == held && HeldDirty() && Identified(schema, c.key)
      modifies this
      ensures Valid() && keys == held && HeldDirty() && ops == old(ops) && live == old(live) && Grew()
      ensures actions == old(actions) + Stages(children, None, if c.newer then Some(0) else None)
      ensures Uncovered(schema, old(View()), c, cleared, children)
    {
      var found: seq<Key> := [];
      if c.incoming.None? {
        found := UncoveredBelow(c, cleared);
      }
      children := found;
      keys := StageAll(found, None, if c.newer then Some(0) else None, keys0);
    }

    /** The descendants whose authority is not later than the removal's. */
    method UncoveredBelow(c: Admitted, cleared: set<Key>) returns (found: seq<Key>)
      requires Valid() && Identified(schema, c.key) && c.incoming.None?
      ensures Uncovered(schema, View(), c, cleared, found)
    {
      ReachableKeys(schema, configs, actions);
      var shown := main - cleared;
      var admit := set k | k in shown.Keys + before.Keys && EvidenceIn(evidence, k) <= c.cursor;
      assert admit == set k | k in shown.Keys + View().before.Keys && Evidence(View(), k) <= c.cursor;
      found := DescendantsWhere(Children(schema, shown, before, c.key), c.key, admit);
      forall k ensures k in found <==> GoesWith(schema, shown, before, admit, c.key, k) {
        DescendsExactly(schema, shown, before, admit, c.key, k);
      }
    }

    method StageAll(list: seq<Key>, incoming: Option<Row>, cursor: Option<nat>, keys0: set<Key>)
      returns (keys: set<Key>)
      requires Valid() && keys0 == held && HeldDirty() && forall k :: k in list ==> TotalState(schema, k, incoming)
      modifies this
      ensures Valid() && keys == held && HeldDirty() && ops == old(ops) && live == old(live)
      ensures actions == old(actions) + Stages(list, incoming, cursor) && Grew()
      ensures |list| == 1 ==> View() == LocalSteps.Stage(old(View()), list[0], incoming, cursor)
    {
      keys := keys0;
      var i := 0;
      while i < |list|
        invariant 0 <= i <= |list| && Valid() && keys == held && HeldDirty() && ops == old(ops) && live == old(live)
        invariant actions == old(actions) + Stages(list[..i], incoming, cursor) && Grew()
        invariant i == 0 ==> View() == old(View())
        invariant i == 1 ==> View() == LocalSteps.Stage(old(View()), list[0], incoming, cursor)
      {
        assert list[i] in list;
        keys := StageRow(list[i], incoming, cursor, keys);
        StagesNext(list, i, incoming, cursor);
        i := i + 1;
      }
      assert list[..i] == list;
    }
  }

  /** The call a record's rebuild reports. */
  ghost function Divergence(schema: Schema, s: State, k: Key): Option<nat>
    requires Stored(schema, s)
  {
    match Replay(Get(s.before, k), Hist(schema, s, k)) case Replayed(_) => None case Diverged(o) => Some(o)
  }

  /** One report for each of the records whose history does not replay, naming the first call to fail. */
  ghost predicate Reports(schema: Schema, s: State, keys: set<Key>, reports: map<Key, nat>)
    requires Stored(schema, s)
  {
    forall k :: Get(reports, k) == if k in keys then Divergence(schema, s, k) else None
  }

  /** The record shows its replay, or its truth when it does not replay. */
  ghost predicate ShowsOne(schema: Schema, s: State, held: set<Key>, k: Key, row: Option<Row>)
    requires Stored(schema, s)
  {
    match Replay(Get(s.before, k), Hist(schema, s, k))
    case Replayed(replayed) => row == replayed
    case Diverged(_) => row == Truth(schema, s, held, k)
  }

  ghost predicate Showing(schema: Schema, s: State, held: set<Key>, main: map<Key, Row>, keys: set<Key>)
    requires Stored(schema, s)
  {
    forall k :: k in keys ==> ShowsOne(schema, s, held, k, Get(main, k))
  }

  lemma ShowingNext(schema: Schema, s: State, held: set<Key>, t: State, main: map<Key, Row>, keys: set<Key>,
                    rest: set<Key>, k: Key)
    requires Stored(schema, s) && Stored(schema, t) && Waiting(schema, s, t, rest)
    requires keys == held && k in rest && rest <= keys
    requires main == Rebuilding.Rebuild(schema, t, k).main
    requires Showing(schema, s, held, t.main, keys - rest)
    ensures Showing(schema, s, held, main, keys - (rest - {k}))
  {
    RebuiltShows(schema, s, held, t, k);
    forall other | other in keys - rest ensures ShowsOne(schema, s, held, other, Get(main, other)) {
      RebuildLeaves(schema, t, k, other);
    }
  }

  lemma RebuiltShows(schema: Schema, s: State, held: set<Key>, t: State, k: Key)
    requires Stored(schema, s) && Stored(schema, t) && k in held
    requires Get(t.before, k) == Get(s.before, k) && Hist(schema, t, k) == Hist(schema, s, k)
    ensures ShowsOne(schema, s, held, k, Get(Rebuilding.Rebuild(schema, t, k).main, k))
  {
    RebuildProjects(schema, t, k);
  }

  /** The actions rebuild exactly these records, each once. */
  ghost predicate OnlyRebuilds(actions: seq<Action>, keys: set<Key>) {
    && |actions| == |keys|
    && (forall a :: a in actions ==> a.Rebuild? && a.key in keys)
    && forall i, j :: 0 <= i < j < |actions| ==> actions[i] != actions[j]
  }

  lemma OnlyRebuildsRefresh(actions: seq<Action>, n: nat, keys: set<Key>)
    requires n <= |actions| && OnlyRebuilds(actions[n..], keys)
    ensures RefreshFrom(actions, n)
  {
    forall i | n <= i < |actions| ensures actions[i].Rebuild? { assert actions[i] in actions[n..]; }
  }

  lemma OnlyRebuildsNext(start: seq<Action>, done: seq<Action>, actions: seq<Action>, keys: set<Key>, rest: set<Key>,
                         k: Key)
    requires k in rest && rest <= keys && start <= done && OnlyRebuilds(done[|start|..], keys - rest)
    requires actions == done + [Action.Rebuild(k)]
    ensures OnlyRebuilds(actions[|start|..], keys - (rest - {k}))
  {
    var before := done[|start|..];
    assert actions[|start|..] == before + [Action.Rebuild(k)];
    assert keys - (rest - {k}) == (keys - rest) + {k};
    assert forall i :: 0 <= i < |before| ==> before[i] in before;
  }

  /** What the records still to be rebuilt are rebuilt from is as it was. */
  ghost predicate Waiting(schema: Schema, s: State, t: State, rest: set<Key>)
    requires Stored(schema, s) && Stored(schema, t)
  {
    forall k :: k in rest ==> Get(t.before, k) == Get(s.before, k) && Hist(schema, t, k) == Hist(schema, s, k)
  }

  lemma WaitingRest(schema: Schema, s: State, t: State, rest: set<Key>, k: Key)
    requires Stored(schema, s) && Stored(schema, t) && Waiting(schema, s, t, rest)
    ensures Stored(schema, Rebuilding.Rebuild(schema, t, k))
    ensures Waiting(schema, s, Rebuilding.Rebuild(schema, t, k), rest - {k})
  {
    InstallStored(schema, t, k, RebuildPlan(Get(t.before, k), Layer(t, k), Hist(schema, t, k)));
    forall other | other in rest - {k}
      ensures Get(Rebuilding.Rebuild(schema, t, k).before, other) == Get(s.before, other)
      ensures Hist(schema, Rebuilding.Rebuild(schema, t, k), other) == Hist(schema, s, other)
    {
      RebuildLeaves(schema, t, k, other);
    }
  }

  lemma ReportsNext(schema: Schema, s: State, t: State, keys: set<Key>, rest: set<Key>, k: Key, reports: map<Key, nat>)
    requires Stored(schema, s) && Stored(schema, t) && Waiting(schema, s, t, rest)
    requires k in rest && rest <= keys && Reports(schema, s, keys - rest, reports)
    ensures var failed := Divergence(schema, t, k);
      Reports(schema, s, keys - (rest - {k}), if failed.Some? then reports[k := failed.value] else reports)
  {
    var failed := Divergence(schema, t, k);
    assert failed == Divergence(schema, s, k);
    var next := if failed.Some? then reports[k := failed.value] else reports;
    assert Get(reports, k) == None;
    forall other
      ensures Get(next, other) == if other in keys - (rest - {k}) then Divergence(schema, s, other) else None
    {
      assert other != k ==> Get(next, other) == Get(reports, other);
    }
  }

  function SettledIn(steps: seq<Step>): set<Step> {
    set x | x in steps && x.Settled?
  }

  function Folded(steps: seq<Step>): set<LocalWrite> {
    set x | x in steps && x.Settled? :: x.write
  }

  lemma FoldedAway(writes: set<LocalWrite>, steps: seq<Step>)
    requires AllSettled(steps)
    ensures writes - Folded(steps) == set w | w in writes && Settled(w) !in steps
  {
  }

  /** The tables and the base once some steps are folded. */
  predicate FoldedTo(writes0: set<LocalWrite>, layers0: map<Key, seq<Operation>>, k: Key, base0: Option<Row>,
                     steps: seq<Step>, writes: set<LocalWrite>, layers: map<Key, seq<Operation>>, base: Option<Row>) {
    && base == SettledView(base0, steps)
    && writes == writes0 - Folded(steps)
    && layers == if steps == [] then layers0 else layers0[k := RetainSteps(LayerIn(layers0, k), steps)]
  }

  lemma FoldedToNext(writes0: set<LocalWrite>, layers0: map<Key, seq<Operation>>, k: Key, base0: Option<Row>,
                     steps: seq<Step>, i: nat,
                     writes: set<LocalWrite>, layers: map<Key, seq<Operation>>, base: Option<Row>)
    requires i < |steps| && steps[i].Settled?
    requires FoldedTo(writes0, layers0, k, base0, steps[..i], writes, layers, base)
    ensures var w := steps[i].write;
      FoldedTo(writes0, layers0, k, base0, steps[..i + 1],
               writes - {w}, layers[k := Retain(LayerIn(layers, k), w.op)], ApplySettled(base, w.op))
  {
    assert steps[..i + 1] == steps[..i] + [steps[i]];
    assert steps[..i + 1][..i] == steps[..i];
    assert Folded(steps[..i + 1]) == Folded(steps[..i]) + {steps[i].write};
  }

  lemma AllSettledReplays(base: Option<Row>, steps: seq<Step>)
    ensures Prefix(steps) == |steps| ==> Replay(base, steps).Replayed?
  {
    if Prefix(steps) == |steps| {
      assert steps[..|steps|] == steps;
      SettledReplays(base, steps);
    }
  }

  lemma PrefixIs(steps: seq<Step>, n: nat)
    requires n <= |steps| && AllSettled(steps[..n]) && (n < |steps| ==> steps[n].Pending?)
    ensures Prefix(steps) == n
  {
    var m := Prefix(steps);
    forall i | 0 <= i < n ensures steps[i].Settled? { assert steps[..n][i] in steps[..n]; }
    forall i | 0 <= i < m ensures steps[i].Settled? { assert steps[..m][i] in steps[..m]; }
  }

  lemma RunExtends(schema: Schema, configs: seq<Config>, actions: seq<Action>, a: Action, d: Config)
    requires Run(schema, configs, actions) && Next(schema, configs[|actions|], a, d)
    ensures Run(schema, configs + [d], actions + [a])
  {
    var cs, xs := configs + [d], actions + [a];
    forall i | 0 <= i < |xs| ensures StepAt(schema, cs, xs, i) {
      if i < |actions| { assert StepAt(schema, configs, actions, i); }
    }
  }

  // ---------------------------------------------------------------- traces

  /** The operations one call's actions stored, in order. */
  ghost predicate Submits(actions: seq<Action>, ordinal: nat, ops: seq<CallOp>) {
    && |actions| == |ops|
    && forall i :: 0 <= i < |actions| ==>
      actions[i].Submit? && actions[i].ordinal == ordinal && (actions[i].kind, actions[i].op) == ops[i]
  }

  function Deletes(keys: seq<Key>, kind: OpKind): seq<CallOp> {
    seq(|keys|, i requires 0 <= i < |keys| => (kind, Operation(keys[i], Delete)))
  }

  lemma SubmitsNext(start: seq<Action>, done: seq<Action>, actions: seq<Action>, ordinal: nat, ops: seq<CallOp>,
                    position: nat, kind: OpKind, op: Operation)
    requires start <= done && Submits(done[|start|..], ordinal, ops)
    requires actions == done + [Action.Submit(ordinal, position, kind, op)]
    ensures Submits(actions[|start|..], ordinal, ops + [(kind, op)])
  {
    assert actions[|start|..] == done[|start|..] + [Action.Submit(ordinal, position, kind, op)];
  }

  lemma DeletesNext(keys: seq<Key>, i: nat, kind: OpKind)
    requires i < |keys|
    ensures Deletes(keys[..i + 1], kind) == Deletes(keys[..i], kind) + [(kind, Operation(keys[i], Delete))]
  {
  }

  /** What one operation of a call stores, from a state: the deletes its own delete cascades to there, then itself. */
  ghost predicate InOrder(schema: Schema, s: State, actions: seq<Action>, ordinal: nat, own: OpKind, cascade: OpKind,
                          op: Operation, children: seq<Key>) {
    CascadeOf(schema, s, op, children) && Submits(actions, ordinal, Deletes(children, cascade) + [(own, op)])
  }

  ghost function CascadeKind(kind: OpKind): OpKind {
    if kind == Companion then Companion else Effect
  }

  /** The run stores exactly `calls`, each after its cascade at that point: the `i`th between two cuts. */
  ghost predicate CallSteps(schema: Schema, configs: seq<Config>, actions: seq<Action>, cuts: seq<nat>, ordinal: nat,
                            calls: seq<CallOp>, blocks: seq<seq<Key>>) {
    && |cuts| == |calls| + 1 && |blocks| == |calls|
    && |configs| == |actions| + 1
    && cuts[|calls|] == |actions|
    && forall i :: 0 <= i < |calls| ==>
      CallStep(schema, configs, actions, cuts[i], cuts[i + 1], ordinal, calls[i], blocks[i])
  }

  ghost predicate CallStep(schema: Schema, configs: seq<Config>, actions: seq<Action>, from: nat, to: nat, ordinal: nat,
                           call: CallOp, children: seq<Key>) {
    && from <= to <= |actions| && from < |configs|
    && InOrder(schema, configs[from].s, actions[from..to], ordinal, call.0, CascadeKind(call.0), call.1, children)
  }

  /** The run stored the first calls and stands before one whose operation the visible row does not accept. */
  ghost predicate StopsAt(schema: Schema, configs: seq<Config>, actions: seq<Action>, cuts: seq<nat>, ordinal: nat,
                          calls: seq<CallOp>, blocks: seq<seq<Key>>) {
    var n := |cuts| - 1;
    && 0 <= n < |calls|
    && CallSteps(schema, configs, actions, cuts, ordinal, calls[..n], blocks)
    && !Accepts(Get(configs[|actions|].s.main, calls[n].1.key), calls[n].1)
  }

  /** Storing the call's operations in turn comes to one that conflicts. */
  ghost predicate Refused(schema: Schema, configs0: seq<Config>, actions0: seq<Action>, ordinal: nat,
                          calls: seq<CallOp>) {
    exists configs: seq<Config>, actions: seq<Action>, cuts: seq<nat>, blocks: seq<seq<Key>> ::
      && configs0 <= configs && actions0 + [Action.Allocate] <= actions && Run(schema, configs, actions)
      && StopsAt(schema, configs, actions, cuts, ordinal, calls, blocks) && cuts[0] == |actions0| + 1
  }

  lemma CallStepStays(schema: Schema, configs0: seq<Config>, actions0: seq<Action>, configs: seq<Config>,
                      actions: seq<Action>, from: nat, to: nat, ordinal: nat, call: CallOp, children: seq<Key>)
    requires CallStep(schema, configs0, actions0, from, to, ordinal, call, children)
    requires configs0 <= configs && actions0 <= actions
    ensures CallStep(schema, configs, actions, from, to, ordinal, call, children)
  {
    assert actions[from..to] == actions0[from..to];
  }

  lemma CallStepsAppend(schema: Schema, configs0: seq<Config>, actions0: seq<Action>, configs: seq<Config>,
                        actions: seq<Action>, cuts: seq<nat>, ordinal: nat, calls: seq<CallOp>, blocks: seq<seq<Key>>,
                        call: CallOp, children: seq<Key>)
    requires CallSteps(schema, configs0, actions0, cuts, ordinal, calls, blocks)
    requires |configs| == |actions| + 1 && configs0 <= configs && actions0 <= actions
    requires InOrder(schema, configs0[|actions0|].s, actions[|actions0|..], ordinal, call.0, CascadeKind(call.0),
                     call.1, children)
    ensures CallSteps(schema, configs, actions, cuts + [|actions|], ordinal, calls + [call], blocks + [children])
  {
    assert actions[|actions0|..|actions|] == actions[|actions0|..];
    forall i | 0 <= i < |calls|
      ensures CallStep(schema, configs, actions, cuts[i], cuts[i + 1], ordinal, calls[i], blocks[i])
    {
      CallStepStays(schema, configs0, actions0, configs, actions, cuts[i], cuts[i + 1], ordinal, calls[i], blocks[i]);
    }
  }

  // ------------------------------------------------------- what a run submits

  /** A step that starts, refuses and settles no call and submits no wire operation. */
  predicate Quiet(a: Action) {
    !a.Allocate? && !a.Reject? && !a.Settle? && (a.Submit? ==> a.kind != Wire)
  }

  predicate QuietFrom(actions: seq<Action>, n: nat) {
    n <= |actions| && forall i :: n <= i < |actions| ==> Quiet(actions[i])
  }

  predicate RefreshFrom(actions: seq<Action>, n: nat) {
    n <= |actions| && forall i :: n <= i < |actions| ==> actions[i].Rebuild? || actions[i].Extend?
  }

  lemma RefreshIsQuiet(actions: seq<Action>, n: nat)
    requires RefreshFrom(actions, n)
    ensures QuietFrom(actions, n)
  {
  }

  /** Quiet steps leave the calls that pend, the counter and what each call sends. */
  lemma QuietLeaves(schema: Schema, configs0: seq<Config>, actions0: seq<Action>, configs: seq<Config>,
                    actions: seq<Action>)
    requires Run(schema, configs0, actions0) && Run(schema, configs, actions)
    requires configs0 <= configs && actions0 <= actions && QuietFrom(actions, |actions0|)
    ensures var (s, t) := (configs0[|actions0|].s, configs[|actions|].s);
      t.live == s.live && t.nextOrdinal == s.nextOrdinal
    ensures forall id :: SubmittedWires(actions, id) == SubmittedWires(actions0, id)
  {
    var n, more := |actions0|, actions[|actions0|..];
    RunSuffix(schema, configs, actions, n);
    SteadyRun(schema, configs[n..], more);
    assert configs[n..][|more|] == configs[|actions|];
    forall id ensures SubmittedWires(actions, id) == SubmittedWires(actions0, id) {
      assert actions == actions0 + more;
      SubmittedConcat(actions0, more, id);
      WirelessSubmitsNone(more, id);
    }
  }

  /** The wire operations among some operations of a call, in order. */
  function WireOf(ops: seq<CallOp>): seq<Operation> {
    if ops == [] then []
    else
      var last := ops[|ops| - 1];
      WireOf(ops[..|ops| - 1]) + if last.0 == Wire then [last.1] else []
  }

  lemma {:induction false} DeletesWireless(keys: seq<Key>, kind: OpKind)
    requires kind != Wire
    ensures WireOf(Deletes(keys, kind)) == []
  {
    if keys != [] {
      var n := |keys| - 1;
      assert Deletes(keys, kind)[..n] == Deletes(keys[..n], kind);
      DeletesWireless(keys[..n], kind);
    }
  }

  lemma {:induction false} SubmitsWires(actions: seq<Action>, ordinal: nat, ops: seq<CallOp>, id: nat)
    requires Submits(actions, ordinal, ops)
    ensures SubmittedWires(actions, id) == if id == ordinal then WireOf(ops) else []
  {
    if actions != [] {
      var n := |actions| - 1;
      assert actions[n].op == ops[n].1 && actions[n].kind == ops[n].0;
      SubmitsWires(actions[..n], ordinal, ops[..n], id);
    }
  }

  lemma InOrderWires(schema: Schema, s: State, actions: seq<Action>, ordinal: nat, call: CallOp, children: seq<Key>,
                     id: nat)
    requires InOrder(schema, s, actions, ordinal, call.0, CascadeKind(call.0), call.1, children)
    ensures SubmittedWires(actions, id) == if id == ordinal && call.0 == Wire then [call.1] else []
  {
    var cascade := Deletes(children, CascadeKind(call.0));
    SubmitsWires(actions, ordinal, cascade + [call], id);
    DeletesWireless(children, CascadeKind(call.0));
    assert (cascade + [call])[..|cascade|] == cascade;
  }

  lemma CompanionWires(schema: Schema, s: State, actions0: seq<Action>, actions: seq<Action>, ordinal: nat,
                       op: Operation, children: seq<Key>)
    requires actions0 <= actions
    requires InOrder(schema, s, actions[|actions0|..], ordinal, Companion, Companion, op, children)
    ensures forall id :: SubmittedWires(actions, id) == SubmittedWires(actions0, id)
  {
    forall id ensures SubmittedWires(actions, id) == SubmittedWires(actions0, id) {
      InOrderWires(schema, s, actions[|actions0|..], ordinal, (Companion, op), children, id);
      assert actions == actions0 + actions[|actions0|..];
      SubmittedConcat(actions0, actions[|actions0|..], id);
    }
  }

  lemma CallStepWires(schema: Schema, configs: seq<Config>, actions: seq<Action>, start: nat, from: nat, to: nat,
                      ordinal: nat, call: CallOp, children: seq<Key>, id: nat)
    requires start <= from && CallStep(schema, configs, actions, from, to, ordinal, call, children)
    ensures SubmittedWires(actions[start..to], id) ==
      SubmittedWires(actions[start..from], id) + if id == ordinal && call.0 == Wire then [call.1] else []
  {
    InOrderWires(schema, configs[from].s, actions[from..to], ordinal, call, children, id);
    assert actions[start..to] == actions[start..from] + actions[from..to];
    SubmittedConcat(actions[start..from], actions[from..to], id);
  }

  lemma WireOfNext(ops: seq<CallOp>, n: nat)
    requires n < |ops|
    ensures WireOf(ops[..n + 1]) == WireOf(ops[..n]) + if ops[n].0 == Wire then [ops[n].1] else []
  {
    assert ops[..n + 1][..n] == ops[..n];
  }

  /** A call's run submits exactly its wire operations, for itself alone. */
  lemma {:induction false} CallStepsWires(schema: Schema, configs: seq<Config>, actions: seq<Action>, cuts: seq<nat>,
                                          ordinal: nat, calls: seq<CallOp>, blocks: seq<seq<Key>>, n: nat, id: nat)
    requires CallSteps(schema, configs, actions, cuts, ordinal, calls, blocks) && n <= |calls|
    ensures cuts[0] <= cuts[n] <= |actions|
    ensures SubmittedWires(actions[cuts[0]..cuts[n]], id) == if id == ordinal then WireOf(calls[..n]) else []
  {
    if n > 0 {
      var m := n - 1;
      CallStepsWires(schema, configs, actions, cuts, ordinal, calls, blocks, m, id);
      assert CallStep(schema, configs, actions, cuts[m], cuts[m + 1], ordinal, calls[m], blocks[m]);
      CallStepWires(schema, configs, actions, cuts[0], cuts[m], cuts[n], ordinal, calls[m], blocks[m], id);
      WireOfNext(calls, m);
    } else if |calls| > 0 {
      assert CallStep(schema, configs, actions, cuts[0], cuts[1], ordinal, calls[0], blocks[0]);
    }
  }

  /** Queuing a call adds exactly its wire operations to what the run submits. */
  lemma EnqueuedWires(schema: Schema, actions0: seq<Action>, configs: seq<Config>, actions: seq<Action>, cuts: seq<nat>,
                      ordinal: nat, calls: seq<CallOp>, blocks: seq<seq<Key>>, id: nat)
    requires CallSteps(schema, configs, actions, cuts, ordinal, calls, blocks) && cuts[0] == |actions0| + 1
    requires actions0 + [Action.Allocate] <= actions
    ensures SubmittedWires(actions, id) == SubmittedWires(actions0, id) + if id == ordinal then WireOf(calls) else []
  {
    var start := actions0 + [Action.Allocate];
    CallStepsWires(schema, configs, actions, cuts, ordinal, calls, blocks, |calls|, id);
    assert calls[..|calls|] == calls && actions[cuts[0]..|actions|] == actions[cuts[0]..];
    assert actions == start + actions[cuts[0]..];
    SubmittedConcat(start, actions[cuts[0]..], id);
    assert start[..|actions0|] == actions0;
  }

  ghost predicate SameButSubmits(s: State, t: State) {
    t == s.(main := t.main, before := t.before, ops := t.ops, nextSequence := t.nextSequence)
  }

  /** A direct write deletes what its delete cascades to, then applies its operation. */
  ghost predicate DirectTruth(schema: Schema, s: State, op: Operation, t: State, k: Key)
    requires Stored(schema, s) && Stored(schema, t)
  {
    Truth(schema, t, {}, k) ==
      if k == op.key then ApplySettled(Truth(schema, s, {}, k), op)
      else if op.change.Delete? && Below(schema, s, op.key, k) then None
      else Truth(schema, s, {}, k)
  }

  lemma DirectTruths(schema: Schema, s: State, deleted: State, op: Operation, children: seq<Key>, t: State)
    requires Stored(schema, s) && Stored(schema, deleted) && Stored(schema, t)
    requires CascadeOf(schema, s, op, children) && DeletedTruth(schema, s, deleted, children)
    requires op.key !in children
    requires forall k :: LocalSteps.Moves(schema, deleted, op, t, k)
    ensures forall k :: DirectTruth(schema, s, op, t, k)
  {
    forall k ensures DirectTruth(schema, s, op, t, k) { assert LocalSteps.Moves(schema, deleted, op, t, k); }
  }

  ghost predicate DeletedTruth(schema: Schema, s: State, t: State, keys: seq<Key>)
    requires Stored(schema, s) && Stored(schema, t)
  {
    forall k :: Truth(schema, t, {}, k) == if k in keys then None else Truth(schema, s, {}, k)
  }

  lemma DeletedNext(schema: Schema, s: State, t: State, u: State, keys: seq<Key>, i: nat)
    requires Stored(schema, s) && Stored(schema, t) && Stored(schema, u) && i < |keys|
    requires DeletedTruth(schema, s, t, keys[..i])
    requires forall k :: LocalSteps.Moves(schema, t, Operation(keys[i], Delete), u, k)
    ensures DeletedTruth(schema, s, u, keys[..i + 1])
  {
    assert keys[..i + 1] == keys[..i] + [keys[i]];
    forall k ensures Truth(schema, u, {}, k) == if k in keys[..i + 1] then None else Truth(schema, s, {}, k) {
      assert LocalSteps.Moves(schema, t, Operation(keys[i], Delete), u, k);
    }
  }

  ghost predicate DeletedBy(step: Step, ordinal: nat) {
    step.Pending? && step.queued.ordinal == ordinal && step.queued.op.change.Delete?
  }

  ghost predicate Recreates(step: Step, ordinal: nat) {
    match step
    case Pending(q) => q.ordinal == ordinal && q.op.change.Create?
    case Settled(w) => w.op.change.Create?
  }

  /** A create by the same call, or a settled one, stands after the call's last delete. */
  ghost predicate Recreated(steps: seq<Step>, ordinal: nat) {
    exists i :: 0 <= i < |steps| && DeletedBy(steps[i], ordinal)
      && (forall m :: i < m < |steps| ==> !DeletedBy(steps[m], ordinal))
      && exists j :: i < j < |steps| && Recreates(steps[j], ordinal)
  }

  /** A queued delete that cascades: the call's own or its companion's. */
  ghost predicate Cascades(q: QueuedOp) {
    q.kind != Effect && q.op.change.Delete?
  }

  ghost predicate RefreshedBefore(a: QueuedOp, b: QueuedOp) {
    || a.ordinal < b.ordinal
    || (a.ordinal == b.ordinal && a.kind == Wire && b.kind != Wire)
    || (a.ordinal == b.ordinal && (a.kind == Wire <==> b.kind == Wire) && a.position < b.position)
  }

  ghost predicate DeletesListed(ops: set<QueuedOp>, live: set<nat>, list: seq<QueuedOp>) {
    && (forall q :: q in list <==> q in ops && q.ordinal in live && Cascades(q))
    && forall i, j :: 0 <= i < j < |list| ==> RefreshedBefore(list[i], list[j])
  }

  /** The records a call's effects and companions already deleted. */
  ghost function Already(rows: set<QueuedOp>, ordinal: nat): set<Key> {
    set q | q in rows && q.ordinal == ordinal && q.kind != Wire && q.op.change.Delete? :: q.op.key
  }

  /** The delete's record is visible again, and was recreated since. */
  ghost predicate Spared(schema: Schema, s: State, queued: QueuedOp)
    requires Stored(schema, s)
  {
    queued.op.key in s.main && Recreated(Hist(schema, s, queued.op.key), queued.ordinal)
  }

  /** The call deletes every record below the one it deletes: looking at the delete again finds nothing. */
  ghost predicate AllDeleted(schema: Schema, s: State, queued: QueuedOp) {
    forall k :: Below(schema, s, queued.op.key, k) ==>
      exists q :: q in s.ops && q.ordinal == queued.ordinal && q.kind != Wire && q.op == Operation(k, Delete)
  }

  function KeySet(keys: seq<Key>): set<Key> {
    set k | k in keys
  }

  /** What extensions to some records leave: the rows of every other, and every operation; each of them is
      deleted by the call. */
  ghost predicate Extended(s: State, t: State, ordinal: nat, keys: set<Key>) {
    && s.ops <= t.ops
    && (forall k :: k !in keys ==> Get(t.main, k) == Get(s.main, k) && Get(t.before, k) == Get(s.before, k))
    && forall k :: k in keys ==>
      exists q :: q in t.ops && q.ordinal == ordinal && q.kind != Wire && q.op == Operation(k, Delete)
  }

  lemma {:induction false} ExtendedRun(schema: Schema, configs: seq<Config>, actions: seq<Action>, ordinal: nat,
                                       kind: OpKind, keys: seq<Key>)
    requires Run(schema, configs, actions) && ExtendedBy(actions, ordinal, kind, keys) && kind != Wire
    ensures Extended(configs[0].s, configs[|actions|].s, ordinal, KeySet(keys))
  {
    var n := |actions|;
    if n > 0 {
      var below := keys[..n - 1];
      LastStep(schema, configs, actions);
      ExtendedByFirst(actions, ordinal, kind, keys);
      ExtendedRun(schema, configs[..n], actions[..n - 1], ordinal, kind, below);
      ExtendedStep(schema, configs[0].s, configs[n - 1], actions[n - 1], configs[n], ordinal, KeySet(below));
      KeySetNext(keys);
    }
  }

  lemma ExtendedByFirst(actions: seq<Action>, ordinal: nat, kind: OpKind, keys: seq<Key>)
    requires ExtendedBy(actions, ordinal, kind, keys) && keys != []
    ensures var n := |keys| - 1;
      && ExtendedBy(actions[..n], ordinal, kind, keys[..n])
      && actions[n].Extend? && actions[n].ordinal == ordinal && actions[n].kind == kind && actions[n].child == keys[n]
  {
  }

  lemma KeySetNext(keys: seq<Key>)
    requires keys != []
    ensures KeySet(keys) == KeySet(keys[..|keys| - 1]) + {keys[|keys| - 1]}
  {
    assert keys == keys[..|keys| - 1] + [keys[|keys| - 1]];
  }

  lemma ExtendedStep(schema: Schema, s: State, c: Config, a: Action, d: Config, ordinal: nat, keys: set<Key>)
    requires Next(schema, c, a, d) && a.Extend? && a.ordinal == ordinal && a.kind != Wire
    requires Extended(s, c.s, ordinal, keys)
    ensures Extended(s, d.s, ordinal, keys + {a.child})
  {
    ExtendedNext(schema, s, c.s, a, d.s, ordinal, keys);
  }

  lemma ExtendedNext(schema: Schema, s: State, t: State, a: Action, u: State, ordinal: nat, keys: set<Key>)
    requires a.Extend? && a.ordinal == ordinal && a.kind != Wire
    requires CanQueue(schema, t, {}, ordinal, a.position, Operation(a.child, Delete))
    requires u == LocalSteps.Extend(schema, t, ordinal, a.position, a.kind, a.child)
    requires Extended(s, t, ordinal, keys)
    ensures Extended(s, u, ordinal, keys + {a.child})
  {
    var op := Operation(a.child, Delete);
    ExtendTablesAre(schema, t, ordinal, a.position, a.kind, a.child);
    assert NewOp(t, ordinal, a.position, a.kind, op) in u.ops;
    forall k | k !in keys + {a.child} ensures Get(u.main, k) == Get(s.main, k) && Get(u.before, k) == Get(s.before, k) {
      ExtendLeaves(schema, t, ordinal, a.position, a.kind, a.child, u, k);
    }
  }

  lemma {:induction false} MissingAre(keys: seq<Key>, already: set<Key>)
    ensures forall k :: k in Missing(keys, already) <==> k in keys && k !in already
  {
    if keys != [] {
      var n := |keys| - 1;
      assert keys == keys[..n] + [keys[n]];
      MissingAre(keys[..n], already);
    }
  }

  /** Rows of no other record changed, so nothing else came below. */
  lemma NothingNewBelow(schema: Schema, s: State, t: State, ordinal: nat, extended: set<Key>, parent: Key, k: Key)
    requires Extended(s, t, ordinal, extended) && forall c :: c in extended ==> Below(schema, s, parent, c)
    requires Below(schema, t, parent, k)
    ensures Below(schema, s, parent, k)
  {
    var all := t.main.Keys + t.before.Keys;
    var path :| Trail(schema, t.main, t.before, all, path) && path[0] == parent && path[|path| - 1] == k;
    TrailBelow(schema, s, t, ordinal, extended, parent, path);
  }

  lemma {:induction false} TrailBelow(schema: Schema, s: State, t: State, ordinal: nat, extended: set<Key>, parent: Key,
                                      path: seq<Key>)
    requires Extended(s, t, ordinal, extended) && forall c :: c in extended ==> Below(schema, s, parent, c)
    requires Trail(schema, t.main, t.before, t.main.Keys + t.before.Keys, path) && path[0] == parent
    ensures var k := path[|path| - 1]; k == parent || Below(schema, s, parent, k)
  {
    if |path| > 1 {
      var n := |path| - 1;
      TrailBelow(schema, s, t, ordinal, extended, parent, path[..n]);
      if path[n] !in extended && path[n] != parent {
        assert Get(t.main, path[n]) == Get(s.main, path[n]) && Get(t.before, path[n]) == Get(s.before, path[n]);
        BelowStep(schema, s, parent, path[n - 1], path[n]);
      }
    }
  }

  lemma BelowStep(schema: Schema, s: State, parent: Key, at: Key, k: Key)
    requires at == parent || Below(schema, s, parent, at)
    requires k != parent && (PointsAt(schema, s.main, k, at) || PointsAt(schema, s.before, k, at))
    ensures Below(schema, s, parent, k)
  {
    GoesStep(schema, s.main, s.before, s.main.Keys + s.before.Keys, parent, at, k);
  }

  lemma RefreshedOnce(schema: Schema, s: State, queued: QueuedOp, children: seq<Key>, already: set<Key>,
                      configs0: seq<Config>, actions0: seq<Action>, configs: seq<Config>, actions: seq<Action>)
    requires CascadeOf(schema, s, queued.op, children) && queued.op.change.Delete?
    requires already <= Already(s.ops, queued.ordinal)
    requires Run(schema, configs, actions) && configs0 <= configs && actions0 <= actions
    requires |configs0| == |actions0| + 1 && configs0[|actions0|].s == s
    requires ExtendedBy(actions[|actions0|..], queued.ordinal, CascadeKind(queued.kind), Missing(children, already))
    ensures AllDeleted(schema, configs[|actions|].s, queued)
  {
    var n := |actions0|;
    RunSuffix(schema, configs, actions, n);
    var missing := Missing(children, already);
    ExtendedRun(schema, configs[n..], actions[n..], queued.ordinal, CascadeKind(queued.kind), missing);
    DeletedBelow(schema, s, configs[|actions|].s, queued, children, already);
  }

  lemma DeletedBelow(schema: Schema, s: State, t: State, queued: QueuedOp, children: seq<Key>, already: set<Key>)
    requires CascadeOf(schema, s, queued.op, children) && queued.op.change.Delete?
    requires already <= Already(s.ops, queued.ordinal)
    requires Extended(s, t, queued.ordinal, KeySet(Missing(children, already)))
    ensures AllDeleted(schema, t, queued)
  {
    var missing := KeySet(Missing(children, already));
    MissingAre(children, already);
    forall k | Below(schema, t, queued.op.key, k)
      ensures exists q :: q in t.ops && q.ordinal == queued.ordinal && q.kind != Wire && q.op == Operation(k, Delete)
    {
      NothingNewBelow(schema, s, t, queued.ordinal, missing, queued.op.key, k);
      if k in already {
        var q :| q in s.ops && q.ordinal == queued.ordinal && q.kind != Wire && q.op.change.Delete? && q.op.key == k;
        assert q.op == Operation(k, Delete);
      } else {
        assert k in missing;
      }
    }
  }

  /** What looking at one queued delete stores, from the state it is looked at in. */
  ghost predicate RefreshStep(schema: Schema, configs: seq<Config>, actions: seq<Action>, from: nat, to: nat,
                              queued: QueuedOp, already: set<Key>) {
    && from <= to <= |actions| && from < |configs| && Stored(schema, configs[from].s)
    && var s, parent := configs[from].s, queued.op.key;
    if parent in s.main && Recreated(Hist(schema, s, parent), queued.ordinal) then from == to
    else
      exists children: seq<Key> :: CascadeOf(schema, s, queued.op, children)
        && ExtendedBy(actions[from..to], queued.ordinal, CascadeKind(queued.kind), Missing(children, already))
  }

  ghost predicate RefreshSteps(schema: Schema, rows: set<QueuedOp>, configs: seq<Config>, actions: seq<Action>,
                               cuts: seq<nat>, list: seq<QueuedOp>) {
    && |cuts| == |list| + 1
    && |configs| == |actions| + 1
    && cuts[|list|] == |actions|
    && forall i :: 0 <= i < |list| ==>
      RefreshStep(schema, configs, actions, cuts[i], cuts[i + 1], list[i], Already(rows, list[i].ordinal))
  }

  lemma RefreshStepStays(schema: Schema, configs0: seq<Config>, actions0: seq<Action>, configs: seq<Config>,
                         actions: seq<Action>, from: nat, to: nat, queued: QueuedOp, already: set<Key>)
    requires RefreshStep(schema, configs0, actions0, from, to, queued, already)
    requires configs0 <= configs && actions0 <= actions
    ensures RefreshStep(schema, configs, actions, from, to, queued, already)
  {
    assert actions[from..to] == actions0[from..to];
  }

  lemma RefreshStepsAppend(schema: Schema, rows: set<QueuedOp>, configs0: seq<Config>, actions0: seq<Action>,
                           configs: seq<Config>, actions: seq<Action>, cuts: seq<nat>, list: seq<QueuedOp>, n: nat)
    requires n < |list| && RefreshSteps(schema, rows, configs0, actions0, cuts, list[..n])
    requires |configs| == |actions| + 1 && configs0 <= configs && actions0 <= actions
    requires RefreshStep(schema, configs, actions, |actions0|, |actions|, list[n], Already(rows, list[n].ordinal))
    ensures RefreshSteps(schema, rows, configs, actions, cuts + [|actions|], list[..n + 1])
  {
    var l, cs := list[..n + 1], cuts + [|actions|];
    forall i | 0 <= i < n
      ensures RefreshStep(schema, configs, actions, cs[i], cs[i + 1], l[i], Already(rows, l[i].ordinal))
    {
      assert l[i] == list[..n][i];
      RefreshStepStays(schema, configs0, actions0, configs, actions, cuts[i], cuts[i + 1], list[..n][i],
                       Already(rows, list[i].ordinal));
    }
  }

  /** The listed records not already deleted, in order. */
  function Missing(keys: seq<Key>, already: set<Key>): seq<Key> {
    if keys == [] then []
    else
      var last := keys[|keys| - 1];
      Missing(keys[..|keys| - 1], already) + if last in already then [] else [last]
  }

  /** The actions delete, for the call, exactly the listed records, in order. */
  ghost predicate ExtendedBy(actions: seq<Action>, ordinal: nat, kind: OpKind, keys: seq<Key>) {
    && |actions| == |keys|
    && forall i :: 0 <= i < |keys| ==>
      actions[i].Extend? && actions[i].ordinal == ordinal && actions[i].kind == kind && actions[i].child == keys[i]
  }

  lemma ExtendedRefresh(actions: seq<Action>, n: nat, ordinal: nat, kind: OpKind, keys: seq<Key>)
    requires n <= |actions| && ExtendedBy(actions[n..], ordinal, kind, keys)
    ensures RefreshFrom(actions, n)
  {
    forall i | n <= i < |actions| ensures actions[i].Extend? { assert actions[n..][i - n].Extend?; }
  }

  lemma MissingNext(keys: seq<Key>, i: nat, already: set<Key>)
    requires i < |keys|
    ensures Missing(keys[..i + 1], already) ==
      if keys[i] in already then Missing(keys[..i], already) else Missing(keys[..i], already) + [keys[i]]
  {
    assert keys[..i + 1][..i] == keys[..i];
  }

  lemma ExtendedByNext(start: seq<Action>, done: seq<Action>, actions: seq<Action>, ordinal: nat, position: nat,
                       kind: OpKind, keys: seq<Key>, child: Key)
    requires start <= done && ExtendedBy(done[|start|..], ordinal, kind, keys)
    requires actions == done + [Action.Extend(ordinal, position, kind, child)]
    ensures ExtendedBy(actions[|start|..], ordinal, kind, keys + [child])
  {
    assert actions[|start|..] == done[|start|..] + [Action.Extend(ordinal, position, kind, child)];
  }

  predicate WireOn(q: QueuedOp, id: nat, k: Key) {
    q.ordinal == id && q.kind == Wire && q.op.key == k
  }

  function Stages(keys: seq<Key>, incoming: Option<Row>, cursor: Option<nat>): seq<Action> {
    seq(|keys|, i requires 0 <= i < |keys| => Action.Stage(keys[i], incoming, cursor))
  }

  lemma StagesNext(keys: seq<Key>, i: nat, incoming: Option<Row>, cursor: Option<nat>)
    requires i < |keys|
    ensures Stages(keys[..i + 1], incoming, cursor) ==
      Stages(keys[..i], incoming, cursor) + [Action.Stage(keys[i], incoming, cursor)]
  {
  }

  /** A change that is to be installed: newer authority, or the same position again. */
  datatype Admitted = Admitted(key: Key, incoming: Option<Row>, cursor: nat, newer: bool)
  {
    function Position(): Option<nat> {
      if newer then Some(cursor) else None
    }
  }

  function StageActions(c: Admitted, children: seq<Key>): seq<Action> {
    Stages([c.key], c.incoming, if c.newer then Some(c.cursor) else None)
    + Stages(children, None, if c.newer then Some(0) else None)
  }

  /** A change is staged under its own position when it is newer and at the same position again otherwise;
      what goes with it is removed, and raises no position. */
  lemma StageActionsAre(c: Admitted, children: seq<Key>, i: nat)
    requires i < |children|
    ensures |StageActions(c, children)| == 1 + |children|
    ensures StageActions(c, children)[0] == Action.Stage(c.key, c.incoming, if c.newer then Some(c.cursor) else None)
    ensures StageActions(c, children)[i + 1] == Action.Stage(children[i], None, if c.newer then Some(0) else None)
  {
  }

  /** The changed rows that are not there once the first `n` changes are installed: the others', and
      those of records with pending work, which the rebuild shows again. */
  function Cleared(s: State, changes: seq<Admitted>, n: nat): set<Key>
    requires n <= |changes|
  {
    (set c | c in changes :: c.key) - set c | c in changes[..n] && !Dirty(s, c.key) :: c.key
  }

  lemma ClearedExactly(s: State, changes: seq<Admitted>, n: nat, k: Key)
    requires n <= |changes|
    ensures k in Cleared(s, changes, n) <==>
      && (exists i :: 0 <= i < |changes| && changes[i].key == k)
      && (Dirty(s, k) || forall i :: 0 <= i < n ==> changes[i].key != k)
  {
    if i :| 0 <= i < |changes| && changes[i].key == k { assert changes[i] in changes; }
    if i :| 0 <= i < n && changes[i].key == k { assert changes[..n][i] in changes[..n]; }
  }

  lemma ClearedNext(s: State, changes: seq<Admitted>, n: nat)
    requires n < |changes|
    ensures Cleared(s, changes, n + 1) ==
      if Dirty(s, changes[n].key) then Cleared(s, changes, n) else Cleared(s, changes, n) - {changes[n].key}
  {
    assert changes[..n + 1] == changes[..n] + [changes[n]];
  }

  /** The records a staged removal takes along: reachable from it, in the rows that are not cleared,
      through records no later authority covers. */
  ghost predicate Uncovered(schema: Schema, s: State, c: Admitted, cleared: set<Key>, children: seq<Key>) {
    && Distinct(children)
    && var shown := s.main - cleared;
    var admit := set k | k in shown.Keys + s.before.Keys && Evidence(s, k) <= c.cursor;
    forall k :: k in children <==> c.incoming.None? && GoesWith(schema, shown, s.before, admit, c.key, k)
  }

  /** One change between two cuts: its record, then what its removal takes along. */
  ghost predicate StageStep(schema: Schema, configs: seq<Config>, actions: seq<Action>, from: nat, to: nat, c: Admitted,
                            cleared: set<Key>, children: seq<Key>) {
    && from < to <= |actions| && to < |configs|
    && actions[from..to] == StageActions(c, children)
    && Uncovered(schema, configs[from + 1].s, c, cleared, children)
  }

  /** The run staged the first `n` changes, the `i`th between two cuts. */
  ghost predicate StageSteps(schema: Schema, configs: seq<Config>, actions: seq<Action>, cuts: seq<nat>,
                             changes: seq<Admitted>, n: nat, blocks: seq<seq<Key>>) {
    && n <= |changes| && |cuts| == n + 1 && |blocks| == n
    && |configs| == |actions| + 1
    && cuts[n] == |actions|
    && forall i :: 0 <= i < n ==>
      && cuts[i] < |configs|
      && StageStep(schema, configs, actions, cuts[i], cuts[i + 1], changes[i],
                   Cleared(configs[cuts[i]].s, changes, i + 1), blocks[i])
  }

  lemma StageStepMade(schema: Schema, actions0: seq<Action>, staged: seq<Config>, own: seq<Action>,
                      configs: seq<Config>, actions: seq<Action>, c: Admitted, cleared: set<Key>, children: seq<Key>)
    requires |staged| == |own| + 1 && staged <= configs && |configs| == |actions| + 1
    requires own == actions0 + Stages([c.key], c.incoming, c.Position())
    requires actions == own + Stages(children, None, if c.newer then Some(0) else None)
    requires Uncovered(schema, staged[|own|].s, c, cleared, children)
    ensures actions == actions0 + StageActions(c, children)
    ensures StageStep(schema, configs, actions, |actions0|, |actions|, c, cleared, children)
    ensures QuietFrom(actions, |actions0|)
  {
    assert actions == actions0 + StageActions(c, children);
    assert actions[|actions0|..|actions|] == StageActions(c, children);
    assert staged[|actions0| + 1] == configs[|actions0| + 1];
    forall i | |actions0| <= i < |actions| ensures Quiet(actions[i]) {
      assert actions[i] == StageActions(c, children)[i - |actions0|];
    }
  }

  lemma StageStepStays(schema: Schema, configs0: seq<Config>, actions0: seq<Action>, configs: seq<Config>,
                       actions: seq<Action>, from: nat, to: nat, c: Admitted, cleared: set<Key>, children: seq<Key>)
    requires StageStep(schema, configs0, actions0, from, to, c, cleared, children)
    requires configs0 <= configs && actions0 <= actions
    ensures StageStep(schema, configs, actions, from, to, c, cleared, children)
  {
    assert actions[from..to] == actions0[from..to];
  }

  lemma StageStepsAppend(schema: Schema, configs0: seq<Config>, actions0: seq<Action>, configs: seq<Config>,
                         actions: seq<Action>, cuts: seq<nat>, changes: seq<Admitted>, n: nat, blocks: seq<seq<Key>>,
                         children: seq<Key>)
    requires n < |changes| && StageSteps(schema, configs0, actions0, cuts, changes, n, blocks)
    requires |configs| == |actions| + 1 && configs0 <= configs && actions0 <= actions
    requires StageStep(schema, configs, actions, |actions0|, |actions|, changes[n],
                       Cleared(configs0[|actions0|].s, changes, n + 1), children)
    ensures StageSteps(schema, configs, actions, cuts + [|actions|], changes, n + 1, blocks + [children])
  {
    var cs := cuts + [|actions|];
    forall i | 0 <= i < n
      ensures cs[i] < |configs|
      ensures StageStep(schema, configs, actions, cs[i], cs[i + 1], changes[i],
                        Cleared(configs[cs[i]].s, changes, i + 1), blocks[i])
    {
      var cleared := Cleared(configs0[cuts[i]].s, changes, i + 1);
      StageStepStays(schema, configs0, actions0, configs, actions, cuts[i], cuts[i + 1], changes[i], cleared,
                     blocks[i]);
    }
  }

  /** The record goes with `parent`, on the rows there are. */
  ghost predicate Below(schema: Schema, s: State, parent: Key, k: Key) {
    GoesWith(schema, s.main, s.before, s.main.Keys + s.before.Keys, parent, k)
  }

  lemma BelowStored(schema: Schema, s: State, parent: Key, k: Key)
    requires Below(schema, s, parent, k)
    ensures k in s.main || k in s.before
  {
    var all := s.main.Keys + s.before.Keys;
    var path :| Trail(schema, s.main, s.before, all, path) && path[0] == parent && path[|path| - 1] == k;
    assert path[|path| - 1] in all;
  }

  /** The records a write cascades to: for a delete, every other record reachable from it. */
  ghost predicate CascadeOf(schema: Schema, s: State, op: Operation, children: seq<Key>) {
    && Distinct(children)
    && forall k :: k in children <==> (op.change.Delete? && Below(schema, s, op.key, k))
  }
}
