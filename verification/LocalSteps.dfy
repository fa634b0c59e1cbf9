/** Direct writes, refusals, cascade extension and staged authority. */
module LocalSteps {
  import opened Rows
  import opened History
  import opened Replica
  import opened Rebuilding

  // ------------------------------------------------------------ direct writes

  function NewWrite(s: State, op: Operation): LocalWrite
    requires 1 <= s.nextOrdinal
  {
    LocalWrite(s.nextSequence, s.nextOrdinal - 1, 0, Independent, op)
  }

  /** On a dirty record the write is journaled after everything already written. */
  function WriteDirty(s: State, op: Operation, row: Option<Row>): State
    requires 1 <= s.nextOrdinal
  {
    s.(main := Put(s.main, op.key, row), writes := s.writes + {NewWrite(s, op)}, nextSequence := s.nextSequence + 1)
  }

  /** On a clean record it is retained in the local layer. */
  function WriteClean(s: State, op: Operation, row: Option<Row>): State {
    s.(main := Put(s.main, op.key, row), layer := s.layer[op.key := Retain(Layer(s, op.key), op)],
       nextSequence := s.nextSequence + 1)
  }

  /** A write that is never sent. */
  function Direct(s: State, op: Operation): Option<State>
    requires 1 <= s.nextOrdinal
  {
    match ApplyToRow(Get(s.main, op.key), op)
    case Conflict => None
    case Ok(row) => Some(if Dirty(s, op.key) then WriteDirty(s, op, row) else WriteClean(s, op, row))
  }

  /** The truth after a direct write: its own record's moves by exactly the operation. */
  ghost predicate Moves(schema: Schema, s: State, op: Operation, t: State, k: Key)
    requires Stored(schema, s) && Stored(schema, t)
  {
    Truth(schema, t, {}, k) ==
      if k == op.key then ApplySettled(Truth(schema, s, {}, k), op) else Truth(schema, s, {}, k)
  }

  lemma WriteDirtyStored(schema: Schema, s: State, op: Operation, row: Option<Row>)
    requires Stored(schema, s) && Normalized(schema, op)
    ensures Stored(schema, WriteDirty(s, op, row))
  {
    var t := WriteDirty(s, op, row);
    forall q | q in s.ops ensures StoredOp(schema, t, q) && q.sequence < s.nextSequence {
      assert StoredOp(schema, s, q);
    }
    forall w | w in s.writes ensures StoredWrite(schema, t, w) && w.sequence < s.nextSequence {
      assert StoredWrite(schema, s, w);
    }
    assert StoredWrite(schema, t, NewWrite(s, op));
    assert Sequenced(t.ops, t.writes);
  }

  lemma WriteIsLast(schema: Schema, s: State, op: Operation, y: Step)
    requires Stored(schema, s) && y in Entries(s, op.key)
    ensures Less(y.Order(), Settled(NewWrite(s, op)).Order())
  {
    if y.Pending? { assert StoredOp(schema, s, y.queued); } else { assert StoredWrite(schema, s, y.write); }
  }

  lemma WriteDirtyHistory(schema: Schema, s: State, op: Operation, row: Option<Row>, t: State)
    requires Stored(schema, s) && t == WriteDirty(s, op, row) && Stored(schema, t)
    ensures Hist(schema, t, op.key) == Hist(schema, s, op.key) + [Settled(NewWrite(s, op))]
  {
    var k, x := op.key, Settled(NewWrite(s, op));
    assert SettledOf(t.writes, k) == SettledOf(s.writes, k) + {x};
    assert Entries(t, k) == Entries(s, k) + {x};
    forall y | y in Entries(s, k) ensures Less(y.Order(), x.Order()) { WriteIsLast(schema, s, op, y); }
    HistAppend(schema, s, t, k, x);
  }

  lemma WriteDirtyKeeps(schema: Schema, s: State, op: Operation, row: Option<Row>, t: State, k: Key)
    requires Stored(schema, s) && Sound(schema, s, {}, k) && Dirty(s, op.key)
    requires ApplyToRow(Get(s.main, op.key), op) == Ok(row)
    requires t == WriteDirty(s, op, row) && Stored(schema, t)
    ensures Sound(schema, t, {}, k) && Moves(schema, s, op, t, k)
  {
    if k != op.key {
      assert SettledOf(t.writes, k) == SettledOf(s.writes, k);
      Untouched(schema, s, {}, t, {}, k);
    } else {
      WriteDirtyOwn(schema, s, op, row, t);
    }
  }

  lemma WriteDirtyOwn(schema: Schema, s: State, op: Operation, row: Option<Row>, t: State)
    requires Stored(schema, s) && Sound(schema, s, {}, op.key) && Dirty(s, op.key)
    requires ApplyToRow(Get(s.main, op.key), op) == Ok(row)
    requires t == WriteDirty(s, op, row) && Stored(schema, t)
    ensures Sound(schema, t, {}, op.key) && Moves(schema, s, op, t, op.key)
  {
    WriteDirtyHistory(schema, s, op, row, t);
    AppendedReplay(Base(s, {}, op.key), Hist(schema, s, op.key), Settled(NewWrite(s, op)));
  }

  lemma WriteCleanKeeps(schema: Schema, s: State, op: Operation, row: Option<Row>, t: State, k: Key)
    requires Inv(schema, s, {}) && Normalized(schema, op) && !Dirty(s, op.key)
    requires ApplyToRow(Get(s.main, op.key), op) == Ok(row)
    requires t == WriteClean(s, op, row) && Stored(schema, t)
    ensures Sound(schema, t, {}, k) && Moves(schema, s, op, t, k)
  {
    assert Sound(schema, s, {}, k);
    if k != op.key {
      Untouched(schema, s, {}, t, {}, k);
    } else {
      CleanUnheld(schema, s, {}, k);
      CleanHistory(schema, t, k);
      RetainNormal(Layer(s, k), op);
      RetainStep(Get(s.authority, k), Layer(s, k), op);
      RetainKeepsLayerOf(schema, Layer(s, k), op);
    }
  }

  /** A direct write moves the truth of its own record by exactly its operation, and no other's. */
  lemma DirectKeepsInv(schema: Schema, s: State, op: Operation, t: State)
    requires Inv(schema, s, {}) && Normalized(schema, op) && Direct(s, op) == Some(t)
    ensures Inv(schema, t, {})
    ensures forall k :: Moves(schema, s, op, t, k)
  {
    var row := ApplyToRow(Get(s.main, op.key), op).row;
    if Dirty(s, op.key) {
      WriteDirtyStored(schema, s, op, row);
      forall k ensures Sound(schema, t, {}, k) && Moves(schema, s, op, t, k) {
        assert Sound(schema, s, {}, k);
        WriteDirtyKeeps(schema, s, op, row, t, k);
      }
    } else {
      StoredShrinks(schema, s, t);
      forall k ensures Sound(schema, t, {}, k) && Moves(schema, s, op, t, k) {
        WriteCleanKeeps(schema, s, op, row, t, k);
      }
    }
  }

  // ------------------------------------------------------------------ refusal

  /** The records the live calls among `ids` touch. */
  function Touched(s: State, ids: set<nat>): set<Key> {
    TouchedIn(s.ops, s.live, ids)
  }

  function TouchedIn(ops: set<QueuedOp>, live: set<nat>, ids: set<nat>): set<Key> {
    set q | q in ops && q.ordinal in ids && q.ordinal in live :: q.op.key
  }

  /** Refused calls stop being live; their rows wait to be rebuilt. */
  function Reject(s: State, ids: set<nat>): State {
    s.(live := s.live - ids)
  }

  lemma RejectKeeps(schema: Schema, s: State, held: set<Key>, ids: set<nat>, t: State, k: Key)
    requires Inv(schema, s, held) && t == Reject(s, ids) && Stored(schema, t)
    ensures Sound(schema, t, held + Touched(s, ids), k)
    ensures Truth(schema, t, held + Touched(s, ids), k) == Truth(schema, s, held, k)
  {
    assert Sound(schema, s, held, k);
    if k in Touched(s, ids) {
      var q :| q in s.ops && q.ordinal in ids && q.ordinal in s.live && q.op.key == k;
      assert Dirty(s, k);
      var h := Hist(schema, s, k);
      KeptLists(h, Entries(s, k), Entries(t, k));
      assert Entries(s, k) * Entries(t, k) == Entries(t, k);
      HistIs(schema, t, k, Kept(h, Entries(t, k)));
      forall x | x in h && x.Settled? ensures x in Entries(t, k) { assert x in Entries(s, k); }
      KeptSettledView(Base(s, held, k), h, Entries(t, k));
    } else {
      assert PendingOf(t.ops, t.live, k) == PendingOf(s.ops, s.live, k);
      SameDirty(s, t, k);
      Untouched(schema, s, held, t, held + Touched(s, ids), k);
    }
  }

  lemma SameDirty(s: State, t: State, k: Key)
    requires PendingOf(t.ops, t.live, k) == PendingOf(s.ops, s.live, k)
    ensures Dirty(t, k) == Dirty(s, k)
  {
    forall a: State | a == s || a == t ensures Dirty(a, k) <==> PendingOf(a.ops, a.live, k) != {} {
      if Dirty(a, k) {
        var q :| q in a.ops && q.ordinal in a.live && q.op.key == k;
        assert Pending(q) in PendingOf(a.ops, a.live, k);
      }
      if PendingOf(a.ops, a.live, k) != {} {
        var x :| x in PendingOf(a.ops, a.live, k);
      }
    }
  }

  lemma RejectKeepsInv(schema: Schema, s: State, held: set<Key>, ids: set<nat>)
    requires Inv(schema, s, held)
    ensures Inv(schema, Reject(s, ids), held + Touched(s, ids))
    ensures forall k :: Truth(schema, Reject(s, ids), held + Touched(s, ids), k) == Truth(schema, s, held, k)
  {
    var t := Reject(s, ids);
    StoredShrinks(schema, s, t);
    forall k
      ensures Sound(schema, t, held + Touched(s, ids), k)
      ensures Truth(schema, t, held + Touched(s, ids), k) == Truth(schema, s, held, k)
    {
      RejectKeeps(schema, s, held, ids, t, k);
    }
  }

  // -------------------------------------------------------- cascade extension

  /** A queued delete is extended to a record that appeared under its parent: the record's base is
      held, the delete joins the call wherever the call stands, and the record is rebuilt. */
  ghost function Extend(schema: Schema, s: State, ordinal: nat, position: nat, kind: OpKind, child: Key): State
    requires CanQueue(schema, s, {}, ordinal, position, Operation(child, Delete))
  {
    QueueStored(schema, s, {}, ordinal, position, kind, Operation(child, Delete));
    Rebuild(schema, Queue(s, ordinal, position, kind, Operation(child, Delete)), child)
  }

  /** The operation is stored but not applied yet, so its record is to be rebuilt. */
  lemma QueueKeepsInv(schema: Schema, s: State, ordinal: nat, position: nat, kind: OpKind, op: Operation)
    requires CanQueue(schema, s, {}, ordinal, position, op)
    ensures Inv(schema, Queue(s, ordinal, position, kind, op), {op.key})
    ensures forall k :: Truth(schema, Queue(s, ordinal, position, kind, op), {op.key}, k) == Truth(schema, s, {}, k)
  {
    var t := Queue(s, ordinal, position, kind, op);
    QueueStored(schema, s, {}, ordinal, position, kind, op);
    forall k
      ensures Sound(schema, t, {op.key}, k)
      ensures Truth(schema, t, {op.key}, k) == Truth(schema, s, {}, k)
    {
      QueueKeeps(schema, s, ordinal, position, kind, op, t, k);
    }
  }

  lemma QueueKeeps(schema: Schema, s: State, ordinal: nat, position: nat, kind: OpKind, op: Operation, t: State, k: Key)
    requires CanQueue(schema, s, {}, ordinal, position, op)
    requires t == Queue(s, ordinal, position, kind, op) && Stored(schema, t)
    ensures Sound(schema, t, {op.key}, k)
    ensures Truth(schema, t, {op.key}, k) == Truth(schema, s, {}, k)
  {
    QueueEffect(schema, s, {}, ordinal, position, kind, op, k);
    assert Sound(schema, s, {}, k);
    if k == op.key {
      QueueKeepsTruth(schema, s, {}, ordinal, position, kind, op, k);
    } else {
      Untouched(schema, s, {}, t, {op.key}, k);
    }
  }

  lemma ExtendKeepsInv(schema: Schema, s: State, ordinal: nat, position: nat, kind: OpKind, child: Key)
    requires CanQueue(schema, s, {}, ordinal, position, Operation(child, Delete))
    ensures Inv(schema, Extend(schema, s, ordinal, position, kind, child), {})
    ensures var t := Extend(schema, s, ordinal, position, kind, child);
      forall k :: Truth(schema, t, {}, k) == Truth(schema, s, {}, k)
  {
    var op := Operation(child, Delete);
    QueueKeepsInv(schema, s, ordinal, position, kind, op);
    RebuildKeepsInv(schema, Queue(s, ordinal, position, kind, op), {child}, child);
    assert {child} - {child} == {};
  }

  // --------------------------------------------------------- staged authority

  function WithoutWrites(writes: set<LocalWrite>, k: Key): set<LocalWrite> {
    set w | w in writes && w.op.key != k
  }

  /** The new base: held aside under pending work, visible otherwise. */
  function Place(s: State, k: Key, base: Option<Row>): State {
    if Dirty(s, k) then s.(before := Put(s.before, k, base)) else s.(main := Put(s.main, k, base))
  }

  /** Authority newer than anything staged replaces the base, and with it every settled local write
      and the local layer. */
  function StageNewer(s: State, k: Key, incoming: Option<Row>, position: nat): State {
    Place(s, k, incoming).(
      layer := s.layer - {k},
      authority := Put(s.authority, k, incoming),
      writes := if Dirty(s, k) then WithoutWrites(s.writes, k) else s.writes,
      evidence := s.evidence[k := if position > Evidence(s, k) then position else Evidence(s, k)])
  }

  /** The same position under another materialization: the local layer survives on the new row. */
  function StageAgain(s: State, k: Key, incoming: Option<Row>): State {
    Place(s, k, Adapt(incoming, Layer(s, k))).(authority := Put(s.authority, k, incoming))
  }

  function Stage(s: State, k: Key, incoming: Option<Row>, position: Option<nat>): State {
    if position.Some? then StageNewer(s, k, incoming, position.value) else StageAgain(s, k, incoming)
  }

  /** Only what still has pending work waits for a rebuild. */
  function StageHeld(s: State, held: set<Key>, k: Key): set<Key> {
    if Dirty(s, k) then held + {k} else held
  }

  lemma StageTables(s: State, k: Key, incoming: Option<Row>, position: Option<nat>)
    ensures var t := Stage(s, k, incoming, position);
      && t.ops == s.ops && t.live == s.live && t.nextOrdinal == s.nextOrdinal && t.nextSequence == s.nextSequence
      && (t.writes == s.writes || t.writes == WithoutWrites(s.writes, k))
  {
    var base := if position.Some? then incoming else Adapt(incoming, Layer(s, k));
    PlaceTables(s, k, base);
  }

  lemma PlaceTables(s: State, k: Key, base: Option<Row>)
    ensures Place(s, k, base) == s.(main := Place(s, k, base).main, before := Place(s, k, base).before)
  {
  }

  lemma StageEvidence(s: State, k: Key, incoming: Option<Row>, position: Option<nat>, other: Key)
    ensures Evidence(Stage(s, k, incoming, position), other) >= Evidence(s, other)
  {
  }

  lemma WithoutWritesOther(writes: set<LocalWrite>, k: Key)
    ensures SettledOf(WithoutWrites(writes, k), k) == {}
    ensures forall other :: other != k ==> SettledOf(WithoutWrites(writes, k), other) == SettledOf(writes, other)
  {
  }

  lemma StageShrinks(schema: Schema, s: State, k: Key, incoming: Option<Row>, position: Option<nat>)
    requires Stored(schema, s)
    ensures var t := Stage(s, k, incoming, position);
      && Stored(schema, t)
      && t.ops == s.ops && t.live == s.live
      && SettledOf(t.writes, k) <= SettledOf(s.writes, k)
      && forall other :: other != k ==> SettledOf(t.writes, other) == SettledOf(s.writes, other)
  {
    StageTables(s, k, incoming, position);
    WithoutWritesOther(s.writes, k);
    forall other ensures Evidence(Stage(s, k, incoming, position), other) >= Evidence(s, other) {
      StageEvidence(s, k, incoming, position, other);
    }
    StoredShrinks(schema, s, Stage(s, k, incoming, position));
  }

  lemma StageKeepsInv(schema: Schema, s: State, held: set<Key>, k: Key, incoming: Option<Row>, position: Option<nat>)
    requires Inv(schema, s, held) && TotalState(schema, k, incoming) && (k in held ==> Dirty(s, k))
    ensures Inv(schema, Stage(s, k, incoming, position), StageHeld(s, held, k))
  {
    var t := Stage(s, k, incoming, position);
    StageShrinks(schema, s, k, incoming, position);
    forall other ensures Sound(schema, t, StageHeld(s, held, k), other) {
      if other != k {
        StageOther(schema, s, held, k, incoming, position, t, other);
      } else {
        StageSound(schema, s, held, k, incoming, position, t);
      }
    }
  }

  /** Staged authority is the record's new base: alone when it is newer, under the local operations
      retained since when it is the same position again. */
  lemma StagedBase(schema: Schema, s: State, held: set<Key>, k: Key, incoming: Option<Row>, position: Option<nat>)
    requires Inv(schema, s, held) && TotalState(schema, k, incoming) && (k in held ==> Dirty(s, k))
    ensures Base(Stage(s, k, incoming, position), StageHeld(s, held, k), k) ==
      if position.Some? then incoming else FoldSettled(incoming, Layer(s, k))
  {
    var t := Stage(s, k, incoming, position);
    StageKeepsInv(schema, s, held, k, incoming, position);
    assert Sound(schema, t, StageHeld(s, held, k), k);
    assert Layer(t, k) == if position.Some? then [] else Layer(s, k);
  }

  lemma StageOther(schema: Schema, s: State, held: set<Key>, k: Key, incoming: Option<Row>, position: Option<nat>,
                   t: State, other: Key)
    requires Inv(schema, s, held) && other != k
    requires t == Stage(s, k, incoming, position) && Stored(schema, t)
    ensures Sound(schema, t, StageHeld(s, held, k), other)
  {
    assert Sound(schema, s, held, other);
    StageShrinks(schema, s, k, incoming, position);
    StageLeaves(s, k, incoming, position, other);
    Untouched(schema, s, held, t, StageHeld(s, held, k), other);
  }

  lemma StageLeaves(s: State, k: Key, incoming: Option<Row>, position: Option<nat>, other: Key)
    requires other != k
    ensures var t := Stage(s, k, incoming, position);
      && Get(t.main, other) == Get(s.main, other) && Get(t.before, other) == Get(s.before, other)
      && Layer(t, other) == Layer(s, other) && Get(t.authority, other) == Get(s.authority, other)
  {
    PlaceOther(s, k, if position.Some? then incoming else Adapt(incoming, Layer(s, k)), other);
  }

  lemma StageSound(schema: Schema, s: State, held: set<Key>, k: Key, incoming: Option<Row>, position: Option<nat>,
                   t: State)
    requires Inv(schema, s, held) && TotalState(schema, k, incoming) && (k in held ==> Dirty(s, k))
    requires t == Stage(s, k, incoming, position) && Stored(schema, t)
    ensures Sound(schema, t, StageHeld(s, held, k), k)
  {
    if position.Some? {
      StageNewerSound(schema, s, held, k, incoming, position.value, t);
    } else {
      StageAgainSound(schema, s, held, k, incoming, t);
    }
  }

  lemma StageNewerSound(schema: Schema, s: State, held: set<Key>, k: Key, incoming: Option<Row>, position: nat,
                        t: State)
    requires Inv(schema, s, held) && TotalState(schema, k, incoming) && (k in held ==> Dirty(s, k))
    requires t == StageNewer(s, k, incoming, position) && Stored(schema, t)
    ensures Sound(schema, t, StageHeld(s, held, k), k)
  {
    StageShrinks(schema, s, k, incoming, Some(position));
    assert Layer(t, k) == [];
    PlaceSound(schema, s, held, k, incoming, t, incoming);
  }

  lemma StageAgainSound(schema: Schema, s: State, held: set<Key>, k: Key, incoming: Option<Row>, t: State)
    requires Inv(schema, s, held) && TotalState(schema, k, incoming) && (k in held ==> Dirty(s, k))
    requires t == StageAgain(s, k, incoming) && Stored(schema, t)
    ensures Sound(schema, t, StageHeld(s, held, k), k)
  {
    assert Sound(schema, s, held, k);
    StageShrinks(schema, s, k, incoming, None);
    AdaptIsFold(schema, k, incoming, Layer(s, k));
    PlaceSound(schema, s, held, k, incoming, t, Adapt(incoming, Layer(s, k)));
  }

  lemma PlaceOther(s: State, k: Key, base: Option<Row>, other: Key)
    requires other != k
    ensures Get(Place(s, k, base).main, other) == Get(s.main, other)
    ensures Get(Place(s, k, base).before, other) == Get(s.before, other)
  {
  }

  lemma PlaceSound(schema: Schema, s: State, held: set<Key>, k: Key, incoming: Option<Row>, t: State, base: Option<Row>)
    requires Inv(schema, s, held) && TotalState(schema, k, incoming) && (k in held ==> Dirty(s, k))
    requires Stored(schema, t) && t.ops == s.ops && t.live == s.live && SettledOf(t.writes, k) <= SettledOf(s.writes, k)
    requires t.main == Place(s, k, base).main && t.before == Place(s, k, base).before
    requires Get(t.authority, k) == incoming && base == FoldSettled(incoming, Layer(t, k))
    requires NormalForm(Layer(t, k)) && LayerOf(schema, k, Layer(t, k))
    ensures Sound(schema, t, StageHeld(s, held, k), k)
  {
    if !Dirty(s, k) {
      CleanUnheld(schema, s, held, k);
      CleanHistory(schema, t, k);
    }
  }
}
