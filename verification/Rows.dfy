/** Records, operations on one row, and the compacted local layer of a record. */
module Rows {

  datatype Option<+T> = None | Some(value: T)

  datatype Value = Null | Data(text: string)

  type Row = map<string, Value>

  datatype Key = Key(model: string, identity: Row)

  datatype Change = Create(values: Row) | Update(patch: Row) | Delete

  datatype Operation = Operation(key: Key, change: Change)

  /** A declared relation of a model. Only the ones with `cascade` (on_delete = "delete") matter here. */
  datatype Relation = Relation(fields: seq<string>, target: string, targetFields: seq<string>, cascade: bool)

  datatype Model = Model(fields: set<string>, identity: set<string>, relations: seq<Relation>)

  type Schema = map<string, Model>

  /** A table of rows under their keys, read as SQL reads one row. */
  function Get<K, V>(table: map<K, V>, key: K): Option<V> {
    if key in table then Some(table[key]) else None
  }

  /** Upsert of a present row, delete of an absent one. */
  function Put<K(!new), V>(table: map<K, V>, key: K, row: Option<V>): (r: map<K, V>)
    ensures Get(r, key) == row
    ensures forall other :: other != key ==> Get(r, other) == Get(table, other)
  {
    match row
    case Some(v) => table[key := v]
    case None => table - {key}
  }

  function MergeIdentity(identity: Row, values: Row): Row {
    identity + values
  }

  // ---------------------------------------------------------------- one row

  /** A settled write is never a replay conflict. */
  function ApplySettled(row: Option<Row>, op: Operation): Option<Row> {
    match op.change
    case Create(values) => Some(MergeIdentity(op.key.identity, values))
    case Update(patch) => if row.Some? then Some(row.value + patch) else None
    case Delete => None
  }

  datatype Applied = Ok(row: Option<Row>) | Conflict

  /** A pending operation conflicts when it creates what exists or updates what does not. */
  function ApplyToRow(row: Option<Row>, op: Operation): Applied {
    match op.change
    case Create(values) =>
      if row.Some? then Conflict else Ok(Some(MergeIdentity(op.key.identity, values)))
    case Update(patch) =>
      if row.None? then Conflict else Ok(Some(row.value + patch))
    case Delete => Ok(None)
  }

  /** Where an operation is accepted: a create on no row, an update on one, a delete anywhere. */
  ghost predicate Accepts(row: Option<Row>, op: Operation) {
    match op.change
    case Create(_) => row.None?
    case Update(_) => row.Some?
    case Delete => true
  }

  /** What the row then holds, field by field: a create's fields and, where it has none, the identity's;
      an update's fields and every other one as it was. */
  ghost predicate Holds(was: Option<Row>, op: Operation, now: Option<Row>) {
    match op.change
    case Create(values) =>
      && now.Some? && now.value.Keys == op.key.identity.Keys + values.Keys
      && (forall f :: f in values ==> now.value[f] == values[f])
      && (forall f :: f in op.key.identity && f !in values ==> now.value[f] == op.key.identity[f])
    case Update(patch) =>
      && was.Some? && now.Some? && now.value.Keys == was.value.Keys + patch.Keys
      && (forall f :: f in patch ==> now.value[f] == patch[f])
      && (forall f :: f in was.value && f !in patch ==> now.value[f] == was.value[f])
    case Delete => now.None?
  }

  /** A pending operation is applied exactly where it is accepted, and a settled write is the same there;
      elsewhere a settled create replaces the row and a settled update does nothing. */
  lemma AppliesWhereAccepted(row: Option<Row>, op: Operation)
    ensures Accepts(row, op) <==>
      op.change.Delete? || (op.change.Create? && row.None?) || (op.change.Update? && row.Some?)
    ensures ApplyToRow(row, op).Ok? <==> Accepts(row, op)
    ensures Accepts(row, op) ==> Holds(row, op, ApplyToRow(row, op).row)
    ensures Accepts(row, op) ==> ApplySettled(row, op) == ApplyToRow(row, op).row
    ensures !Accepts(row, op) && op.change.Create? ==> Holds(None, op, ApplySettled(row, op))
    ensures !Accepts(row, op) && op.change.Update? ==> ApplySettled(row, op).None?
  {
  }

  // ------------------------------------------------------------ local layer

  function FoldSettled(row: Option<Row>, ops: seq<Operation>): Option<Row> {
    if ops == [] then row
    else ApplySettled(FoldSettled(row, ops[..|ops| - 1]), ops[|ops| - 1])
  }

  /** What the stored layer becomes when one more local operation is retained. */
  function Retain(layer: seq<Operation>, op: Operation): seq<Operation> {
    var kept := if op.change.Update? then layer else [];
    if op.change.Update? && kept != [] && kept[|kept| - 1].change.Update? then
      var last := kept[|kept| - 1];
      kept[..|kept| - 1] + [last.(change := Update(last.change.patch + op.change.patch))]
    else
      kept + [op]
  }

  function RetainAll(ops: seq<Operation>): seq<Operation> {
    if ops == [] then [] else Retain(RetainAll(ops[..|ops| - 1]), ops[|ops| - 1])
  }

  /** At most one Create or Delete, then at most one Update. */
  predicate NormalForm(layer: seq<Operation>) {
    && |layer| <= 2
    && (|layer| == 2 ==> !layer[0].change.Update? && layer[1].change.Update?)
  }

  lemma FoldAppend(row: Option<Row>, ops: seq<Operation>, op: Operation)
    ensures FoldSettled(row, ops + [op]) == ApplySettled(FoldSettled(row, ops), op)
  {
    assert (ops + [op])[..|ops|] == ops;
  }

  lemma PatchTwice(row: Option<Row>, first: Operation, patch: Row)
    requires first.change.Update?
    ensures ApplySettled(row, first.(change := Update(first.change.patch + patch)))
         == ApplySettled(ApplySettled(row, first), first.(change := Update(patch)))
  {
    if row.Some? {
      assert row.value + (first.change.patch + patch) == (row.value + first.change.patch) + patch;
    }
  }

  lemma RetainNormal(layer: seq<Operation>, op: Operation)
    requires NormalForm(layer)
    ensures NormalForm(Retain(layer, op))
  {
  }

  /** Retaining one more operation applies exactly that operation, over every starting row. */
  lemma RetainStep(row: Option<Row>, layer: seq<Operation>, op: Operation)
    ensures FoldSettled(row, Retain(layer, op)) == ApplySettled(FoldSettled(row, layer), op)
  {
    if !op.change.Update? {
      FoldAppend(row, [], op);
    } else if layer != [] && layer[|layer| - 1].change.Update? {
      var n := |layer| - 1;
      FoldAppend(row, layer[..n], layer[n]);
      assert layer[..n] + [layer[n]] == layer;
      FoldAppend(row, layer[..n], layer[n].(change := Update(layer[n].change.patch + op.change.patch)));
      PatchTwice(FoldSettled(row, layer[..n]), layer[n], op.change.patch);
    } else {
      FoldAppend(row, layer, op);
    }
  }

  /** The layer is always in normal form, and compaction loses nothing: over every starting row
      it folds to what the whole sequence of retained operations folds to. */
  lemma {:induction false} LayerIsFaithful(row: Option<Row>, ops: seq<Operation>)
    ensures NormalForm(RetainAll(ops))
    ensures FoldSettled(row, RetainAll(ops)) == FoldSettled(row, ops)
  {
    if ops != [] {
      LayerIsFaithful(row, ops[..|ops| - 1]);
      RetainNormal(RetainAll(ops[..|ops| - 1]), ops[|ops| - 1]);
      RetainStep(row, RetainAll(ops[..|ops| - 1]), ops[|ops| - 1]);
    }
  }

  // ------------------------------------- rematerialization over a fixed schema

  /** A stored row of `key` holds every field of its model and the key's identity. */
  predicate TotalRow(schema: Schema, key: Key, row: Row) {
    && key.model in schema
    && row.Keys == schema[key.model].fields
    && key.identity.Keys == schema[key.model].identity
    && forall f :: f in key.identity ==> f in row && row[f] == key.identity[f]
  }

  predicate TotalState(schema: Schema, key: Key, row: Option<Row>) {
    row.Some? ==> TotalRow(schema, key, row.value)
  }

  /** A record key holds exactly the identity fields of its model. */
  predicate Identified(schema: Schema, key: Key) {
    key.model in schema && key.identity.Keys == schema[key.model].identity <= schema[key.model].fields
  }

  /** What `normalize` leaves of an operation: a create holds every field outside the identity,
      a patch only such fields. */
  predicate Normalized(schema: Schema, op: Operation) {
    && Identified(schema, op.key)
    && var own := schema[op.key.model].fields - schema[op.key.model].identity;
    match op.change
    case Create(values) => values.Keys == own
    case Update(patch) => patch.Keys <= own
    case Delete => true
  }

  predicate LayerOf(schema: Schema, key: Key, layer: seq<Operation>) {
    forall op :: op in layer ==> op.key == key && Normalized(schema, op)
  }

  /** How `stage_preserving_local` carries one layer operation onto a rematerialized row. */
  function AdaptOne(row: Option<Row>, op: Operation): Option<Row> {
    if op.change.Create? && row.Some? then Some(row.value + op.change.values) else ApplySettled(row, op)
  }

  function Adapt(row: Option<Row>, layer: seq<Operation>): Option<Row> {
    if layer == [] then row
    else AdaptOne(Adapt(row, layer[..|layer| - 1]), layer[|layer| - 1])
  }

  lemma SettledKeepsTotal(schema: Schema, row: Option<Row>, op: Operation)
    requires TotalState(schema, op.key, row) && Normalized(schema, op)
    ensures TotalState(schema, op.key, ApplySettled(row, op))
  {
  }

  /** Under one schema, keeping the fields of an old create is the same as applying it. */
  lemma {:induction false} AdaptIsFold(schema: Schema, key: Key, row: Option<Row>, layer: seq<Operation>)
    requires TotalState(schema, key, row) && LayerOf(schema, key, layer)
    ensures Adapt(row, layer) == FoldSettled(row, layer)
    ensures TotalState(schema, key, FoldSettled(row, layer))
  {
    if layer != [] {
      var n := |layer| - 1;
      var op := layer[n];
      assert op in layer;
      AdaptIsFold(schema, key, row, layer[..n]);
      var below := FoldSettled(row, layer[..n]);
      SettledKeepsTotal(schema, below, op);
      if op.change.Create? && below.Some? {
        assert below.value + op.change.values == MergeIdentity(op.key.identity, op.change.values);
      }
    }
  }

  /** Under any schema: a row rematerialized with fields the layer's create never knew keeps them, and
      has in every field the layer does own what applying the layer gives. */
  lemma AdaptKeepsNewFields(row: Row, layer: seq<Operation>)
    requires NormalForm(layer)
    requires forall op :: op in layer ==> forall f :: f in op.key.identity ==> f in row && row[f] == op.key.identity[f]
    ensures match FoldSettled(Some(row), layer)
      case None => Adapt(Some(row), layer).None?
      case Some(applied) => Adapt(Some(row), layer) == Some(row + applied)
  {
    if |layer| == 0 {
      assert row + row == row;
    } else if |layer| == 1 {
      assert layer[..0] == [] && layer[0] in layer;
      AdaptOneKeeps(row, layer[0]);
    } else {
      assert layer[..1][..0] == [] && layer[0] in layer;
      AdaptOneKeeps(row, layer[0]);
      UpdateKeeps(row, ApplySettled(Some(row), layer[0]), layer[1]);
    }
  }

  lemma UpdateKeeps(row: Row, applied: Option<Row>, op: Operation)
    requires op.change.Update?
    ensures applied.Some? ==>
      AdaptOne(Some(row + applied.value), op) == Some(row + (applied.value + op.change.patch))
    ensures applied.None? ==> AdaptOne(None, op).None?
  {
    if applied.Some? {
      assert (row + applied.value) + op.change.patch == row + (applied.value + op.change.patch);
    }
  }

  lemma AdaptOneKeeps(row: Row, op: Operation)
    requires forall f :: f in op.key.identity ==> f in row && row[f] == op.key.identity[f]
    ensures match ApplySettled(Some(row), op)
      case None => AdaptOne(Some(row), op).None?
      case Some(applied) => AdaptOne(Some(row), op) == Some(row + applied)
  {
    match op.change
    case Create(values) => assert row + values == row + (op.key.identity + values);
    case Update(patch) => assert row + patch == row + (row + patch);
    case Delete =>
  }

  lemma RetainKeepsLayerOf(schema: Schema, layer: seq<Operation>, op: Operation)
    requires LayerOf(schema, op.key, layer) && Normalized(schema, op)
    ensures LayerOf(schema, op.key, Retain(layer, op))
  {
    if op.change.Update? && layer != [] {
      assert layer[|layer| - 1] in layer;
    }
  }
}
