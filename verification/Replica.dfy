/** The row layer as a value: the tables, what each step makes of them, and what every run keeps. */
module Replica {
  import opened Rows
  import opened History

  /** `live` are the calls neither reconciled nor rejected. `evidence` is the largest authority
      position admitted for a record; `authority` is the row last staged for it. */
  datatype State = State(
    main: map<Key, Row>,
    before: map<Key, Row>,
    ops: set<QueuedOp>,
    live: set<nat>,
    writes: set<LocalWrite>,
    layer: map<Key, seq<Operation>>,
    evidence: map<Key, nat>,
    diverged: set<nat>,
    nextOrdinal: nat,
    nextSequence: nat,
    authority: map<Key, Row>)

  const EMPTY_STORE := State(map[], map[], {}, {}, {}, map[], map[], {}, 1, 1, map[])

  function LayerIn(layers: map<Key, seq<Operation>>, k: Key): seq<Operation> {
    if k in layers then layers[k] else []
  }

  function Layer(s: State, k: Key): seq<Operation> {
    LayerIn(s.layer, k)
  }

  function EvidenceIn(evidence: map<Key, nat>, k: Key): nat {
    if k in evidence then evidence[k] else 0
  }

  function Evidence(s: State, k: Key): nat {
    EvidenceIn(s.evidence, k)
  }

  predicate Dirty(s: State, k: Key) {
    HasPending(s.ops, s.live, k)
  }

  predicate HasPending(ops: set<QueuedOp>, live: set<nat>, k: Key) {
    exists q :: q in ops && q.ordinal in live && q.op.key == k
  }

  ghost function Entries(s: State, k: Key): set<Step> {
    PendingOf(s.ops, s.live, k) + SettledOf(s.writes, k)
  }

  ghost function PendingOf(ops: set<QueuedOp>, live: set<nat>, k: Key): set<Step> {
    set q | q in ops && q.ordinal in live && q.op.key == k :: Pending(q)
  }

  ghost function SettledOf(writes: set<LocalWrite>, k: Key): set<Step> {
    set w | w in writes && w.op.key == k :: Settled(w)
  }

  /** Primary keys, allocation bounds, and the normal form of every stored operation. */
  ghost predicate Stored(schema: Schema, s: State) {
    && 1 <= s.nextOrdinal
    && (forall i :: i in s.live ==> i < s.nextOrdinal)
    && Keyed(s.ops)
    && Sequenced(s.ops, s.writes)
    && (forall q :: q in s.ops ==> StoredOp(schema, s, q))
    && (forall w :: w in s.writes ==> StoredWrite(schema, s, w))
  }

  ghost predicate Keyed(ops: set<QueuedOp>) {
    forall a, b :: a in ops && b in ops && a.ordinal == b.ordinal && a.position == b.position ==> a == b
  }

  ghost predicate Sequenced(ops: set<QueuedOp>, writes: set<LocalWrite>) {
    && (forall a, b :: a in ops && b in ops && a.sequence == b.sequence ==> a == b)
    && (forall a, b :: a in writes && b in writes && a.sequence == b.sequence ==> a == b)
    && (forall q, w :: q in ops && w in writes ==> q.sequence != w.sequence)
  }

  ghost predicate StoredOp(schema: Schema, s: State, q: QueuedOp) {
    && q.ordinal < s.nextOrdinal && q.sequence < s.nextSequence
    && q.owned <= Evidence(s, q.op.key)
    && Normalized(schema, q.op)
  }

  ghost predicate StoredWrite(schema: Schema, s: State, w: LocalWrite) {
    && w.ordinal < s.nextOrdinal && w.sequence < s.nextSequence
    && (w.kind == Accepted ==> w.ordinal !in s.live)
    && Normalized(schema, w.op)
  }

  lemma EntriesPlaced(schema: Schema, s: State, k: Key)
    requires Stored(schema, s)
    ensures Placed(Entries(s, k))
  {
  }

  ghost function Hist(schema: Schema, s: State, k: Key): (r: seq<Step>)
    requires Stored(schema, s)
    ensures Lists(r, Entries(s, k))
  {
    EntriesPlaced(schema, s, k);
    Listing(Entries(s, k))
  }

  lemma HistIs(schema: Schema, s: State, k: Key, steps: seq<Step>)
    requires Stored(schema, s) && Lists(steps, Entries(s, k))
    ensures Hist(schema, s, k) == steps
  {
    ListingIs(Entries(s, k), steps);
  }

  lemma HistSame(schema: Schema, s: State, t: State, k: Key)
    requires Stored(schema, s) && Stored(schema, t) && Entries(t, k) == Entries(s, k)
    ensures Hist(schema, t, k) == Hist(schema, s, k)
  {
    HistIs(schema, t, k, Hist(schema, s, k));
  }

  lemma HistAppend(schema: Schema, s: State, t: State, k: Key, x: Step)
    requires Stored(schema, s) && Stored(schema, t) && Entries(t, k) == Entries(s, k) + {x}
    requires forall y :: y in Entries(s, k) ==> Less(y.Order(), x.Order())
    ensures Hist(schema, t, k) == Hist(schema, s, k) + [x]
  {
    var h := Hist(schema, s, k);
    forall y | y in h ensures Less(y.Order(), x.Order()) { assert y in Entries(s, k); }
    HistIs(schema, t, k, h + [x]);
  }

  /** What a record's history starts from: its before-image while it is dirty, or still held by the
      transaction, and its row otherwise. */
  ghost function Base(s: State, held: set<Key>, k: Key): Option<Row> {
    if Dirty(s, k) || k in held then Get(s.before, k) else Get(s.main, k)
  }

  /** The last known server state with the settled local writes on it. */
  ghost function Truth(schema: Schema, s: State, held: set<Key>, k: Key): Option<Row>
    requires Stored(schema, s)
  {
    SettledView(Base(s, held, k), Hist(schema, s, k))
  }

  /** A record outside `held`: a clean one keeps no before-image and no settled write, and whenever
      its history replays its row is that replay. */
  ghost predicate Visible(schema: Schema, s: State, k: Key)
    requires Stored(schema, s)
  {
    && (!Dirty(s, k) ==> k !in s.before && Entries(s, k) == {})
    && (Replay(Base(s, {}, k), Hist(schema, s, k)).Replayed? ==>
      Replay(Base(s, {}, k), Hist(schema, s, k)) == Replayed(Get(s.main, k)))
  }

  /** The base is the last staged authority with the retained local operations on it. */
  ghost predicate Grounded(schema: Schema, s: State, held: set<Key>, k: Key) {
    && NormalForm(Layer(s, k))
    && LayerOf(schema, k, Layer(s, k))
    && TotalState(schema, k, Get(s.authority, k))
    && Base(s, held, k) == FoldSettled(Get(s.authority, k), Layer(s, k))
  }

  /** The invariant, inside a transaction that still has to rebuild `held`. */
  ghost predicate Inv(schema: Schema, s: State, held: set<Key>) {
    Stored(schema, s) && forall k :: Sound(schema, s, held, k)
  }

  ghost predicate Sound(schema: Schema, s: State, held: set<Key>, k: Key)
    requires Stored(schema, s)
  {
    (k !in held ==> Visible(schema, s, k)) && Grounded(schema, s, held, k)
  }

  /** A step that leaves a record's rows and entries alone leaves it sound, with the same truth. */
  lemma Untouched(schema: Schema, s: State, held: set<Key>, t: State, held': set<Key>, k: Key)
    requires Stored(schema, s) && Sound(schema, s, held, k) && Stored(schema, t)
    requires Entries(t, k) == Entries(s, k) && Dirty(t, k) == Dirty(s, k) && (k in held <==> k in held')
    requires Get(t.main, k) == Get(s.main, k) && Get(t.before, k) == Get(s.before, k)
    requires Layer(t, k) == Layer(s, k) && Get(t.authority, k) == Get(s.authority, k)
    ensures Sound(schema, t, held', k)
    ensures Hist(schema, t, k) == Hist(schema, s, k)
    ensures Truth(schema, t, held', k) == Truth(schema, s, held, k)
  {
    HistSame(schema, s, t, k);
  }

  lemma CleanHistory(schema: Schema, s: State, k: Key)
    requires Stored(schema, s) && Entries(s, k) == {}
    ensures Hist(schema, s, k) == []
  {
    HistIs(schema, s, k, []);
  }

  // ---------------------------------------------------------- storing an operation

  function Holding(s: State, k: Key): map<Key, Row> {
    if !Dirty(s, k) && k in s.main && k !in s.before then s.before[k := s.main[k]] else s.before
  }

  ghost predicate NextPosition(ops: set<QueuedOp>, ordinal: nat, position: nat) {
    && (forall q :: q in ops && q.ordinal == ordinal ==> q.position < position)
    && (position > 0 ==> exists q :: q in ops && q.ordinal == ordinal && q.position == position - 1)
  }

  function NewOp(s: State, ordinal: nat, position: nat, kind: OpKind, op: Operation): QueuedOp {
    QueuedOp(ordinal, position, s.nextSequence, kind, op, Evidence(s, op.key))
  }

  /** Hold the record's base, then store `op` with its call. */
  function Queue(s: State, ordinal: nat, position: nat, kind: OpKind, op: Operation): State {
    s.(before := Holding(s, op.key),
       ops := s.ops + {NewOp(s, ordinal, position, kind, op)},
       nextSequence := s.nextSequence + 1)
  }

  /** The call is the latest one and no independent write was journaled after it. */
  ghost predicate Latest(s: State, ordinal: nat) {
    && ordinal in s.live
    && ordinal + 1 == s.nextOrdinal
    && forall w :: w in s.writes && w.kind == Independent ==> w.ordinal < ordinal
  }

  ghost predicate CanQueue(schema: Schema, s: State, held: set<Key>, ordinal: nat, position: nat, op: Operation) {
    && Inv(schema, s, held)
    && op.key !in held
    && ordinal in s.live
    && NextPosition(s.ops, ordinal, position)
    && Normalized(schema, op)
  }

  lemma QueueStored(schema: Schema, s: State, held: set<Key>, ordinal: nat, position: nat, kind: OpKind, op: Operation)
    requires CanQueue(schema, s, held, ordinal, position, op)
    ensures Stored(schema, Queue(s, ordinal, position, kind, op))
  {
    var t := Queue(s, ordinal, position, kind, op);
    var q := NewOp(s, ordinal, position, kind, op);
    assert forall p :: p in s.ops ==> StoredOp(schema, s, p);
    assert forall w :: w in s.writes ==> StoredWrite(schema, s, w);
    assert Keyed(t.ops);
    assert Sequenced(t.ops, t.writes);
    forall p | p in t.ops ensures StoredOp(schema, t, p) {
      if p != q { assert StoredOp(schema, s, p); }
    }
    forall w | w in t.writes ensures StoredWrite(schema, t, w) { assert StoredWrite(schema, s, w); }
  }

  /** Only the record of the stored operation changes, by that one entry; no base changes. */
  lemma QueueEffect(schema: Schema, s: State, held: set<Key>, ordinal: nat, position: nat, kind: OpKind, op: Operation,
                    k: Key)
    requires CanQueue(schema, s, held, ordinal, position, op)
    ensures var t := Queue(s, ordinal, position, kind, op);
      && Base(t, held, k) == Base(s, held, k)
      && Entries(t, k) == Entries(s, k) + (if k == op.key then {Pending(NewOp(s, ordinal, position, kind, op))} else {})
      && Dirty(t, k) == (Dirty(s, k) || k == op.key)
  {
    QueueDirties(s, ordinal, position, kind, op, k);
    if !Dirty(s, op.key) { CleanUnheld(schema, s, held, op.key); }
  }

  lemma QueueDirties(s: State, ordinal: nat, position: nat, kind: OpKind, op: Operation, k: Key)
    requires ordinal in s.live
    ensures Dirty(Queue(s, ordinal, position, kind, op), k) == (Dirty(s, k) || k == op.key)
  {
    var t := Queue(s, ordinal, position, kind, op);
    var q := NewOp(s, ordinal, position, kind, op);
    if k == op.key { assert q in t.ops && q.ordinal in t.live; }
    if Dirty(s, k) {
      var p :| p in s.ops && p.ordinal in s.live && p.op.key == k;
      assert p in t.ops && p.ordinal in t.live;
    }
  }

  lemma CleanUnheld(schema: Schema, s: State, held: set<Key>, k: Key)
    requires Inv(schema, s, held) && k !in held && !Dirty(s, k)
    ensures k !in s.before && Entries(s, k) == {} && Hist(schema, s, k) == []
  {
    assert Sound(schema, s, held, k);
    CleanHistory(schema, s, k);
  }

  /** Storing an operation at any place of its call changes no record's truth. */
  lemma QueueKeepsTruth(schema: Schema, s: State, held: set<Key>, ordinal: nat, position: nat, kind: OpKind,
                        op: Operation, k: Key)
    requires CanQueue(schema, s, held, ordinal, position, op)
    ensures Stored(schema, Queue(s, ordinal, position, kind, op))
    ensures Truth(schema, Queue(s, ordinal, position, kind, op), held, k) == Truth(schema, s, held, k)
  {
    QueueStored(schema, s, held, ordinal, position, kind, op);
    QueueEffect(schema, s, held, ordinal, position, kind, op, k);
    var t := Queue(s, ordinal, position, kind, op);
    var h := Hist(schema, t, k);
    EntriesPlaced(schema, t, k);
    KeptLists(h, Entries(t, k), Entries(s, k));
    assert Entries(t, k) * Entries(s, k) == Entries(s, k);
    HistIs(schema, s, k, Kept(h, Entries(s, k)));
    forall x | x in h && x.Settled? ensures x in Entries(s, k) { assert x in Entries(t, k); }
    KeptSettledView(Base(s, held, k), h, Entries(s, k));
  }

  /** Submitting one operation, or appending a companion to the latest call: the base is held, the
      operation is applied to the visible row and stored at the end of the record's history. */
  function Submitted(s: State, ordinal: nat, position: nat, kind: OpKind, op: Operation): Option<State> {
    match ApplyToRow(Get(s.main, op.key), op)
    case Conflict => None
    case Ok(row) => Some(Queue(s, ordinal, position, kind, op).(main := Put(s.main, op.key, row)))
  }

  lemma SubmitStored(schema: Schema, s: State, ordinal: nat, position: nat, kind: OpKind, op: Operation, t: State)
    requires CanQueue(schema, s, {}, ordinal, position, op)
    requires Submitted(s, ordinal, position, kind, op) == Some(t)
    ensures Stored(schema, t)
  {
    QueueStored(schema, s, {}, ordinal, position, kind, op);
    StoredShrinks(schema, Queue(s, ordinal, position, kind, op), t);
  }

  lemma SubmitOwn(schema: Schema, s: State, ordinal: nat, position: nat, kind: OpKind, op: Operation, t: State)
    requires CanQueue(schema, s, {}, ordinal, position, op) && Latest(s, ordinal)
    requires Submitted(s, ordinal, position, kind, op) == Some(t) && Stored(schema, t)
    ensures Dirty(t, op.key) && Base(t, {}, op.key) == Base(s, {}, op.key)
    ensures Hist(schema, t, op.key) == Hist(schema, s, op.key) + [Pending(NewOp(s, ordinal, position, kind, op))]
  {
    QueueEffect(schema, s, {}, ordinal, position, kind, op, op.key);
    LatestIsLast(schema, s, ordinal, position, op.key);
    HistAppend(schema, s, t, op.key, Pending(NewOp(s, ordinal, position, kind, op)));
  }

  lemma LatestIsLast(schema: Schema, s: State, ordinal: nat, position: nat, k: Key)
    requires Stored(schema, s) && Latest(s, ordinal) && NextPosition(s.ops, ordinal, position)
    ensures forall x :: x in Entries(s, k) ==> Less(x.Order(), (ordinal, 0, position, 0))
  {
    forall x | x in Entries(s, k) ensures Less(x.Order(), (ordinal, 0, position, 0)) {
      if x.Pending? { assert StoredOp(schema, s, x.queued); } else { assert StoredWrite(schema, s, x.write); }
    }
  }

  /** Dropping rows, raising evidence and rewriting the row tables keep the tables well formed. */
  lemma StoredShrinks(schema: Schema, s: State, t: State)
    requires Stored(schema, s)
    requires t.ops <= s.ops && t.writes <= s.writes && t.live <= s.live
    requires t.nextOrdinal == s.nextOrdinal && t.nextSequence >= s.nextSequence
    requires forall k :: Evidence(t, k) >= Evidence(s, k)
    ensures Stored(schema, t)
  {
    forall q | q in t.ops ensures StoredOp(schema, t, q) { assert StoredOp(schema, s, q); }
    forall w | w in t.writes ensures StoredWrite(schema, t, w) { assert StoredWrite(schema, s, w); }
  }

  /** Submitting keeps the invariant and every record's truth. */
  lemma SubmitKeepsInv(schema: Schema, s: State, ordinal: nat, position: nat, kind: OpKind, op: Operation, t: State)
    requires CanQueue(schema, s, {}, ordinal, position, op) && Latest(s, ordinal)
    requires Submitted(s, ordinal, position, kind, op) == Some(t)
    ensures Inv(schema, t, {}) && Latest(t, ordinal)
    ensures forall k :: Truth(schema, t, {}, k) == Truth(schema, s, {}, k)
  {
    SubmitStored(schema, s, ordinal, position, kind, op, t);
    forall k ensures Sound(schema, t, {}, k) && Truth(schema, t, {}, k) == Truth(schema, s, {}, k) {
      assert Sound(schema, s, {}, k);
      if k == op.key {
        SubmitKeepsOwn(schema, s, ordinal, position, kind, op, t);
      } else {
        SubmitKeepsOther(schema, s, ordinal, position, kind, op, t, k);
      }
    }
  }

  lemma SubmitKeepsOwn(schema: Schema, s: State, ordinal: nat, position: nat, kind: OpKind, op: Operation, t: State)
    requires CanQueue(schema, s, {}, ordinal, position, op) && Latest(s, ordinal)
    requires Submitted(s, ordinal, position, kind, op) == Some(t) && Stored(schema, t)
    ensures Sound(schema, t, {}, op.key)
    ensures Truth(schema, t, {}, op.key) == Truth(schema, s, {}, op.key)
  {
    assert Sound(schema, s, {}, op.key);
    SubmitOwn(schema, s, ordinal, position, kind, op, t);
    AppendedReplay(Base(s, {}, op.key), Hist(schema, s, op.key), Pending(NewOp(s, ordinal, position, kind, op)));
  }

  lemma SubmitKeepsOther(schema: Schema, s: State, ordinal: nat, position: nat, kind: OpKind, op: Operation, t: State,
                         k: Key)
    requires CanQueue(schema, s, {}, ordinal, position, op) && k != op.key
    requires Submitted(s, ordinal, position, kind, op) == Some(t) && Stored(schema, t)
    ensures Sound(schema, t, {}, k)
    ensures Truth(schema, t, {}, k) == Truth(schema, s, {}, k)
  {
    assert Sound(schema, s, {}, k);
    QueueEffect(schema, s, {}, ordinal, position, kind, op, k);
    Untouched(schema, s, {}, t, {}, k);
  }
}
