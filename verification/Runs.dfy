/** Every run of the row layer, one table step at a time, with the records a transaction still has to rebuild. */
module Runs {
  import opened Rows
  import opened History
  import opened Replica
  import opened Rebuilding
  import LocalSteps
  import Settlement

  datatype Config = Config(s: State, held: set<Key>)

  datatype Action =
    | Allocate
    | Submit(ordinal: nat, position: nat, kind: OpKind, op: Operation)
    | Direct(op: Operation)
    | Extend(ordinal: nat, position: nat, kind: OpKind, child: Key)
    | Reject(ids: set<nat>)
    | Settle(id: nat, targets: set<Key>, finals: map<Key, Change>)
    | Stage(key: Key, incoming: Option<Row>, cursor: Option<nat>)
    | Rebuild(key: Key)

  function Allocated(s: State): State {
    s.(live := s.live + {s.nextOrdinal}, nextOrdinal := s.nextOrdinal + 1)
  }

  /** Writes happen only between rebuilds; only a held or dirty record is rebuilt. */
  ghost predicate Next(schema: Schema, c: Config, a: Action, d: Config) {
    && Stored(schema, c.s)
    && match a
       case Allocate => c.held == {} && d == Config(Allocated(c.s), {})
       case Submit(ordinal, position, kind, op) =>
         && c.held == {} == d.held && ordinal in c.s.live && Latest(c.s, ordinal)
         && NextPosition(c.s.ops, ordinal, position) && Normalized(schema, op)
         && Replica.Submitted(c.s, ordinal, position, kind, op) == Some(d.s)
       case Direct(op) =>
         && c.held == {} == d.held && Normalized(schema, op)
         && LocalSteps.Direct(c.s, op) == Some(d.s)
       case Extend(ordinal, position, kind, child) =>
         && c.held == {} == d.held && kind != Wire
         && CanQueue(schema, c.s, {}, ordinal, position, Operation(child, Delete))
         && d.s == LocalSteps.Extend(schema, c.s, ordinal, position, kind, child)
       case Reject(ids) =>
         d == Config(LocalSteps.Reject(c.s, ids), c.held + LocalSteps.Touched(c.s, ids))
       case Settle(id, targets, finals) =>
         && Settlement.CanSettle(schema, c.s, id, targets, finals)
         && d == Config(Settlement.Settle(c.s, id, targets, finals), c.held + LocalSteps.Touched(c.s, {id}))
       case Stage(k, incoming, cursor) =>
         && TotalState(schema, k, incoming) && (k in c.held ==> Dirty(c.s, k))
         && d == Config(LocalSteps.Stage(c.s, k, incoming, cursor), LocalSteps.StageHeld(c.s, c.held, k))
       case Rebuild(k) =>
         && (k in c.held || Dirty(c.s, k))
         && d == Config(Rebuilding.Rebuild(schema, c.s, k), c.held - {k})
  }

  /** How one step moves a record's truth: authority and settlement may replace it, a direct write
      applies its operation to it, nothing else does anything. */
  ghost predicate MovesTruth(schema: Schema, c: Config, a: Action, d: Config, k: Key)
    requires Stored(schema, c.s) && Stored(schema, d.s)
  {
    a.Settle? || a.Stage? ||
    Truth(schema, d.s, d.held, k) ==
      if a.Direct? && a.op.key == k then ApplySettled(Truth(schema, c.s, c.held, k), a.op)
      else Truth(schema, c.s, c.held, k)
  }

  lemma AllocateKeepsInv(schema: Schema, s: State)
    requires Inv(schema, s, {})
    ensures Inv(schema, Allocated(s), {})
    ensures forall k :: Truth(schema, Allocated(s), {}, k) == Truth(schema, s, {}, k)
    ensures Latest(Allocated(s), s.nextOrdinal)
  {
    var t := Allocated(s);
    forall q | q in s.ops ensures StoredOp(schema, t, q) && q.ordinal != s.nextOrdinal {
      assert StoredOp(schema, s, q);
    }
    forall w | w in s.writes ensures StoredWrite(schema, t, w) && w.ordinal < s.nextOrdinal {
      assert StoredWrite(schema, s, w);
    }
    assert Stored(schema, t);
    forall k ensures Sound(schema, t, {}, k) && Truth(schema, t, {}, k) == Truth(schema, s, {}, k) {
      assert Sound(schema, s, {}, k);
      assert PendingOf(t.ops, t.live, k) == PendingOf(s.ops, s.live, k);
      LocalSteps.SameDirty(s, t, k);
      Untouched(schema, s, {}, t, {}, k);
    }
  }

  lemma NextKeepsInv(schema: Schema, c: Config, a: Action, d: Config)
    requires Inv(schema, c.s, c.held) && Next(schema, c, a, d)
    ensures Inv(schema, d.s, d.held)
    ensures forall k :: MovesTruth(schema, c, a, d, k)
  {
    match a
    case Allocate => AllocateKeepsInv(schema, c.s);
    case Submit(ordinal, position, kind, op) => SubmitKeepsInv(schema, c.s, ordinal, position, kind, op, d.s);
    case Direct(op) =>
      LocalSteps.DirectKeepsInv(schema, c.s, op, d.s);
      forall k ensures MovesTruth(schema, c, a, d, k) { assert LocalSteps.Moves(schema, c.s, op, d.s, k); }
    case Extend(ordinal, position, kind, child) =>
      LocalSteps.ExtendKeepsInv(schema, c.s, ordinal, position, kind, child);
    case Reject(ids) => LocalSteps.RejectKeepsInv(schema, c.s, c.held, ids);
    case Settle(id, targets, finals) => Settlement.SettleKeepsInv(schema, c.s, c.held, id, targets, finals);
    case Stage(k, incoming, cursor) => LocalSteps.StageKeepsInv(schema, c.s, c.held, k, incoming, cursor);
    case Rebuild(k) => RebuildKeepsInv(schema, c.s, c.held, k);
  }

  ghost predicate StepAt(schema: Schema, configs: seq<Config>, actions: seq<Action>, i: nat) {
    i < |actions| && i + 1 < |configs| && Next(schema, configs[i], actions[i], configs[i + 1])
  }

  ghost predicate Run(schema: Schema, configs: seq<Config>, actions: seq<Action>) {
    && |configs| == |actions| + 1
    && forall i :: 0 <= i < |actions| ==> StepAt(schema, configs, actions, i)
  }

  lemma LastStep(schema: Schema, configs: seq<Config>, actions: seq<Action>)
    requires Run(schema, configs, actions) && actions != []
    ensures Run(schema, configs[..|actions|], actions[..|actions| - 1])
    ensures Next(schema, configs[|actions| - 1], actions[|actions| - 1], configs[|actions|])
  {
    var n := |actions| - 1;
    assert StepAt(schema, configs, actions, n);
    forall i | 0 <= i < n ensures StepAt(schema, configs[..|actions|], actions[..n], i) {
      assert StepAt(schema, configs, actions, i);
    }
  }

  lemma EmptyStoreInv(schema: Schema)
    ensures Inv(schema, EMPTY_STORE, {})
  {
    forall k ensures Sound(schema, EMPTY_STORE, {}, k) {
      assert Entries(EMPTY_STORE, k) == {};
      CleanHistory(schema, EMPTY_STORE, k);
    }
  }

  /** In every reachable state: a record whose history replays shows that replay over its base, a
      clean record keeps no before-image and no settled write, and every base is the last staged
      authority with the record's compacted local layer on it. */
  lemma {:induction false} ReachableInv(schema: Schema, configs: seq<Config>, actions: seq<Action>)
    requires Run(schema, configs, actions) && configs[0] == Config(EMPTY_STORE, {})
    ensures Inv(schema, configs[|actions|].s, configs[|actions|].held)
  {
    var n := |actions|;
    if n == 0 {
      EmptyStoreInv(schema);
    } else {
      LastStep(schema, configs, actions);
      ReachableInv(schema, configs[..n], actions[..n - 1]);
      NextKeepsInv(schema, configs[n - 1], actions[n - 1], configs[n]);
    }
  }

  // ----------------------------------------------------------- stored identities

  /** Every record with a row, and every one in hand, is identified by its model's identity fields. */
  ghost predicate KeysOk(schema: Schema, c: Config) {
    forall k :: k in c.s.main || k in c.s.before || k in c.held ==> Identified(schema, k)
  }

  lemma DirtyIdentified(schema: Schema, s: State, k: Key)
    requires Stored(schema, s) && Dirty(s, k)
    ensures Identified(schema, k)
  {
    var q :| q in s.ops && q.ordinal in s.live && q.op.key == k;
    assert StoredOp(schema, s, q);
  }

  /** The records a step may give a row to. */
  ghost predicate Writes(schema: Schema, s: State, t: State, k: Key) {
    && (forall other :: other != k && other in t.main ==> other in s.main)
    && (forall other :: other != k && other in t.before ==> other in s.before || other in s.main)
    && (k in t.main || k in t.before ==> k in s.main || k in s.before || Identified(schema, k))
  }

  lemma NextKeepsKeys(schema: Schema, c: Config, a: Action, d: Config)
    requires Inv(schema, c.s, c.held) && Next(schema, c, a, d) && KeysOk(schema, c)
    ensures KeysOk(schema, d)
  {
    match a
    case Allocate =>
    case Submit(ordinal, position, kind, op) => SubmitWrites(schema, c.s, ordinal, position, kind, op, d.s);
    case Direct(op) => DirectWrites(schema, c.s, op, d.s);
    case Extend(ordinal, position, kind, child) => ExtendWrites(schema, c.s, ordinal, position, kind, child);
    case Reject(ids) => TouchedIdentified(schema, c.s, ids);
    case Settle(id, targets, finals) => TouchedIdentified(schema, c.s, {id});
    case Stage(k, incoming, cursor) =>
      StageWrites(schema, c.s, c.held, k, incoming, cursor);
      if Dirty(c.s, k) { DirtyIdentified(schema, c.s, k); }
    case Rebuild(k) =>
      if k !in c.held { DirtyIdentified(schema, c.s, k); }
      RebuildWrites(schema, c.s, k);
  }

  lemma SubmitWrites(schema: Schema, s: State, ordinal: nat, position: nat, kind: OpKind, op: Operation, t: State)
    requires Submitted(s, ordinal, position, kind, op) == Some(t) && Identified(schema, op.key)
    ensures Writes(schema, s, t, op.key)
  {
  }

  lemma DirectWrites(schema: Schema, s: State, op: Operation, t: State)
    requires 1 <= s.nextOrdinal && LocalSteps.Direct(s, op) == Some(t) && Identified(schema, op.key)
    ensures Writes(schema, s, t, op.key)
  {
  }

  lemma TouchedIdentified(schema: Schema, s: State, ids: set<nat>)
    requires Stored(schema, s)
    ensures forall k :: k in LocalSteps.Touched(s, ids) ==> Identified(schema, k)
  {
    forall q | q in s.ops ensures Identified(schema, q.op.key) { assert StoredOp(schema, s, q); }
  }

  lemma RebuildWrites(schema: Schema, s: State, k: Key)
    requires Stored(schema, s) && Identified(schema, k)
    ensures Writes(schema, s, Rebuilding.Rebuild(schema, s, k), k)
  {
    forall other | other != k
      ensures Get(Rebuilding.Rebuild(schema, s, k).main, other) == Get(s.main, other)
      ensures Get(Rebuilding.Rebuild(schema, s, k).before, other) == Get(s.before, other)
    {
      RebuildLeaves(schema, s, k, other);
    }
  }

  lemma ExtendWrites(schema: Schema, s: State, ordinal: nat, position: nat, kind: OpKind, child: Key)
    requires CanQueue(schema, s, {}, ordinal, position, Operation(child, Delete))
    ensures Writes(schema, s, LocalSteps.Extend(schema, s, ordinal, position, kind, child), child)
  {
    var op := Operation(child, Delete);
    QueueStored(schema, s, {}, ordinal, position, kind, op);
    RebuildWrites(schema, Queue(s, ordinal, position, kind, op), child);
  }

  lemma StageWrites(schema: Schema, s: State, held: set<Key>, k: Key, incoming: Option<Row>, cursor: Option<nat>)
    requires Inv(schema, s, held) && TotalState(schema, k, incoming)
    ensures Writes(schema, s, LocalSteps.Stage(s, k, incoming, cursor), k)
  {
    var base := if cursor.Some? then incoming else Adapt(incoming, Layer(s, k));
    if base.Some? { StagedIdentified(schema, s, held, k, incoming); }
    PlaceWrites(schema, s, k, base);
  }

  lemma PlaceWrites(schema: Schema, s: State, k: Key, base: Option<Row>)
    requires base.Some? ==> Identified(schema, k)
    ensures Writes(schema, s, LocalSteps.Place(s, k, base), k)
  {
    forall other | other != k
      ensures Get(LocalSteps.Place(s, k, base).main, other) == Get(s.main, other)
      ensures Get(LocalSteps.Place(s, k, base).before, other) == Get(s.before, other)
    {
      LocalSteps.PlaceOther(s, k, base, other);
    }
  }

  lemma StagedIdentified(schema: Schema, s: State, held: set<Key>, k: Key, incoming: Option<Row>)
    requires Inv(schema, s, held) && TotalState(schema, k, incoming)
    ensures incoming.Some? || Adapt(incoming, Layer(s, k)).Some? ==> Identified(schema, k)
  {
    if incoming.None? && Layer(s, k) != [] {
      assert Sound(schema, s, held, k);
      assert Layer(s, k)[0] in Layer(s, k);
    }
  }

  lemma {:induction false} ReachableKeys(schema: Schema, configs: seq<Config>, actions: seq<Action>)
    requires Run(schema, configs, actions) && configs[0] == Config(EMPTY_STORE, {})
    ensures KeysOk(schema, configs[|actions|])
  {
    var n := |actions|;
    if n > 0 {
      LastStep(schema, configs, actions);
      ReachableInv(schema, configs[..n], actions[..n - 1]);
      ReachableKeys(schema, configs[..n], actions[..n - 1]);
      NextKeepsKeys(schema, configs[n - 1], actions[n - 1], configs[n]);
    }
  }

  /** The same, spelled out for a reachable state between transactions. */
  lemma ReachableShows(schema: Schema, configs: seq<Config>, actions: seq<Action>, k: Key)
    requires Run(schema, configs, actions) && configs[0] == Config(EMPTY_STORE, {})
    requires configs[|actions|].held == {}
    ensures var s := configs[|actions|].s;
      && Stored(schema, s)
      && (!Dirty(s, k) ==> k !in s.before && forall w :: w in s.writes ==> w.op.key != k)
      && (Dirty(s, k) && Replay(Get(s.before, k), Hist(schema, s, k)).Replayed? ==>
        Get(s.main, k) == Replay(Get(s.before, k), Hist(schema, s, k)).row)
      && Get(if Dirty(s, k) then s.before else s.main, k) == FoldSettled(Get(s.authority, k), Layer(s, k))
  {
    ReachableInv(schema, configs, actions);
    var s := configs[|actions|].s;
    assert Sound(schema, s, {}, k);
    assert forall w :: w in s.writes && w.op.key == k ==> Settled(w) in Entries(s, k);
  }

  /** The direct writes of a run to one record, in order. */
  function WritesTo(actions: seq<Action>, k: Key): seq<Operation> {
    if actions == [] then []
    else
      var last := actions[|actions| - 1];
      WritesTo(actions[..|actions| - 1], k) + if last.Direct? && last.op.key == k then [last.op] else []
  }

  lemma TruthStep(schema: Schema, c: Config, a: Action, d: Config, k: Key)
    requires Inv(schema, c.s, c.held) && Next(schema, c, a, d) && !a.Settle? && !a.Stage?
    ensures Inv(schema, d.s, d.held)
    ensures Truth(schema, d.s, d.held, k) ==
      if a.Direct? && a.op.key == k then ApplySettled(Truth(schema, c.s, c.held, k), a.op)
      else Truth(schema, c.s, c.held, k)
  {
    NextKeepsInv(schema, c, a, d);
    assert MovesTruth(schema, c, a, d, k);
  }

  /** Over any run without settlement and new authority - submissions, companions, refusals, drops,
      cascade extensions, rebuilds - a record's truth moves by exactly its direct writes. */
  lemma {:induction false} TruthOverRun(schema: Schema, configs: seq<Config>, actions: seq<Action>, k: Key)
    requires Run(schema, configs, actions) && Inv(schema, configs[0].s, configs[0].held)
    requires forall a :: a in actions ==> !a.Settle? && !a.Stage?
    ensures var end := configs[|actions|];
      && Inv(schema, end.s, end.held)
      && Truth(schema, end.s, end.held, k) ==
         FoldSettled(Truth(schema, configs[0].s, configs[0].held, k), WritesTo(actions, k))
  {
    var n := |actions|;
    if n > 0 {
      var a := actions[n - 1];
      assert a in actions;
      LastStep(schema, configs, actions);
      TruthOverRun(schema, configs[..n], actions[..n - 1], k);
      TruthStep(schema, configs[n - 1], a, configs[n], k);
      var below := WritesTo(actions[..n - 1], k);
      var start := Truth(schema, configs[0].s, configs[0].held, k);
      if a.Direct? && a.op.key == k { FoldAppend(start, below, a.op); } else { assert below + [] == below; }
    }
  }

  /** Once the refusals of a run leave a record with no pending call, its row is its truth: the one
      it had before, with the run's direct writes on it. */
  lemma RefusedShowsTruth(schema: Schema, configs: seq<Config>, actions: seq<Action>, k: Key)
    requires Run(schema, configs, actions) && Inv(schema, configs[0].s, configs[0].held)
    requires forall a :: a in actions ==> !a.Settle? && !a.Stage?
    requires configs[|actions|].held == {} && !Dirty(configs[|actions|].s, k)
    ensures Get(configs[|actions|].s.main, k) ==
      FoldSettled(Truth(schema, configs[0].s, configs[0].held, k), WritesTo(actions, k))
  {
    TruthOverRun(schema, configs, actions, k);
    CleanUnheld(schema, configs[|actions|].s, {}, k);
  }

  lemma RunSuffix(schema: Schema, configs: seq<Config>, actions: seq<Action>, n: nat)
    requires Run(schema, configs, actions) && n <= |actions|
    ensures Run(schema, configs[n..], actions[n..])
  {
    var cs, rest := configs[n..], actions[n..];
    forall i | 0 <= i < |rest| ensures StepAt(schema, cs, rest, i) { assert StepAt(schema, configs, actions, n + i); }
  }

  /** The operation rows, the pending calls and the counter after a step. */
  ghost predicate StepTables(s: State, a: Action, t: State) {
    && t.ops == (match a
                 case Submit(ordinal, position, kind, op) => s.ops + {NewOp(s, ordinal, position, kind, op)}
                 case Extend(ordinal, position, kind, child) =>
                   s.ops + {NewOp(s, ordinal, position, kind, Operation(child, Delete))}
                 case Settle(id, _, _) => set q | q in s.ops && q.ordinal != id
                 case _ => s.ops)
    && t.live == (match a
                  case Allocate => s.live + {s.nextOrdinal}
                  case Reject(ids) => s.live - ids
                  case Settle(id, _, _) => s.live - {id}
                  case _ => s.live)
    && t.nextOrdinal == if a.Allocate? then s.nextOrdinal + 1 else s.nextOrdinal
  }

  lemma StepTablesAre(schema: Schema, c: Config, a: Action, d: Config)
    requires Next(schema, c, a, d)
    ensures StepTables(c.s, a, d.s)
  {
    match a
    case Stage(k, incoming, cursor) => LocalSteps.StageTables(c.s, k, incoming, cursor);
    case Extend(ordinal, position, kind, child) => ExtendTablesAre(schema, c.s, ordinal, position, kind, child);
    case Direct(op) => DirectTablesAre(c.s, op, d.s);
    case _ =>
  }

  lemma DirectTablesAre(s: State, op: Operation, t: State)
    requires 1 <= s.nextOrdinal && LocalSteps.Direct(s, op) == Some(t)
    ensures t.ops == s.ops && t.live == s.live && t.nextOrdinal == s.nextOrdinal && t.evidence == s.evidence
  {
  }

  lemma ExtendTablesAre(schema: Schema, s: State, ordinal: nat, position: nat, kind: OpKind, child: Key)
    requires CanQueue(schema, s, {}, ordinal, position, Operation(child, Delete))
    ensures var t := LocalSteps.Extend(schema, s, ordinal, position, kind, child);
      && t.ops == s.ops + {NewOp(s, ordinal, position, kind, Operation(child, Delete))}
      && t.live == s.live && t.nextOrdinal == s.nextOrdinal && t.evidence == s.evidence
  {
    QueueStored(schema, s, {}, ordinal, position, kind, Operation(child, Delete));
  }

  // ------------------------------------------------------------ which calls pend

  /** Steps that start, refuse and settle no call. */
  predicate Steady(actions: seq<Action>) {
    forall a :: a in actions ==> !a.Allocate? && !a.Reject? && !a.Settle?
  }

  lemma SteadyStep(schema: Schema, c: Config, a: Action, d: Config)
    requires Next(schema, c, a, d) && !a.Allocate? && !a.Reject? && !a.Settle?
    ensures d.s.live == c.s.live && d.s.nextOrdinal == c.s.nextOrdinal
  {
    StepTablesAre(schema, c, a, d);
  }

  lemma {:induction false} SteadyRun(schema: Schema, configs: seq<Config>, actions: seq<Action>)
    requires Run(schema, configs, actions) && Steady(actions)
    ensures configs[|actions|].s.live == configs[0].s.live
    ensures configs[|actions|].s.nextOrdinal == configs[0].s.nextOrdinal
  {
    var n := |actions|;
    if n > 0 {
      var a := actions[n - 1];
      assert a in actions;
      LastStep(schema, configs, actions);
      SteadyRun(schema, configs[..n], actions[..n - 1]);
      SteadyStep(schema, configs[n - 1], a, configs[n]);
    }
  }

  // ----------------------------------------------------------- what a call sends

  ghost function WireEntries(ops: set<QueuedOp>, id: nat): set<Step> {
    set q | q in ops && q.ordinal == id && q.kind == Wire :: Pending(q)
  }

  function OpsOf(steps: seq<Step>): seq<Operation> {
    seq(|steps|, i requires 0 <= i < |steps| => steps[i].Op())
  }

  /** The call's wire rows are these operations, in order. */
  ghost predicate Sends(ops: set<QueuedOp>, id: nat, sent: seq<Operation>) {
    exists steps: seq<Step> :: Lists(steps, WireEntries(ops, id)) && OpsOf(steps) == sent
  }

  lemma SendsOne(ops: set<QueuedOp>, id: nat, a: seq<Operation>, b: seq<Operation>)
    requires Sends(ops, id, a) && Sends(ops, id, b)
    ensures a == b
  {
    var x :| Lists(x, WireEntries(ops, id)) && OpsOf(x) == a;
    var y :| Lists(y, WireEntries(ops, id)) && OpsOf(y) == b;
    ListingUnique(x, y, WireEntries(ops, id));
  }

  lemma SendsNext(ops: set<QueuedOp>, id: nat, sent: seq<Operation>, q: QueuedOp)
    requires Sends(ops, id, sent) && q.ordinal == id && q.kind == Wire
    requires forall p :: p in ops && p.ordinal == id ==> p.position < q.position
    ensures Sends(ops + {q}, id, sent + [q.op])
  {
    var steps :| Lists(steps, WireEntries(ops, id)) && OpsOf(steps) == sent;
    forall x: Step | x in steps ensures Less(x.Order(), Pending(q).Order()) { assert x in WireEntries(ops, id); }
    var longer := steps + [Pending(q)];
    assert WireEntries(ops + {q}, id) == WireEntries(ops, id) + {Pending(q)};
    assert Lists(longer, WireEntries(ops + {q}, id));
    assert OpsOf(longer) == sent + [q.op];
  }

  lemma SendsSame(ops: set<QueuedOp>, more: set<QueuedOp>, id: nat, sent: seq<Operation>)
    requires Sends(ops, id, sent) && WireEntries(more, id) == WireEntries(ops, id)
    ensures Sends(more, id, sent)
  {
    var steps :| Lists(steps, WireEntries(ops, id)) && OpsOf(steps) == sent;
    assert Lists(steps, WireEntries(more, id));
  }

  /** The wire operations a run submits for a call, in order. */
  function SubmittedWires(actions: seq<Action>, id: nat): seq<Operation> {
    if actions == [] then []
    else
      var below, a := SubmittedWires(actions[..|actions| - 1], id), actions[|actions| - 1];
      if a.Submit? && a.ordinal == id && a.kind == Wire then below + [a.op] else below
  }

  lemma {:induction false} SubmittedConcat(a: seq<Action>, b: seq<Action>, id: nat)
    ensures SubmittedWires(a + b, id) == SubmittedWires(a, id) + SubmittedWires(b, id)
  {
    if b == [] {
      assert a + b == a;
    } else {
      assert (a + b)[..|a + b| - 1] == a + b[..|b| - 1];
      SubmittedConcat(a, b[..|b| - 1], id);
    }
  }

  /** Steps that submit no wire operation. */
  predicate Wireless(actions: seq<Action>) {
    forall a :: a in actions ==> a.Submit? ==> a.kind != Wire
  }

  lemma {:induction false} WirelessSubmitsNone(actions: seq<Action>, id: nat)
    requires Wireless(actions)
    ensures SubmittedWires(actions, id) == []
  {
    if actions != [] {
      assert actions[|actions| - 1] in actions;
      WirelessSubmitsNone(actions[..|actions| - 1], id);
    }
  }

  /** What is known of a call's wire rows: all that was submitted, while it pends, and nothing before it starts. */
  ghost predicate SentSoFar(s: State, actions: seq<Action>, id: nat) {
    && (id >= s.nextOrdinal ==> SubmittedWires(actions, id) == [])
    && (id in s.live ==> Sends(s.ops, id, SubmittedWires(actions, id)))
  }

  lemma SentNext(schema: Schema, s: State, a: Action, t: State, actions: seq<Action>, id: nat)
    requires Stored(schema, s) && StepTables(s, a, t) && SentSoFar(s, actions, id)
    requires a.Submit? ==> a.ordinal < s.nextOrdinal && NextPosition(s.ops, a.ordinal, a.position)
    requires a.Extend? ==> a.kind != Wire
    ensures SentSoFar(t, actions + [a], id)
  {
    assert (actions + [a])[..|actions|] == actions;
    if a.Submit? && a.ordinal == id && a.kind == Wire {
      if id in t.live { SendsNext(s.ops, id, SubmittedWires(actions, id), NewOp(s, id, a.position, Wire, a.op)); }
    } else if id in s.live {
      if id in t.live { WiresKept(s, a, t, id); SendsSame(s.ops, t.ops, id, SubmittedWires(actions, id)); }
    } else if id in t.live {
      forall q | q in s.ops ensures q.ordinal != id { assert StoredOp(schema, s, q); }
      assert Lists([], WireEntries(t.ops, id)) && OpsOf([]) == [];
    }
  }

  lemma WiresKept(s: State, a: Action, t: State, id: nat)
    requires StepTables(s, a, t) && id in t.live
    requires !(a.Submit? && a.ordinal == id && a.kind == Wire) && (a.Extend? ==> a.kind != Wire)
    ensures WireEntries(t.ops, id) == WireEntries(s.ops, id)
  {
  }

  lemma SubmitsPending(schema: Schema, c: Config, a: Action, d: Config)
    requires Next(schema, c, a, d)
    ensures Stored(schema, c.s)
    ensures a.Submit? ==> a.ordinal < c.s.nextOrdinal && NextPosition(c.s.ops, a.ordinal, a.position)
    ensures a.Extend? ==> a.kind != Wire
  {
  }

  /** After every run a call that still pends has exactly the wire rows submitted for it, in order: no
      companion, cascade extension, direct write, refusal, settlement of another call, staging or
      rebuild adds, drops or reorders one. */
  lemma {:induction false} PendingSendsWhatWasSubmitted(schema: Schema, configs: seq<Config>, actions: seq<Action>,
                                                        id: nat)
    requires Run(schema, configs, actions) && configs[0] == Config(EMPTY_STORE, {})
    ensures SentSoFar(configs[|actions|].s, actions, id)
  {
    var n := |actions|;
    if n > 0 {
      var below, a := actions[..n - 1], actions[n - 1];
      LastStep(schema, configs, actions);
      PendingSendsWhatWasSubmitted(schema, configs[..n], below, id);
      var c, d := configs[n - 1], configs[n];
      StepTablesAre(schema, c, a, d);
      SubmitsPending(schema, c, a, d);
      SentNext(schema, c.s, a, d.s, below, id);
      assert below + [a] == actions;
    }
  }

  // ----------------------------------------- what a transaction leaves as it looked

  /** A step that does nothing to record `k` but rebuild it, and settle its owned companions. */
  ghost predicate Spares(s: State, a: Action, k: Key) {
    match a
    case Allocate => true
    case Submit(_, _, _, op) => op.key != k
    case Direct(op) => op.key != k
    case Extend(_, _, _, child) => child != k
    case Reject(ids) => k !in LocalSteps.Touched(s, ids)
    case Settle(id, targets, _) => Settlement.OnlyCompanions(s, id, targets, k)
    case Stage(other, _, _) => other != k
    case Rebuild(_) => true
  }

  /** The record shows `row`, and rebuilding it, where that may happen, gives the same. */
  ghost predicate Stays(schema: Schema, c: Config, k: Key, row: Option<Row>) {
    && Inv(schema, c.s, c.held)
    && Get(c.s.main, k) == row
    && (k in c.held || Dirty(c.s, k) ==> Settlement.Shows(schema, c.s, k, Get(c.s.before, k), row))
  }

  /** A step that leaves the record's rows, entries and hold alone leaves it as it looked. */
  lemma SameStays(schema: Schema, c: Config, d: Config, k: Key, row: Option<Row>)
    requires Stays(schema, c, k, row) && Inv(schema, d.s, d.held)
    requires Entries(d.s, k) == Entries(c.s, k) && Dirty(d.s, k) == Dirty(c.s, k) && (k in d.held <==> k in c.held)
    requires Get(d.s.main, k) == Get(c.s.main, k) && Get(d.s.before, k) == Get(c.s.before, k)
    ensures Stays(schema, d, k, row)
  {
    HistSame(schema, c.s, d.s, k);
  }

  lemma SparingStays(schema: Schema, c: Config, a: Action, d: Config, k: Key, row: Option<Row>)
    requires Next(schema, c, a, d) && Spares(c.s, a, k) && Stays(schema, c, k, row)
    ensures Stays(schema, d, k, row)
  {
    NextKeepsInv(schema, c, a, d);
    match a
    case Allocate => AllocateStays(schema, c, d, k, row);
    case Submit(ordinal, position, kind, op) => SubmitStays(schema, c, ordinal, position, kind, op, d, k, row);
    case Direct(op) => DirectStays(schema, c, op, d, k, row);
    case Extend(ordinal, position, kind, child) => ExtendStays(schema, c, ordinal, position, kind, child, d, k, row);
    case Reject(ids) => RejectStays(schema, c, ids, d, k, row);
    case Settle(id, targets, finals) => SettleStays(schema, c, id, targets, finals, d, k, row);
    case Stage(other, incoming, cursor) => StageStays(schema, c, other, incoming, cursor, d, k, row);
    case Rebuild(other) => RebuildStays(schema, c, other, d, k, row);
  }

  lemma AllocateStays(schema: Schema, c: Config, d: Config, k: Key, row: Option<Row>)
    requires Stays(schema, c, k, row) && Inv(schema, d.s, d.held) && Next(schema, c, Allocate, d)
    ensures Stays(schema, d, k, row)
  {
    forall q | q in c.s.ops ensures q.ordinal != c.s.nextOrdinal { assert StoredOp(schema, c.s, q); }
    assert PendingOf(d.s.ops, d.s.live, k) == PendingOf(c.s.ops, c.s.live, k);
    LocalSteps.SameDirty(c.s, d.s, k);
    SameStays(schema, c, d, k, row);
  }

  lemma SubmitStays(schema: Schema, c: Config, ordinal: nat, position: nat, kind: OpKind, op: Operation, d: Config,
                    k: Key, row: Option<Row>)
    requires Stays(schema, c, k, row) && Inv(schema, d.s, d.held) && op.key != k
    requires Next(schema, c, Submit(ordinal, position, kind, op), d)
    ensures Stays(schema, d, k, row)
  {
    QueueEffect(schema, c.s, {}, ordinal, position, kind, op, k);
    SameStays(schema, c, d, k, row);
  }

  lemma DirectStays(schema: Schema, c: Config, op: Operation, d: Config, k: Key, row: Option<Row>)
    requires Stays(schema, c, k, row) && Inv(schema, d.s, d.held) && op.key != k && Next(schema, c, Direct(op), d)
    ensures Stays(schema, d, k, row)
  {
    DirectLeaves(c.s, op, d.s, k);
    LocalSteps.SameDirty(c.s, d.s, k);
    SameStays(schema, c, d, k, row);
  }

  lemma DirectLeaves(s: State, op: Operation, t: State, k: Key)
    requires 1 <= s.nextOrdinal && LocalSteps.Direct(s, op) == Some(t) && op.key != k
    ensures t.ops == s.ops && t.live == s.live && Entries(t, k) == Entries(s, k)
    ensures Get(t.main, k) == Get(s.main, k) && t.before == s.before
  {
    var row := ApplyToRow(Get(s.main, op.key), op).row;
    if Dirty(s, op.key) {
      assert t == LocalSteps.WriteDirty(s, op, row);
    } else {
      assert t == LocalSteps.WriteClean(s, op, row);
    }
    assert SettledOf(t.writes, k) == SettledOf(s.writes, k);
  }

  lemma ExtendStays(schema: Schema, c: Config, ordinal: nat, position: nat, kind: OpKind, child: Key, d: Config, k: Key,
                    row: Option<Row>)
    requires Stays(schema, c, k, row) && Inv(schema, d.s, d.held) && child != k
    requires Next(schema, c, Extend(ordinal, position, kind, child), d)
    ensures Stays(schema, d, k, row)
  {
    ExtendLeaves(schema, c.s, ordinal, position, kind, child, d.s, k);
    SameStays(schema, c, d, k, row);
  }

  lemma ExtendLeaves(schema: Schema, s: State, ordinal: nat, position: nat, kind: OpKind, child: Key, t: State, k: Key)
    requires CanQueue(schema, s, {}, ordinal, position, Operation(child, Delete)) && child != k
    requires t == LocalSteps.Extend(schema, s, ordinal, position, kind, child)
    ensures Entries(t, k) == Entries(s, k) && Dirty(t, k) == Dirty(s, k)
    ensures Get(t.main, k) == Get(s.main, k) && Get(t.before, k) == Get(s.before, k)
  {
    var op := Operation(child, Delete);
    QueueStored(schema, s, {}, ordinal, position, kind, op);
    QueueEffect(schema, s, {}, ordinal, position, kind, op, k);
    RebuildLeaves(schema, Queue(s, ordinal, position, kind, op), child, k);
  }

  lemma RejectStays(schema: Schema, c: Config, ids: set<nat>, d: Config, k: Key, row: Option<Row>)
    requires Stays(schema, c, k, row) && Inv(schema, d.s, d.held)
    requires Next(schema, c, Reject(ids), d) && k !in LocalSteps.Touched(c.s, ids)
    ensures Stays(schema, d, k, row)
  {
    assert PendingOf(d.s.ops, d.s.live, k) == PendingOf(c.s.ops, c.s.live, k);
    LocalSteps.SameDirty(c.s, d.s, k);
    SameStays(schema, c, d, k, row);
  }

  lemma SettleStays(schema: Schema, c: Config, id: nat, targets: set<Key>, finals: map<Key, Change>, d: Config, k: Key,
                    row: Option<Row>)
    requires Stays(schema, c, k, row) && Inv(schema, d.s, d.held)
    requires Next(schema, c, Settle(id, targets, finals), d) && Settlement.OnlyCompanions(c.s, id, targets, k)
    ensures Stays(schema, d, k, row)
  {
    if k in c.held || Dirty(c.s, k) {
      Settlement.SettleKeepsShown(schema, c.s, id, targets, finals, k, Get(c.s.before, k), row);
    } else {
      forall q | q in c.s.ops && q.ordinal in c.s.live ensures q.op.key != k {}
    }
  }

  lemma StageStays(schema: Schema, c: Config, other: Key, incoming: Option<Row>, cursor: Option<nat>, d: Config, k: Key,
                   row: Option<Row>)
    requires Stays(schema, c, k, row) && Inv(schema, d.s, d.held) && other != k
    requires Next(schema, c, Stage(other, incoming, cursor), d)
    ensures Stays(schema, d, k, row)
  {
    LocalSteps.StageShrinks(schema, c.s, other, incoming, cursor);
    LocalSteps.StageLeaves(c.s, other, incoming, cursor, k);
    SameStays(schema, c, d, k, row);
  }

  lemma RebuildStays(schema: Schema, c: Config, other: Key, d: Config, k: Key, row: Option<Row>)
    requires Stays(schema, c, k, row) && Inv(schema, d.s, d.held) && Next(schema, c, Rebuild(other), d)
    ensures Stays(schema, d, k, row)
  {
    if other != k {
      RebuildLeaves(schema, c.s, other, k);
      SameStays(schema, c, d, k, row);
    } else {
      var base, steps := Get(c.s.before, k), Hist(schema, c.s, k);
      var n := Prefix(steps);
      RebuildProjects(schema, c.s, k);
      InstallOwnHistory(schema, c.s, k, RebuildPlan(base, Layer(c.s, k), steps), n);
      FoldingPreserves(base, steps, n);
      RebuiltRows(schema, c.s, c.held, k, d.s);
    }
  }

  ghost predicate SparesAll(configs: seq<Config>, actions: seq<Action>, k: Key) {
    |configs| == |actions| + 1 && forall i :: 0 <= i < |actions| ==> Spares(configs[i].s, actions[i], k)
  }

  lemma SparesLast(configs: seq<Config>, actions: seq<Action>, k: Key)
    requires SparesAll(configs, actions, k) && actions != []
    ensures SparesAll(configs[..|actions|], actions[..|actions| - 1], k)
    ensures Spares(configs[|actions| - 1].s, actions[|actions| - 1], k)
  {
    var n := |actions|;
    assert Spares(configs[n - 1].s, actions[n - 1], k);
    forall i | 0 <= i < n - 1 ensures Spares(configs[..n][i].s, actions[..n - 1][i], k) {
      assert Spares(configs[i].s, actions[i], k);
    }
  }

  lemma {:induction false} SparedStays(schema: Schema, configs: seq<Config>, actions: seq<Action>, k: Key,
                                       row: Option<Row>)
    requires Run(schema, configs, actions) && SparesAll(configs, actions, k) && Stays(schema, configs[0], k, row)
    ensures Stays(schema, configs[|actions|], k, row)
  {
    var n := |actions|;
    if n > 0 {
      var c, a, d := configs[n - 1], actions[n - 1], configs[n];
      LastStep(schema, configs, actions);
      SparesLast(configs, actions, k);
      SparedStays(schema, configs[..n], actions[..n - 1], k, row);
      SparingStays(schema, c, a, d, k, row);
    }
  }

  /** Over any steps that write, extend, stage and refuse only other records, settle any number of calls
      touching `k` only through owned companions, and rebuild whatever they like, `k` shows the row it
      showed; and a rebuild at the end would show it again and report nothing. */
  lemma SettlementsInvisible(schema: Schema, configs: seq<Config>, actions: seq<Action>, k: Key)
    requires Run(schema, configs, actions) && SparesAll(configs, actions, k)
    requires var c := configs[0];
      && Inv(schema, c.s, c.held) && k !in c.held
      && (Dirty(c.s, k) ==> Replay(Get(c.s.before, k), Hist(schema, c.s, k)).Replayed?)
    ensures var end := configs[|actions|];
      && Inv(schema, end.s, end.held)
      && Get(end.s.main, k) == Get(configs[0].s.main, k)
      && (k in end.held || Dirty(end.s, k) ==>
        && Get(Rebuilding.Rebuild(schema, end.s, k).main, k) == Get(configs[0].s.main, k)
        && Rebuilding.Rebuild(schema, end.s, k).diverged == end.s.diverged)
  {
    var c, row := configs[0], Get(configs[0].s.main, k);
    if Dirty(c.s, k) { Settlement.DirtyShows(schema, c.s, c.held, k); }
    SparedStays(schema, configs, actions, k, row);
    var end := configs[|actions|];
    if k in end.held || Dirty(end.s, k) {
      Settlement.RebuildShows(schema, end.s, k, Get(end.s.before, k), row);
    }
  }

  // --------------------------------------------------- newer authority, and none

  /** A step that neither writes `k` locally nor stages it. It may settle and refuse calls on it. */
  predicate Foreign(a: Action, k: Key) {
    match a
    case Submit(_, _, _, op) => op.key != k
    case Direct(op) => op.key != k
    case Extend(_, _, _, child) => child != k
    case Stage(other, _, _) => other != k
    case _ => true
  }

  /** The record is the staged one, with nothing settled on it and every operation on it older. */
  ghost predicate Superseded(schema: Schema, c: Config, k: Key, incoming: Option<Row>) {
    && Inv(schema, c.s, c.held)
    && Get(c.s.authority, k) == incoming && Layer(c.s, k) == [] && SettledOf(c.s.writes, k) == {}
    && forall q :: q in c.s.ops && q.op.key == k ==> q.owned < Evidence(c.s, k)
  }

  /** The record's own tables did not gain anything. */
  ghost predicate Untouching(s: State, t: State, k: Key) {
    && Get(t.authority, k) == Get(s.authority, k) && Layer(t, k) == Layer(s, k)
    && Evidence(t, k) == Evidence(s, k)
    && SettledOf(t.writes, k) <= SettledOf(s.writes, k)
    && forall q :: q in t.ops && q.op.key == k ==> q in s.ops
  }

  lemma ForeignStep(schema: Schema, c: Config, a: Action, d: Config, k: Key, incoming: Option<Row>)
    requires Next(schema, c, a, d) && Superseded(schema, c, k, incoming) && Foreign(a, k)
    ensures Superseded(schema, d, k, incoming)
  {
    NextKeepsInv(schema, c, a, d);
    match a
    case Allocate =>
    case Submit(_, _, _, _) =>
    case Direct(op) => ForeignDirect(c.s, op, d.s, k);
    case Extend(ordinal, position, kind, child) => ForeignExtend(schema, c.s, ordinal, position, kind, child, d.s, k);
    case Reject(_) =>
    case Settle(id, targets, finals) => ForeignSettle(schema, c.s, id, targets, finals, k);
    case Stage(other, incoming', cursor) => ForeignStage(schema, c.s, other, incoming', cursor, k);
    case Rebuild(other) => ForeignRebuild(schema, c.s, other, k);
  }

  lemma ForeignDirect(s: State, op: Operation, t: State, k: Key)
    requires 1 <= s.nextOrdinal && LocalSteps.Direct(s, op) == Some(t) && op.key != k
    ensures Untouching(s, t, k)
  {
    var row := ApplyToRow(Get(s.main, op.key), op).row;
    if Dirty(s, op.key) {
      assert t == LocalSteps.WriteDirty(s, op, row);
    } else {
      assert t == LocalSteps.WriteClean(s, op, row);
    }
  }

  lemma ForeignExtend(schema: Schema, s: State, ordinal: nat, position: nat, kind: OpKind, child: Key, t: State, k: Key)
    requires CanQueue(schema, s, {}, ordinal, position, Operation(child, Delete)) && child != k
    requires t == LocalSteps.Extend(schema, s, ordinal, position, kind, child)
    ensures Untouching(s, t, k)
  {
    var queued := Queue(s, ordinal, position, kind, Operation(child, Delete));
    QueueStored(schema, s, {}, ordinal, position, kind, Operation(child, Delete));
    ForeignRebuild(schema, queued, child, k);
  }

  lemma ForeignSettle(schema: Schema, s: State, id: nat, targets: set<Key>, finals: map<Key, Change>, k: Key)
    requires forall q :: q in s.ops && q.op.key == k ==> q.owned < Evidence(s, k)
    ensures Untouching(s, Settlement.Settle(s, id, targets, finals), k)
  {
    var t := Settlement.Settle(s, id, targets, finals);
    forall w | w in t.writes && w.op.key == k ensures w in s.writes {
      Settlement.SettledWritesExactly(s, id, targets, finals, w);
    }
  }

  lemma ForeignStage(schema: Schema, s: State, other: Key, incoming: Option<Row>, cursor: Option<nat>, k: Key)
    requires Stored(schema, s) && other != k
    ensures Untouching(s, LocalSteps.Stage(s, other, incoming, cursor), k)
  {
    LocalSteps.StageShrinks(schema, s, other, incoming, cursor);
    LocalSteps.StageLeaves(s, other, incoming, cursor, k);
  }

  /** A rebuild folds nothing into a record that has nothing settled, and nothing into any other. */
  lemma ForeignRebuild(schema: Schema, s: State, other: Key, k: Key)
    requires Stored(schema, s) && (other == k ==> SettledOf(s.writes, k) == {})
    ensures Untouching(s, Rebuilding.Rebuild(schema, s, other), k)
  {
    if other != k {
      RebuildLeaves(schema, s, other, k);
    } else {
      var steps := Hist(schema, s, k);
      forall x | x in steps ensures x.Pending? { assert x in Entries(s, k); }
      assert steps != [] ==> steps[0].Pending?;
      assert steps[..Prefix(steps)] == [];
    }
  }

  lemma {:induction false} ForeignRun(schema: Schema, configs: seq<Config>, actions: seq<Action>, k: Key,
                                      incoming: Option<Row>)
    requires Run(schema, configs, actions) && Superseded(schema, configs[0], k, incoming)
    requires forall a :: a in actions ==> Foreign(a, k)
    ensures Superseded(schema, configs[|actions|], k, incoming)
  {
    var n := |actions|;
    if n > 0 {
      var c, a, d := configs[n - 1], actions[n - 1], configs[n];
      assert a in actions;
      LastStep(schema, configs, actions);
      ForeignRun(schema, configs[..n], actions[..n - 1], k, incoming);
      ForeignStep(schema, c, a, d, k, incoming);
    }
  }

  lemma StagedSupersedes(schema: Schema, c: Config, k: Key, incoming: Option<Row>, position: nat, d: Config)
    requires Inv(schema, c.s, c.held) && Next(schema, c, Stage(k, incoming, Some(position)), d)
    requires position > Evidence(c.s, k)
    ensures Superseded(schema, d, k, incoming)
  {
    NextKeepsInv(schema, c, Stage(k, incoming, Some(position)), d);
    LocalSteps.StageTables(c.s, k, incoming, Some(position));
    forall q | q in c.s.ops && q.op.key == k ensures q.owned < position { assert StoredOp(schema, c.s, q); }
    if Dirty(c.s, k) {
      LocalSteps.WithoutWritesOther(c.s.writes, k);
    } else {
      CleanUnheld(schema, c.s, c.held, k);
    }
  }

  lemma {:induction false} NoneSettled(base: Option<Row>, steps: seq<Step>)
    requires forall x :: x in steps ==> x.Pending?
    ensures SettledView(base, steps) == base
  {
    if steps != [] {
      assert steps[|steps| - 1] in steps;
      NoneSettled(base, steps[..|steps| - 1]);
    }
  }

  /** Newer authority takes everything local away that was on the record when it landed. Over any run that
      follows without local writes to the record and without further authority for it - settling and
      refusing any calls, also calls with companions or receipts for it - its truth is the staged row,
      and that is what it shows once no pending call is left on it. */
  lemma NewerAuthorityPrevails(schema: Schema, configs: seq<Config>, actions: seq<Action>, k: Key,
                               incoming: Option<Row>, position: nat)
    requires Run(schema, configs, actions) && Inv(schema, configs[0].s, configs[0].held)
    requires actions != [] && actions[0] == Stage(k, incoming, Some(position)) && position > Evidence(configs[0].s, k)
    requires forall i :: 1 <= i < |actions| ==> Foreign(actions[i], k)
    ensures var end := configs[|actions|];
      && Inv(schema, end.s, end.held) && Truth(schema, end.s, end.held, k) == incoming
      && (!Dirty(end.s, k) && k !in end.held ==> Get(end.s.main, k) == incoming)
  {
    assert StepAt(schema, configs, actions, 0);
    StagedSupersedes(schema, configs[0], k, incoming, position, configs[1]);
    RunSuffix(schema, configs, actions, 1);
    forall a | a in actions[1..] ensures Foreign(a, k) {
      var i :| 0 <= i < |actions[1..]| && actions[1..][i] == a;
      assert actions[1..][i] == actions[i + 1];
    }
    ForeignRun(schema, configs[1..], actions[1..], k, incoming);
    SupersededTruth(schema, configs[|actions|], k, incoming);
  }

  lemma SupersededTruth(schema: Schema, c: Config, k: Key, incoming: Option<Row>)
    requires Superseded(schema, c, k, incoming)
    ensures Truth(schema, c.s, c.held, k) == incoming
    ensures !Dirty(c.s, k) && k !in c.held ==> Get(c.s.main, k) == incoming
  {
    assert Sound(schema, c.s, c.held, k);
    var steps := Hist(schema, c.s, k);
    forall x | x in steps ensures x.Pending? { assert x in Entries(c.s, k); }
    NoneSettled(Base(c.s, c.held, k), steps);
  }

  /** The call's operation is still stored while it pends, under the authority it was stored under. */
  ghost predicate Keeps(c: Config, ordinal: nat, q: QueuedOp) {
    && ordinal < c.s.nextOrdinal && q.ordinal == ordinal && q.owned == Evidence(c.s, q.op.key)
    && (ordinal in c.s.live ==> q in c.s.ops)
  }

  /** A step that brings no newer authority for `k`. */
  predicate Unsuperseding(a: Action, k: Key) {
    a.Stage? && a.key == k ==> a.cursor.None?
  }

  lemma KeepsStep(schema: Schema, c: Config, a: Action, d: Config, ordinal: nat, q: QueuedOp)
    requires Next(schema, c, a, d) && Keeps(c, ordinal, q) && Unsuperseding(a, q.op.key)
    ensures Keeps(d, ordinal, q)
  {
    StepTablesAre(schema, c, a, d);
    EvidenceStays(schema, c, a, d, q.op.key);
  }

  lemma EvidenceStays(schema: Schema, c: Config, a: Action, d: Config, k: Key)
    requires Next(schema, c, a, d) && Unsuperseding(a, k)
    ensures Evidence(d.s, k) == Evidence(c.s, k)
  {
    match a
    case Extend(ordinal, position, kind, child) => ExtendTablesAre(schema, c.s, ordinal, position, kind, child);
    case _ =>
  }

  lemma {:induction false} KeepsRun(schema: Schema, configs: seq<Config>, actions: seq<Action>, ordinal: nat,
                                    q: QueuedOp)
    requires Run(schema, configs, actions) && Keeps(configs[0], ordinal, q)
    requires forall a :: a in actions ==> Unsuperseding(a, q.op.key)
    ensures Keeps(configs[|actions|], ordinal, q)
  {
    var n := |actions|;
    if n > 0 {
      var c, a, d := configs[n - 1], actions[n - 1], configs[n];
      assert a in actions;
      LastStep(schema, configs, actions);
      KeepsRun(schema, configs[..n], actions[..n - 1], ordinal, q);
      KeepsStep(schema, c, a, d, ordinal, q);
    }
  }

  ghost predicate StandsAt(s: State, w: LocalWrite, ordinal: nat, position: nat, op: Operation) {
    w in s.writes && w.kind == Accepted && w.ordinal == ordinal && w.position == position && w.op == op
  }

  /** And without newer authority nothing is taken away: whatever else happens until its call settles, a
      companion on no target stays as a settled write at its place. */
  lemma CompanionStays(schema: Schema, configs: seq<Config>, actions: seq<Action>, ordinal: nat, position: nat,
                       op: Operation, targets: set<Key>, finals: map<Key, Change>)
    requires Run(schema, configs, actions)
    requires actions != [] && actions[0] == Submit(ordinal, position, Companion, op)
    requires forall i :: 1 <= i < |actions| ==> Unsuperseding(actions[i], op.key)
    requires ordinal in configs[|actions|].s.live && op.key !in targets
    ensures var t := Settlement.Settle(configs[|actions|].s, ordinal, targets, finals);
      exists w :: StandsAt(t, w, ordinal, position, op)
  {
    var q, end := NewOp(configs[0].s, ordinal, position, Companion, op), configs[|actions|];
    assert StepAt(schema, configs, actions, 0);
    RunSuffix(schema, configs, actions, 1);
    forall a | a in actions[1..] ensures Unsuperseding(a, op.key) {
      var i :| 0 <= i < |actions[1..]| && actions[1..][i] == a;
      assert actions[1..][i] == actions[i + 1];
    }
    KeepsRun(schema, configs[1..], actions[1..], ordinal, q);
    var w := LocalWrite(q.sequence, ordinal, position, Accepted, op);
    assert Settlement.Becomes(end.s, ordinal, targets, finals, q, w);
    Settlement.SettledWritesExactly(end.s, ordinal, targets, finals, w);
    assert StandsAt(Settlement.Settle(end.s, ordinal, targets, finals), w, ordinal, position, op);
  }
}
