/** Settling an accepted call: what of it stays, and where. */
module Settlement {
  import opened Rows
  import opened History
  import opened Replica
  import opened Rebuilding
  import opened LocalSteps

  /** No newer authority landed on the record since the operation was stored. */
  predicate Owned(s: State, q: QueuedOp) {
    OwnedUnder(s.evidence, q)
  }

  predicate OwnedUnder(evidence: map<Key, nat>, q: QueuedOp) {
    EvidenceIn(evidence, q.op.key) <= q.owned
  }

  function AcceptedWrite(q: QueuedOp, op: Operation): LocalWrite {
    LocalWrite(q.sequence, q.ordinal, q.position, Accepted, op)
  }

  /** The call's last wire operation on its record: a finalized target takes that place. */
  predicate LastWire(ops: set<QueuedOp>, id: nat, q: QueuedOp) {
    && q in ops && q.ordinal == id && q.kind == Wire
    && forall p :: p in ops && p.ordinal == id && p.kind == Wire && p.op.key == q.op.key ==> p.position <= q.position
  }

  function Snapshots(s: State, id: nat, finals: map<Key, Change>): set<LocalWrite> {
    set q | q in s.ops && LastWire(s.ops, id, q) && q.op.key in finals && Owned(s, q) ::
      AcceptedWrite(q, Operation(q.op.key, finals[q.op.key]))
  }

  function Companions(s: State, id: nat, targets: set<Key>): set<LocalWrite> {
    CompanionsAmong(s.ops, s, id, targets)
  }

  function CompanionsAmong(rows: set<QueuedOp>, s: State, id: nat, targets: set<Key>): set<LocalWrite> {
    set q | q in rows && q.ordinal == id && q.kind == Companion && q.op.key !in targets && Owned(s, q) ::
      AcceptedWrite(q, q.op)
  }

  lemma CompanionsNext(rows: set<QueuedOp>, rest: set<QueuedOp>, s: State, id: nat, targets: set<Key>, q: QueuedOp)
    requires q in rest && rest <= rows
    ensures CompanionsAmong(rows - (rest - {q}), s, id, targets) ==
      CompanionsAmong(rows - rest, s, id, targets)
      + if q.ordinal == id && q.kind == Companion && q.op.key !in targets && Owned(s, q)
        then {AcceptedWrite(q, q.op)} else {}
  {
    assert rows - (rest - {q}) == (rows - rest) + {q};
  }

  lemma CompanionsSame(s: State, t: State, id: nat, targets: set<Key>)
    requires t.ops == s.ops && t.evidence == s.evidence
    ensures Companions(t, id, targets) == Companions(s, id, targets)
  {
  }

  /** The call wrote the record itself. */
  ghost predicate OwnsTarget(ops: set<QueuedOp>, id: nat, k: Key) {
    exists q :: q in ops && q.ordinal == id && q.kind == Wire && q.op.key == k
  }

  lemma SnapshotsNext(s: State, id: nat, finals: map<Key, Change>, rest: set<Key>, k: Key, last: QueuedOp)
    requires Keyed(s.ops) && k in rest && rest <= finals.Keys && LastWire(s.ops, id, last) && last.op.key == k
    ensures Snapshots(s, id, finals - (rest - {k})) ==
      Snapshots(s, id, finals - rest) + if Owned(s, last) then {AcceptedWrite(last, Operation(k, finals[k]))} else {}
  {
    forall q | LastWire(s.ops, id, q) && q.op.key == k ensures q == last {
      assert q.ordinal == last.ordinal && q.position == last.position;
    }
  }

  /** `finals` are the targets the receipt finalizes, with their snapshots; the other targets have
      authority of their own. The call's operations go, its owned companions stay as settled writes. */
  function Settle(s: State, id: nat, targets: set<Key>, finals: map<Key, Change>): State {
    s.(live := s.live - {id},
       ops := (set q | q in s.ops && q.ordinal != id),
       writes := s.writes + Snapshots(s, id, finals) + Companions(s, id, targets))
  }

  /** What a settlement makes of one stored operation: a settled write at its place, when its record had
      then the largest authority position it has now. A companion on no target stays as it is, the last
      wire operation on a finalized target becomes the receipt's snapshot. */
  ghost predicate Becomes(s: State, id: nat, targets: set<Key>, finals: map<Key, Change>, q: QueuedOp, w: LocalWrite) {
    && q in s.ops && q.ordinal == id
    && (q.op.key in s.evidence ==> s.evidence[q.op.key] <= q.owned)
    && w.sequence == q.sequence && w.ordinal == id && w.position == q.position && w.kind == Accepted
    && w.op.key == q.op.key
    && match q.kind
       case Companion => q.op.key !in targets && w.op.change == q.op.change
       case Wire =>
         && q.op.key in finals && w.op.change == finals[q.op.key]
         && forall p :: p in s.ops && p.ordinal == id && p.kind == Wire && p.op.key == q.op.key ==>
           p.position <= q.position
       case Effect => false
  }

  /** The journal after a settlement holds exactly these writes besides its own. */
  lemma SettledWritesExactly(s: State, id: nat, targets: set<Key>, finals: map<Key, Change>, w: LocalWrite)
    ensures w in Settle(s, id, targets, finals).writes <==>
      w in s.writes || exists q :: Becomes(s, id, targets, finals, q, w)
  {
    if w in Snapshots(s, id, finals) { SnapshotBecomes(s, id, targets, finals, w); }
    if w in Companions(s, id, targets) { CompanionBecomes(s, id, targets, finals, w); }
    if q :| Becomes(s, id, targets, finals, q, w) { BecomesStored(s, id, targets, finals, q, w); }
  }

  lemma SnapshotBecomes(s: State, id: nat, targets: set<Key>, finals: map<Key, Change>, w: LocalWrite)
    requires w in Snapshots(s, id, finals)
    ensures exists q :: Becomes(s, id, targets, finals, q, w)
  {
    var q :| q in s.ops && LastWire(s.ops, id, q) && q.op.key in finals && Owned(s, q)
      && w == AcceptedWrite(q, Operation(q.op.key, finals[q.op.key]));
    assert w == AcceptedWrite(q, Operation(q.op.key, finals[q.op.key]));
    assert Becomes(s, id, targets, finals, q, w);
  }

  lemma CompanionBecomes(s: State, id: nat, targets: set<Key>, finals: map<Key, Change>, w: LocalWrite)
    requires w in Companions(s, id, targets)
    ensures exists q :: Becomes(s, id, targets, finals, q, w)
  {
    var q :| q in s.ops && q.ordinal == id && q.kind == Companion && q.op.key !in targets && Owned(s, q)
      && w == AcceptedWrite(q, q.op);
    assert w == AcceptedWrite(q, q.op);
    assert Becomes(s, id, targets, finals, q, w);
  }

  lemma BecomesStored(s: State, id: nat, targets: set<Key>, finals: map<Key, Change>, q: QueuedOp, w: LocalWrite)
    requires Becomes(s, id, targets, finals, q, w)
    ensures w in Snapshots(s, id, finals) + Companions(s, id, targets)
  {
    if q.kind == Companion {
      assert w == AcceptedWrite(q, q.op);
    } else {
      assert LastWire(s.ops, id, q) && w == AcceptedWrite(q, Operation(q.op.key, finals[q.op.key]));
    }
  }

  predicate CanSettle(schema: Schema, s: State, id: nat, targets: set<Key>, finals: map<Key, Change>) {
    && id in s.live
    && finals.Keys <= targets
    && forall k :: k in finals ==> !finals[k].Update? && Normalized(schema, Operation(k, finals[k]))
  }

  lemma SettleStored(schema: Schema, s: State, id: nat, targets: set<Key>, finals: map<Key, Change>)
    requires Stored(schema, s) && CanSettle(schema, s, id, targets, finals)
    ensures Stored(schema, Settle(s, id, targets, finals))
  {
    var t := Settle(s, id, targets, finals);
    forall w | w in t.writes && w !in s.writes ensures exists q :: FromCall(schema, s, id, q, w) {
      NewFromCall(schema, s, id, targets, finals, w);
    }
    SettleSequenced(schema, s, id, targets, finals);
    forall q | q in t.ops ensures StoredOp(schema, t, q) { assert StoredOp(schema, s, q); }
    forall w | w in t.writes ensures StoredWrite(schema, t, w) {
      if w in s.writes {
        assert StoredWrite(schema, s, w);
      } else {
        var q :| FromCall(schema, s, id, q, w);
        assert StoredOp(schema, s, q);
      }
    }
  }

  ghost predicate FromCall(schema: Schema, s: State, id: nat, q: QueuedOp, w: LocalWrite) {
    q in s.ops && q.ordinal == id && w == AcceptedWrite(q, w.op) && w.op.key == q.op.key && Normalized(schema, w.op)
  }

  lemma NewFromCall(schema: Schema, s: State, id: nat, targets: set<Key>, finals: map<Key, Change>, w: LocalWrite)
    requires Stored(schema, s) && CanSettle(schema, s, id, targets, finals)
    requires w in Snapshots(s, id, finals) + Companions(s, id, targets)
    ensures exists q :: FromCall(schema, s, id, q, w)
  {
    if w in Snapshots(s, id, finals) {
      var q :| q in s.ops && LastWire(s.ops, id, q) && q.op.key in finals
        && w == AcceptedWrite(q, Operation(q.op.key, finals[q.op.key]));
      assert w == AcceptedWrite(q, Operation(q.op.key, finals[q.op.key]));
      assert FromCall(schema, s, id, q, w);
    } else {
      var q :| q in s.ops && q.ordinal == id && w == AcceptedWrite(q, q.op);
      assert w == AcceptedWrite(q, q.op) && StoredOp(schema, s, q);
      assert FromCall(schema, s, id, q, w);
    }
  }

  lemma SettleSequenced(schema: Schema, s: State, id: nat, targets: set<Key>, finals: map<Key, Change>)
    requires Stored(schema, s) && CanSettle(schema, s, id, targets, finals)
    ensures Keyed(Settle(s, id, targets, finals).ops)
    ensures Sequenced(Settle(s, id, targets, finals).ops, Settle(s, id, targets, finals).writes)
  {
    var t := Settle(s, id, targets, finals);
    forall a, b | a in t.writes && b in t.writes && a.sequence == b.sequence ensures a == b {
      if a !in s.writes { NewFromCall(schema, s, id, targets, finals, a); }
      if b !in s.writes { NewFromCall(schema, s, id, targets, finals, b); }
    }
    forall q, w | q in t.ops && w in t.writes ensures q.sequence != w.sequence {
      if w !in s.writes { NewFromCall(schema, s, id, targets, finals, w); }
    }
  }

  /** Settling touches only the call's own records, and no base; those then wait to be rebuilt. */
  lemma SettleKeepsInv(schema: Schema, s: State, held: set<Key>, id: nat, targets: set<Key>, finals: map<Key, Change>)
    requires Inv(schema, s, held) && CanSettle(schema, s, id, targets, finals)
    ensures Inv(schema, Settle(s, id, targets, finals), held + Touched(s, {id}))
  {
    var t := Settle(s, id, targets, finals);
    SettleStored(schema, s, id, targets, finals);
    forall k ensures Sound(schema, t, held + Touched(s, {id}), k) {
      SettleKeeps(schema, s, held, id, targets, finals, t, k);
    }
  }

  lemma SettleKeeps(schema: Schema, s: State, held: set<Key>, id: nat, targets: set<Key>, finals: map<Key, Change>,
                    t: State, k: Key)
    requires Inv(schema, s, held) && CanSettle(schema, s, id, targets, finals)
    requires t == Settle(s, id, targets, finals) && Stored(schema, t)
    ensures Sound(schema, t, held + Touched(s, {id}), k)
  {
    assert Sound(schema, s, held, k);
    if k in Touched(s, {id}) {
      var q :| q in s.ops && q.ordinal in {id} && q.ordinal in s.live && q.op.key == k;
      assert Dirty(s, k);
    } else {
      forall q | q in s.ops && q.ordinal == id ensures q.op.key != k { assert q.op.key in Touched(s, {id}); }
      forall w | w in t.writes && w !in s.writes ensures w.op.key != k {
        NewFromCall(schema, s, id, targets, finals, w);
      }
      assert PendingOf(t.ops, t.live, k) == PendingOf(s.ops, s.live, k);
      assert SettledOf(t.writes, k) == SettledOf(s.writes, k);
      SameDirty(s, t, k);
      Untouched(schema, s, held, t, held + Touched(s, {id}), k);
    }
  }

  // ----------------------------------------- companions settle where they stood

  /** The call's pending operations of a history as settled writes at the same place. */
  function ConvertStep(x: Step, id: nat): Step {
    if x.Pending? && x.queued.ordinal == id then Settled(AcceptedWrite(x.queued, x.queued.op)) else x
  }

  function Convert(steps: seq<Step>, id: nat): seq<Step> {
    seq(|steps|, i requires 0 <= i < |steps| => ConvertStep(steps[i], id))
  }

  lemma {:induction false} ConvertReplays(base: Option<Row>, steps: seq<Step>, id: nat)
    requires Replay(base, steps).Replayed?
    ensures Replay(base, Convert(steps, id)) == Replay(base, steps)
  {
    if steps != [] {
      var n := |steps| - 1;
      assert Convert(steps, id)[..n] == Convert(steps[..n], id);
      ConvertReplays(base, steps[..n], id);
    }
  }

  /** Every operation of call `id` on `k` is a companion stored under the authority `k` still has, and `k`
      is no target. */
  ghost predicate OnlyCompanions(s: State, id: nat, targets: set<Key>, k: Key) {
    && k !in targets
    && forall q :: q in s.ops && q.ordinal == id && q.op.key == k ==> q.kind == Companion && Evidence(s, k) <= q.owned
  }

  lemma ConvertLists(schema: Schema, s: State, id: nat, targets: set<Key>, finals: map<Key, Change>, t: State, k: Key)
    requires Stored(schema, s) && CanSettle(schema, s, id, targets, finals) && OnlyCompanions(s, id, targets, k)
    requires t == Settle(s, id, targets, finals) && Stored(schema, t)
    ensures Hist(schema, t, k) == Convert(Hist(schema, s, k), id)
  {
    var c := Convert(Hist(schema, s, k), id);
    ConvertMembers(schema, s, id, targets, finals, t, k);
    ConvertOrdered(schema, s, id, k);
    HistIs(schema, t, k, c);
  }

  lemma ConvertMembers(schema: Schema, s: State, id: nat, targets: set<Key>, finals: map<Key, Change>, t: State, k: Key)
    requires Stored(schema, s) && CanSettle(schema, s, id, targets, finals) && OnlyCompanions(s, id, targets, k)
    requires t == Settle(s, id, targets, finals)
    ensures forall x :: x in Convert(Hist(schema, s, k), id) <==> x in Entries(t, k)
  {
    var h := Hist(schema, s, k);
    var c := Convert(h, id);
    forall x ensures x in c <==> x in Entries(t, k) {
      if x in c {
        var i :| 0 <= i < |c| && c[i] == x;
        ConvertedEntry(schema, s, id, targets, finals, t, k, h[i]);
      }
      if x in Entries(t, k) {
        var y := OriginOf(schema, s, id, targets, finals, t, k, x);
        var i :| 0 <= i < |h| && h[i] == y;
        assert c[i] == x;
      }
    }
  }

  lemma ConvertOrdered(schema: Schema, s: State, id: nat, k: Key)
    requires Stored(schema, s) && id in s.live
    ensures Ordered(Convert(Hist(schema, s, k), id))
  {
    var h := Hist(schema, s, k);
    var c := Convert(h, id);
    forall i, j | 0 <= i < j < |c| ensures Less(c[i].Order(), c[j].Order()) {
      assert h[i] in Entries(s, k) && h[j] in Entries(s, k);
      ConvertKeepsOrder(schema, s, id, h[i], h[j]);
    }
  }

  lemma ConvertKeepsOrder(schema: Schema, s: State, id: nat, a: Step, b: Step)
    requires Stored(schema, s) && id in s.live && Less(a.Order(), b.Order())
    requires a.Pending? ==> a.queued in s.ops
    requires b.Pending? ==> b.queued in s.ops
    requires a.Settled? ==> StoredWrite(schema, s, a.write)
    requires b.Settled? ==> StoredWrite(schema, s, b.write)
    ensures Less(ConvertStep(a, id).Order(), ConvertStep(b, id).Order())
  {
  }

  lemma ConvertedEntry(schema: Schema, s: State, id: nat, targets: set<Key>, finals: map<Key, Change>, t: State, k: Key,
                       x: Step)
    requires Stored(schema, s) && CanSettle(schema, s, id, targets, finals) && OnlyCompanions(s, id, targets, k)
    requires t == Settle(s, id, targets, finals) && x in Entries(s, k)
    ensures ConvertStep(x, id) in Entries(t, k)
  {
    if x.Pending? && x.queued.ordinal == id {
      var w := AcceptedWrite(x.queued, x.queued.op);
      assert w in Companions(s, id, targets);
      assert w in t.writes;
    }
  }

  lemma SnapshotIsWire(s: State, id: nat, finals: map<Key, Change>, w: LocalWrite)
    requires w in Snapshots(s, id, finals)
    ensures exists p :: p in s.ops && p.ordinal == id && p.kind == Wire && p.op.key == w.op.key
  {
    var p :| p in s.ops && LastWire(s.ops, id, p) && p.op.key in finals
      && w == AcceptedWrite(p, Operation(p.op.key, finals[p.op.key]));
    assert w == AcceptedWrite(p, Operation(p.op.key, finals[p.op.key]));
  }

  lemma OriginOf(schema: Schema, s: State, id: nat, targets: set<Key>, finals: map<Key, Change>, t: State, k: Key,
                 x: Step)
    returns (y: Step)
    requires Stored(schema, s) && CanSettle(schema, s, id, targets, finals) && OnlyCompanions(s, id, targets, k)
    requires t == Settle(s, id, targets, finals) && x in Entries(t, k)
    ensures y in Entries(s, k) && ConvertStep(y, id) == x
  {
    y := x;
    if x.Settled? && x.write !in s.writes {
      if x.write in Snapshots(s, id, finals) {
        SnapshotIsWire(s, id, finals, x.write);
        assert false;
      }
      var q :| q in s.ops && q.ordinal == id && q.kind == Companion && x.write == AcceptedWrite(q, q.op);
      assert x.write == AcceptedWrite(q, q.op);
      y := Pending(q);
    }
  }

  /** A record's history replays over its before-image to its visible row. */
  ghost predicate Shows(schema: Schema, s: State, k: Key, base: Option<Row>, row: Option<Row>) {
    && Stored(schema, s)
    && Get(s.before, k) == base && Get(s.main, k) == row
    && Replay(base, Hist(schema, s, k)) == Replayed(row)
  }

  /** Settling an accepted call leaves every record it touches only through companions as it looked:
      the companions become settled writes at the same `(ordinal, position)`, and the history replays
      to the same row. */
  lemma SettleKeepsShown(schema: Schema, s: State, id: nat, targets: set<Key>, finals: map<Key, Change>, k: Key,
                         base: Option<Row>, row: Option<Row>)
    requires Shows(schema, s, k, base, row) && CanSettle(schema, s, id, targets, finals)
    requires OnlyCompanions(s, id, targets, k)
    ensures Shows(schema, Settle(s, id, targets, finals), k, base, row)
    ensures Hist(schema, Settle(s, id, targets, finals), k) == Convert(Hist(schema, s, k), id)
  {
    SettleStored(schema, s, id, targets, finals);
    ConvertLists(schema, s, id, targets, finals, Settle(s, id, targets, finals), k);
    ConvertReplays(base, Hist(schema, s, k), id);
  }

  /** The rebuild of such a record shows the row that was visible. */
  lemma RebuildShows(schema: Schema, s: State, k: Key, base: Option<Row>, row: Option<Row>)
    requires Shows(schema, s, k, base, row)
    ensures Get(Rebuild(schema, s, k).main, k) == row
    ensures Rebuild(schema, s, k).diverged == s.diverged
  {
    RebuildProjects(schema, s, k);
  }

  /** A dirty record no rebuild is owed to, and whose history replays, shows that replay. */
  lemma DirtyShows(schema: Schema, s: State, held: set<Key>, k: Key)
    requires Inv(schema, s, held) && k !in held && Dirty(s, k)
    requires Replay(Get(s.before, k), Hist(schema, s, k)).Replayed?
    ensures Shows(schema, s, k, Get(s.before, k), Get(s.main, k))
  {
    assert Sound(schema, s, held, k);
  }

  /** Both together, for one call, whatever other records the transaction already holds. */
  lemma SettledCompanionsInvisible(schema: Schema, s: State, held: set<Key>, id: nat, targets: set<Key>,
                                   finals: map<Key, Change>, k: Key)
    requires Inv(schema, s, held) && k !in held && CanSettle(schema, s, id, targets, finals)
    requires OnlyCompanions(s, id, targets, k) && Dirty(s, k)
    requires Replay(Get(s.before, k), Hist(schema, s, k)).Replayed?
    ensures var t := Settle(s, id, targets, finals);
      && Stored(schema, t)
      && Hist(schema, t, k) == Convert(Hist(schema, s, k), id)
      && Get(Rebuild(schema, t, k).main, k) == Get(s.main, k)
  {
    DirtyShows(schema, s, held, k);
    SettleKeepsShown(schema, s, id, targets, finals, k, Get(s.before, k), Get(s.main, k));
    RebuildShows(schema, Settle(s, id, targets, finals), k, Get(s.before, k), Get(s.main, k));
  }

  /** What a history makes of `base` depends only on what stands after `at`, over `shown`. */
  ghost predicate CutAt(base: Option<Row>, h: seq<Step>, at: nat, shown: Option<Row>) {
    && at < |h|
    && SettledView(base, h) == SettledView(shown, h[at + 1..])
    && (Replay(base, h[..at]).Replayed? ==> Replay(base, h) == Replay(shown, h[at + 1..]))
  }

  /** A finalized target shows the receipt's snapshot with only what stands after it: nothing before
      the place of the call's last operation on it matters, not the base, not earlier writes. */
  lemma SnapshotOverrides(schema: Schema, s: State, id: nat, targets: set<Key>, finals: map<Key, Change>, q: QueuedOp)
    returns (at: nat)
    requires Stored(schema, s) && CanSettle(schema, s, id, targets, finals)
    requires q in s.ops && q.ordinal == id && q.kind == Wire && q.op.key in finals && Evidence(s, q.op.key) <= q.owned
    requires forall p :: p in s.ops && p.ordinal == id && p.kind == Wire && p.op.key == q.op.key ==>
      p.position <= q.position
    ensures Stored(schema, Settle(s, id, targets, finals))
    ensures var k, h := q.op.key, Hist(schema, Settle(s, id, targets, finals), q.op.key);
      var shown := ApplySettled(None, Operation(k, finals[k]));
      && at < |h| && h[at] == Settled(AcceptedWrite(q, Operation(k, finals[k])))
      && forall base :: CutAt(base, h, at, shown)
  {
    var k, t := q.op.key, Settle(s, id, targets, finals);
    SettleStored(schema, s, id, targets, finals);
    var h := Hist(schema, t, k);
    var w := AcceptedWrite(q, Operation(k, finals[k]));
    assert w in Snapshots(s, id, finals) && Settled(w) in Entries(t, k);
    at :| at < |h| && h[at] == Settled(w);
    forall base ensures CutAt(base, h, at, ApplySettled(None, w.op)) {
      SnapshotCuts(base, h, at);
    }
  }

  lemma SnapshotCuts(base: Option<Row>, h: seq<Step>, at: nat)
    requires at < |h| && h[at].Settled? && !h[at].write.op.change.Update?
    ensures CutAt(base, h, at, ApplySettled(None, h[at].write.op))
  {
    assert h == h[..at] + [h[at]] + h[at + 1..];
    AppendedReplay(base, h[..at], h[at]);
    ReplayConcat(base, h[..at] + [h[at]], h[at + 1..]);
  }
}
