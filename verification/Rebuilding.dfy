/** Rebuilding one record from its base and its history in committed local order. */
module Rebuilding {
  import opened Rows
  import opened History
  import opened Replica

  // -------------------------------------------------------------- rebuilding

  /** The local layer after retaining every step's operation, in order. */
  function RetainSteps(layer: seq<Operation>, steps: seq<Step>): seq<Operation> {
    if steps == [] then layer
    else Retain(RetainSteps(layer, steps[..|steps| - 1]), steps[|steps| - 1].Op())
  }

  lemma {:induction false} RetainStepsFold(schema: Schema, k: Key, row: Option<Row>, layer: seq<Operation>,
                                           steps: seq<Step>)
    requires AllSettled(steps) && NormalForm(layer) && LayerOf(schema, k, layer)
    requires forall x :: x in steps ==> x.Op().key == k && Normalized(schema, x.Op())
    ensures FoldSettled(row, RetainSteps(layer, steps)) == SettledView(FoldSettled(row, layer), steps)
    ensures NormalForm(RetainSteps(layer, steps)) && LayerOf(schema, k, RetainSteps(layer, steps))
  {
    if steps != [] {
      var n := |steps| - 1;
      assert steps[n] in steps;
      forall x | x in steps[..n] ensures x in steps {}
      RetainStepsFold(schema, k, row, layer, steps[..n]);
      RetainNormal(RetainSteps(layer, steps[..n]), steps[n].Op());
      RetainStep(row, RetainSteps(layer, steps[..n]), steps[n].Op());
      RetainKeepsLayerOf(schema, RetainSteps(layer, steps[..n]), steps[n].Op());
    }
  }

  /** What a rebuild computes from a base and a history: the settled prefix to fold, the base and
      local layer it is folded into, and the row and first failing call of what remains. */
  datatype Plan = Plan(folded: seq<Step>, layer: seq<Operation>, base: Option<Row>, pending: bool, row: Option<Row>,
                       failed: set<nat>)

  function RebuildPlan(base: Option<Row>, layer: seq<Operation>, steps: seq<Step>): Plan {
    var n := Prefix(steps);
    var folded := SettledView(base, steps[..n]);
    var replay := Replay(folded, steps[n..]);
    Plan(steps[..n], RetainSteps(layer, steps[..n]), folded, n < |steps|, Projection(folded, steps[n..]),
         if replay.Diverged? then {replay.ordinal} else {})
  }

  /** Folded writes are forgotten; the row and the held base are replaced, and with nothing pending
      the base itself becomes the row and is no longer held. */
  function Install(s: State, k: Key, p: Plan): State {
    s.(writes := (set w | w in s.writes && Settled(w) !in p.folded),
       layer := if p.folded == [] then s.layer else s.layer[k := p.layer],
       main := Put(s.main, k, if p.pending then p.row else p.base),
       before := Put(s.before, k, if p.pending then p.base else None),
       diverged := s.diverged + if p.pending then p.failed else {})
  }

  ghost function Rebuild(schema: Schema, s: State, k: Key): State
    requires Stored(schema, s)
  {
    Install(s, k, RebuildPlan(Get(s.before, k), Layer(s, k), Hist(schema, s, k)))
  }

  lemma InstallStored(schema: Schema, s: State, k: Key, p: Plan)
    requires Stored(schema, s)
    ensures Stored(schema, Install(s, k, p))
    ensures forall other :: Dirty(Install(s, k, p), other) == Dirty(s, other)
  {
    StoredShrinks(schema, s, Install(s, k, p));
  }

  lemma InstallOther(s: State, k: Key, p: Plan, other: Key)
    requires other != k && forall x :: x in p.folded ==> x.Op().key == k
    ensures var t := Install(s, k, p);
      && Entries(t, other) == Entries(s, other)
      && Get(t.main, other) == Get(s.main, other) && Get(t.before, other) == Get(s.before, other)
      && Layer(t, other) == Layer(s, other)
  {
    var t := Install(s, k, p);
    forall w | w in s.writes && w.op.key == other ensures w in t.writes {
      assert Settled(w) in p.folded ==> Settled(w).Op().key == k;
    }
    assert SettledOf(t.writes, other) == SettledOf(s.writes, other);
  }

  lemma SplitMembers(steps: seq<Step>, n: nat, x: Step)
    requires Ordered(steps) && n <= |steps|
    ensures x in steps[n..] <==> x in steps && x !in steps[..n]
  {
    assert steps == steps[..n] + steps[n..];
    var a, b := steps[..n], steps[n..];
    forall i, j | 0 <= i < |a| && 0 <= j < |b| ensures a[i] != b[j] {
      assert Less(steps[i].Order(), steps[n + j].Order());
    }
  }

  lemma InstallOwnHistory(schema: Schema, s: State, k: Key, p: Plan, n: nat)
    requires Stored(schema, s) && n <= |Hist(schema, s, k)|
    requires p.folded == Hist(schema, s, k)[..n] && AllSettled(p.folded)
    ensures Stored(schema, Install(s, k, p))
    ensures Hist(schema, Install(s, k, p), k) == Hist(schema, s, k)[n..]
  {
    var t := Install(s, k, p);
    InstallStored(schema, s, k, p);
    var steps := Hist(schema, s, k);
    forall x ensures x in steps[n..] <==> x in Entries(t, k) { SplitMembers(steps, n, x); }
    HistIs(schema, t, k, steps[n..]);
  }

  lemma DirtyHasPending(schema: Schema, s: State, k: Key)
    requires Stored(schema, s)
    ensures Dirty(s, k) <==> Prefix(Hist(schema, s, k)) < |Hist(schema, s, k)|
  {
    var steps := Hist(schema, s, k);
    var n := Prefix(steps);
    assert steps[..|steps|] == steps;
    if n < |steps| { assert steps[n] in Entries(s, k); }
    if Dirty(s, k) {
      var q :| q in s.ops && q.ordinal in s.live && q.op.key == k;
      assert Pending(q) in Entries(s, k);
    }
  }

  /** A rebuild shows the replay of the whole history over the held base. When some call's operation does
      not replay it shows what the record would with its pending operations gone, and marks that call. */
  lemma RebuildShowsReplay(schema: Schema, s: State, k: Key)
    requires Stored(schema, s)
    ensures var t := Rebuild(schema, s, k);
      match Replay(Get(s.before, k), Hist(schema, s, k))
      case Replayed(row) => Get(t.main, k) == row && t.diverged == s.diverged
      case Diverged(o) =>
        && Replay(Get(s.before, k), Kept(Hist(schema, s, k), SettledOf(s.writes, k))) == Replayed(Get(t.main, k))
        && t.diverged == s.diverged + {o}
  {
    var base, steps := Get(s.before, k), Hist(schema, s, k);
    RebuildProjects(schema, s, k);
    if Replay(base, steps).Diverged? {
      forall x | x in steps ensures x in SettledOf(s.writes, k) <==> x.Settled? { assert x in Entries(s, k); }
      DivergedProjects(base, steps, SettledOf(s.writes, k));
    }
  }

  /** A record that does not replay is shown as its truth: the settled writes over the held base. */
  lemma DivergedShowsTruth(schema: Schema, s: State, held: set<Key>, k: Key)
    requires Stored(schema, s) && (k in held || Dirty(s, k))
    ensures match Replay(Get(s.before, k), Hist(schema, s, k))
      case Replayed(row) => Get(Rebuild(schema, s, k).main, k) == row
      case Diverged(_) => Get(Rebuild(schema, s, k).main, k) == Truth(schema, s, held, k)
  {
    RebuildProjects(schema, s, k);
  }

  /** The same in terms of the projection. */
  lemma RebuildProjects(schema: Schema, s: State, k: Key)
    requires Stored(schema, s)
    ensures var t := Rebuild(schema, s, k);
      var base, steps := Get(s.before, k), Hist(schema, s, k);
      && Get(t.main, k) == Projection(base, steps)
      && t.diverged == s.diverged + match Replay(base, steps) case Diverged(o) => {o} case Replayed(_) => {}
  {
    var base, steps := Get(s.before, k), Hist(schema, s, k);
    var n := Prefix(steps);
    FoldingPreserves(base, steps, n);
    if n == |steps| {
      assert steps[..n] == steps;
      SettledReplays(base, steps);
    }
  }

  lemma RebuiltKey(schema: Schema, s: State, held: set<Key>, k: Key, t: State)
    requires Stored(schema, s) && Sound(schema, s, held, k) && (k in held || Dirty(s, k))
    requires t == Rebuild(schema, s, k) && Stored(schema, t)
    ensures Sound(schema, t, held - {k}, k)
    ensures Truth(schema, t, held - {k}, k) == Truth(schema, s, held, k)
  {
    var base, steps := Get(s.before, k), Hist(schema, s, k);
    var n := Prefix(steps);
    InstallOwnHistory(schema, s, k, RebuildPlan(base, Layer(s, k), steps), n);
    RebuiltBase(schema, s, held, k, t);
    FoldingPreserves(base, steps, n);
    if n == |steps| {
      forall x ensures x !in Entries(t, k) { assert x in Entries(t, k) <==> x in Hist(schema, t, k); }
    }
  }

  lemma RebuiltBase(schema: Schema, s: State, held: set<Key>, k: Key, t: State)
    requires Stored(schema, s) && Sound(schema, s, held, k) && (k in held || Dirty(s, k))
    requires t == Rebuild(schema, s, k)
    ensures var steps := Hist(schema, s, k);
      && Dirty(t, k) == Dirty(s, k) == (Prefix(steps) < |steps|)
      && Base(t, held - {k}, k) == SettledView(Get(s.before, k), steps[..Prefix(steps)])
      && Grounded(schema, t, held - {k}, k)
  {
    RebuiltRows(schema, s, held, k, t);
    RebuiltLayer(schema, s, k, t);
  }

  lemma RebuiltRows(schema: Schema, s: State, held: set<Key>, k: Key, t: State)
    requires Stored(schema, s) && t == Rebuild(schema, s, k)
    ensures var steps := Hist(schema, s, k);
      && Dirty(t, k) == Dirty(s, k) == (Prefix(steps) < |steps|)
      && Base(t, held - {k}, k) == SettledView(Get(s.before, k), steps[..Prefix(steps)])
      && Get(t.authority, k) == Get(s.authority, k)
  {
    DirtyHasPending(schema, s, k);
  }

  lemma RebuiltLayer(schema: Schema, s: State, k: Key, t: State)
    requires Stored(schema, s) && t == Rebuild(schema, s, k)
    requires NormalForm(Layer(s, k)) && LayerOf(schema, k, Layer(s, k))
    ensures NormalForm(Layer(t, k)) && LayerOf(schema, k, Layer(t, k))
    ensures var steps := Hist(schema, s, k);
      forall row :: FoldSettled(row, Layer(t, k)) == SettledView(FoldSettled(row, Layer(s, k)), steps[..Prefix(steps)])
  {
    var steps := Hist(schema, s, k);
    var n := Prefix(steps);
    forall x | x in steps[..n] ensures x.Op().key == k && Normalized(schema, x.Op()) {
      assert x in Entries(s, k);
      assert StoredWrite(schema, s, x.write);
    }
    assert Layer(t, k) == RetainSteps(Layer(s, k), steps[..n]);
    RetainStepsFold(schema, k, None, Layer(s, k), steps[..n]);
    forall row ensures FoldSettled(row, Layer(t, k)) == SettledView(FoldSettled(row, Layer(s, k)), steps[..n]) {
      RetainStepsFold(schema, k, row, Layer(s, k), steps[..n]);
    }
  }

  /** A rebuild keeps the truth of every record, and leaves the rebuilt one sound and not held. */
  lemma RebuildKeeps(schema: Schema, s: State, held: set<Key>, k: Key, t: State, other: Key)
    requires Inv(schema, s, held) && (k in held || Dirty(s, k))
    requires t == Rebuild(schema, s, k) && Stored(schema, t)
    ensures Sound(schema, t, held - {k}, other)
    ensures Truth(schema, t, held - {k}, other) == Truth(schema, s, held, other)
  {
    assert Sound(schema, s, held, other);
    if other == k {
      RebuiltKey(schema, s, held, k, t);
    } else {
      RebuildLeaves(schema, s, k, other);
      Untouched(schema, s, held, t, held - {k}, other);
    }
  }

  /** A rebuild leaves every other record as it was. */
  lemma RebuildLeaves(schema: Schema, s: State, k: Key, other: Key)
    requires Stored(schema, s) && other != k
    ensures var t := Rebuild(schema, s, k);
      && Stored(schema, t)
      && Entries(t, other) == Entries(s, other) && Dirty(t, other) == Dirty(s, other)
      && Get(t.main, other) == Get(s.main, other) && Get(t.before, other) == Get(s.before, other)
      && Layer(t, other) == Layer(s, other)
      && Hist(schema, t, other) == Hist(schema, s, other)
  {
    var p := RebuildPlan(Get(s.before, k), Layer(s, k), Hist(schema, s, k));
    forall x | x in Hist(schema, s, k) ensures x.Op().key == k { assert x in Entries(s, k); }
    InstallStored(schema, s, k, p);
    InstallOther(s, k, p, other);
    HistSame(schema, s, Rebuild(schema, s, k), other);
  }

  lemma RebuildKeepsInv(schema: Schema, s: State, held: set<Key>, k: Key)
    requires Inv(schema, s, held) && (k in held || Dirty(s, k))
    ensures Inv(schema, Rebuild(schema, s, k), held - {k})
    ensures forall other :: Truth(schema, Rebuild(schema, s, k), held - {k}, other) == Truth(schema, s, held, other)
  {
    InstallStored(schema, s, k, RebuildPlan(Get(s.before, k), Layer(s, k), Hist(schema, s, k)));
    forall other
      ensures Sound(schema, Rebuild(schema, s, k), held - {k}, other)
      ensures Truth(schema, Rebuild(schema, s, k), held - {k}, other) == Truth(schema, s, held, other)
    {
      RebuildKeeps(schema, s, held, k, Rebuild(schema, s, k), other);
    }
  }

  /** Rebuilding a record that is still dirty a second time changes nothing. */
  lemma RebuildIdempotent(schema: Schema, s: State, k: Key)
    requires Stored(schema, s) && Dirty(s, k)
    ensures Stored(schema, Rebuild(schema, s, k))
    ensures Rebuild(schema, Rebuild(schema, s, k), k) == Rebuild(schema, s, k)
  {
    var t, base, steps := Rebuild(schema, s, k), Get(s.before, k), Hist(schema, s, k);
    var n := Prefix(steps);
    InstallOwnHistory(schema, s, k, RebuildPlan(base, Layer(s, k), steps), n);
    DirtyHasPending(schema, s, k);
    RebuildProjects(schema, s, k);
    FoldingPreserves(base, steps, n);
    NothingToFold(schema, t, k);
  }

  /** Nor does a rebuild of a record that starts with a pending operation and shows its projection. */
  lemma NothingToFold(schema: Schema, s: State, k: Key)
    requires Stored(schema, s) && Hist(schema, s, k) != [] && Hist(schema, s, k)[0].Pending?
    requires Get(s.main, k) == Projection(Get(s.before, k), Hist(schema, s, k))
    requires match Replay(Get(s.before, k), Hist(schema, s, k))
             case Diverged(o) => o in s.diverged
             case Replayed(_) => true
    ensures Rebuild(schema, s, k) == s
  {
    var steps := Hist(schema, s, k);
    assert Prefix(steps) == 0 && steps[0..] == steps && steps[..0] == [];
    assert SettledView(Get(s.before, k), steps[..0]) == Get(s.before, k);
    PutGet(s.main, k);
    PutGet(s.before, k);
    assert Rebuild(schema, s, k).writes == s.writes;
  }

  lemma PutGet<K(!new), V>(m: map<K, V>, k: K)
    ensures Put(m, k, Get(m, k)) == m
  {
  }
}
