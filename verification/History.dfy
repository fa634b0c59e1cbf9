/** One record's local history: its committed order, its replay, and what a rebuild makes of it. */
module History {
  import opened Rows

  datatype OpKind = Wire | Companion | Effect

  /** A row of the operation table: one operation of one call, with the authority position its
      record had when the operation was stored. */
  datatype QueuedOp = QueuedOp(ordinal: nat, position: nat, sequence: nat, kind: OpKind, op: Operation, owned: nat)

  datatype WriteKind = Independent | Accepted

  /** A row of the journal of settled local writes. An independent write holds no position (0 here). */
  datatype LocalWrite = LocalWrite(sequence: nat, ordinal: nat, position: nat, kind: WriteKind, op: Operation)

  datatype Step = Pending(queued: QueuedOp) | Settled(write: LocalWrite)
  {
    /** Committed local order: a call's operations by position, an accepted companion at its owner's
        position, an independent write after every operation of the ordinal it followed. */
    function Order(): (nat, nat, nat, nat) {
      match this
      case Pending(q) => (q.ordinal, 0, q.position, 0)
      case Settled(w) =>
        if w.kind == Accepted then (w.ordinal, 0, w.position, w.sequence)
        else (w.ordinal, 1, 0, w.sequence)
    }

    function Op(): Operation {
      match this case Pending(q) => q.op case Settled(w) => w.op
    }
  }

  predicate Less(a: (nat, nat, nat, nat), b: (nat, nat, nat, nat)) {
    || a.0 < b.0
    || (a.0 == b.0 && a.1 < b.1)
    || (a.0 == b.0 && a.1 == b.1 && a.2 < b.2)
    || (a.0 == b.0 && a.1 == b.1 && a.2 == b.2 && a.3 < b.3)
  }

  // ------------------------------------------------------------------ order

  predicate Ordered(steps: seq<Step>) {
    forall i, j :: 0 <= i < j < |steps| ==> Less(steps[i].Order(), steps[j].Order())
  }

  /** No two entries share a place. */
  predicate Placed(entries: set<Step>) {
    forall a, b :: a in entries && b in entries && a != b ==> a.Order() != b.Order()
  }

  ghost predicate Lists(steps: seq<Step>, entries: set<Step>) {
    Ordered(steps) && forall x :: x in steps <==> x in entries
  }

  /** A set of entries has one ordered listing. */
  lemma {:induction false} ListingUnique(a: seq<Step>, b: seq<Step>, entries: set<Step>)
    requires Lists(a, entries) && Lists(b, entries)
    ensures a == b
  {
    assert b != [] ==> b[0] in entries && b[0] in a;
    if a != [] {
      assert a[0] in b;
      assert b[0] in a;
      assert a[0] == b[0];
      var rest := entries - {a[0]};
      assert a == [a[0]] + a[1..] && b == [b[0]] + b[1..];
      forall x ensures x in a[1..] <==> x in rest { assert x in a <==> x == a[0] || x in a[1..]; }
      forall x ensures x in b[1..] <==> x in rest { assert x in b <==> x == b[0] || x in b[1..]; }
      ListingUnique(a[1..], b[1..], rest);
    }
  }

  function Insert(x: Step, steps: seq<Step>): (r: seq<Step>)
    requires Ordered(steps) && forall y :: y in steps ==> y.Order() != x.Order()
    ensures Ordered(r) && forall y :: y in r <==> y == x || y in steps
  {
    if steps == [] then [x]
    else if Less(x.Order(), steps[0].Order()) then [x] + steps
    else
      assert steps == [steps[0]] + steps[1..];
      var r := Insert(x, steps[1..]);
      assert forall y :: y in r ==> Less(steps[0].Order(), y.Order());
      assert forall i :: 0 <= i < |r| ==> r[i] in r;
      [steps[0]] + r
  }

  /** The entries in committed local order. */
  ghost function Listing(entries: set<Step>): (r: seq<Step>)
    requires Placed(entries)
    ensures Lists(r, entries)
  {
    if entries == {} then []
    else
      var x :| x in entries;
      Insert(x, Listing(entries - {x}))
  }

  lemma ListingIs(entries: set<Step>, steps: seq<Step>)
    requires Lists(steps, entries)
    ensures Placed(entries) && Listing(entries) == steps
  {
    forall a, b | a in entries && b in entries && a != b ensures a.Order() != b.Order() {
      var i :| 0 <= i < |steps| && steps[i] == a;
      var j :| 0 <= j < |steps| && steps[j] == b;
    }
    ListingUnique(Listing(entries), steps, entries);
  }

  // ----------------------------------------------------------------- replay

  datatype Outcome = Replayed(row: Option<Row>) | Diverged(ordinal: nat)

  function Replay(base: Option<Row>, steps: seq<Step>): Outcome {
    if steps == [] then Replayed(base)
    else
      match Replay(base, steps[..|steps| - 1])
      case Diverged(o) => Diverged(o)
      case Replayed(row) =>
        match steps[|steps| - 1]
        case Settled(w) => Replayed(ApplySettled(row, w.op))
        case Pending(q) =>
          match ApplyToRow(row, q.op)
          case Ok(next) => Replayed(next)
          case Conflict => Diverged(q.ordinal)
  }

  /** The base with only the settled writes applied. */
  function SettledView(base: Option<Row>, steps: seq<Step>): Option<Row> {
    if steps == [] then base
    else
      var below := SettledView(base, steps[..|steps| - 1]);
      match steps[|steps| - 1]
      case Settled(w) => ApplySettled(below, w.op)
      case Pending(_) => below
  }

  /** What a rebuilt record shows: its replay, or the settled writes alone when it diverges. */
  function Projection(base: Option<Row>, steps: seq<Step>): Option<Row> {
    match Replay(base, steps)
    case Replayed(row) => row
    case Diverged(_) => SettledView(base, steps)
  }

  predicate AllSettled(steps: seq<Step>) {
    forall s :: s in steps ==> s.Settled?
  }

  /** `take_while(Settled)`. */
  function Prefix(steps: seq<Step>): (n: nat)
    ensures n <= |steps| && AllSettled(steps[..n])
    ensures n < |steps| ==> steps[n].Pending?
  {
    if steps == [] || steps[0].Pending? then 0
    else
      var n := Prefix(steps[1..]);
      assert steps[..n + 1] == [steps[0]] + steps[1..][..n];
      n + 1
  }

  lemma {:induction false} ReplayConcat(base: Option<Row>, a: seq<Step>, b: seq<Step>)
    ensures Replay(base, a + b) ==
      match Replay(base, a) case Diverged(o) => Diverged(o) case Replayed(r) => Replay(r, b)
    ensures SettledView(base, a + b) == SettledView(SettledView(base, a), b)
  {
    if b == [] {
      assert a + b == a;
    } else {
      assert (a + b)[..|a + b| - 1] == a + b[..|b| - 1];
      ReplayConcat(base, a, b[..|b| - 1]);
    }
  }

  lemma {:induction false} SettledReplays(base: Option<Row>, steps: seq<Step>)
    requires AllSettled(steps)
    ensures Replay(base, steps) == Replayed(SettledView(base, steps))
  {
    if steps != [] {
      assert steps[|steps| - 1] in steps;
      forall s | s in steps[..|steps| - 1] ensures s in steps {}
      SettledReplays(base, steps[..|steps| - 1]);
    }
  }

  /** Folding a settled prefix into the base changes neither what replays, nor which call fails
      first, nor what stays visible. */
  lemma FoldingPreserves(base: Option<Row>, steps: seq<Step>, n: nat)
    requires n <= |steps| && AllSettled(steps[..n])
    ensures var folded := SettledView(base, steps[..n]);
      && Replay(folded, steps[n..]) == Replay(base, steps)
      && SettledView(folded, steps[n..]) == SettledView(base, steps)
      && Projection(folded, steps[n..]) == Projection(base, steps)
  {
    assert steps == steps[..n] + steps[n..];
    ReplayConcat(base, steps[..n], steps[n..]);
    SettledReplays(base, steps[..n]);
  }

  /** A replay reports exactly the first pending operation that conflicts with the row replayed before it. */
  lemma {:induction false} DivergesAtFirstConflict(base: Option<Row>, steps: seq<Step>, ordinal: nat)
    ensures Replay(base, steps) == Diverged(ordinal) <==>
      exists i :: 0 <= i < |steps| && steps[i].Pending? && steps[i].queued.ordinal == ordinal
        && Replay(base, steps[..i]).Replayed?
        && var (row, change) := (Replay(base, steps[..i]).row, steps[i].queued.op.change);
        (change.Create? && row.Some?) || (change.Update? && row.None?)
  {
    if steps != [] {
      var n := |steps| - 1;
      var below := steps[..n];
      DivergesAtFirstConflict(base, below, ordinal);
      if Replay(base, steps) == Diverged(ordinal) {
        if Replay(base, below) == Diverged(ordinal) {
          var i :| 0 <= i < |below| && below[i].Pending? && below[i].queued.ordinal == ordinal
            && Replay(base, below[..i]).Replayed?
            && ApplyToRow(Replay(base, below[..i]).row, below[i].queued.op) == Conflict;
          assert below[..i] == steps[..i];
        } else {
          assert steps[n].Pending?;
        }
      }
      forall i | 0 <= i < |steps| && steps[i].Pending? && steps[i].queued.ordinal == ordinal
          && Replay(base, steps[..i]).Replayed?
          && ApplyToRow(Replay(base, steps[..i]).row, steps[i].queued.op) == Conflict
        ensures Replay(base, steps) == Diverged(ordinal)
      {
        if i < n {
          assert below[..i] == steps[..i];
          assert below[i] == steps[i];
        }
      }
    }
  }

  // ---------------------------------------------------- how histories change

  lemma AppendedReplay(base: Option<Row>, steps: seq<Step>, s: Step)
    ensures SettledView(base, steps + [s]) ==
      if s.Settled? then ApplySettled(SettledView(base, steps), s.Op()) else SettledView(base, steps)
    ensures Replay(base, steps).Diverged? ==> Replay(base, steps + [s]) == Replay(base, steps)
    ensures Replay(base, steps).Replayed? && s.Settled? ==>
      Replay(base, steps + [s]) == Replayed(ApplySettled(Replay(base, steps).row, s.Op()))
    ensures Replay(base, steps).Replayed? && s.Pending? && ApplyToRow(Replay(base, steps).row, s.Op()).Ok? ==>
      Replay(base, steps + [s]) == Replayed(ApplyToRow(Replay(base, steps).row, s.Op()).row)
  {
    assert (steps + [s])[..|steps|] == steps;
  }

  /** Steps kept by `keep`, in place. */
  ghost function Kept(steps: seq<Step>, keep: set<Step>): seq<Step> {
    if steps == [] then []
    else Kept(steps[..|steps| - 1], keep) + (if steps[|steps| - 1] in keep then [steps[|steps| - 1]] else [])
  }

  lemma {:induction false} KeptLists(steps: seq<Step>, entries: set<Step>, keep: set<Step>)
    requires Lists(steps, entries)
    ensures Lists(Kept(steps, keep), entries * keep)
  {
    if steps != [] {
      var n := |steps| - 1;
      var below := steps[..n];
      assert steps == below + [steps[n]];
      forall x ensures x in below <==> x in entries - {steps[n]} { assert x in steps <==> x in below || x == steps[n]; }
      KeptLists(below, entries - {steps[n]}, keep);
      forall x | x in Kept(below, keep) ensures Less(x.Order(), steps[n].Order()) { assert x in below; }
    }
  }

  /** What a history shows when it diverges: what it would show with its pending operations gone. */
  lemma DivergedProjects(base: Option<Row>, steps: seq<Step>, settled: set<Step>)
    requires Replay(base, steps).Diverged?
    requires forall x :: x in steps ==> (x in settled <==> x.Settled?)
    ensures Replay(base, Kept(steps, settled)) == Replayed(Projection(base, steps))
  {
    KeptSettledView(base, steps, settled);
    KeptMembers(steps, settled);
    SettledReplays(base, Kept(steps, settled));
  }

  lemma {:induction false} KeptMembers(steps: seq<Step>, keep: set<Step>)
    ensures forall x :: x in Kept(steps, keep) <==> x in steps && x in keep
  {
    if steps != [] {
      var n := |steps| - 1;
      assert steps == steps[..n] + [steps[n]];
      KeptMembers(steps[..n], keep);
    }
  }

  /** Dropping pending operations leaves the settled view alone. */
  lemma {:induction false} KeptSettledView(base: Option<Row>, steps: seq<Step>, keep: set<Step>)
    requires forall s :: s in steps && s.Settled? ==> s in keep
    ensures SettledView(base, Kept(steps, keep)) == SettledView(base, steps)
  {
    if steps != [] {
      var n := |steps| - 1;
      assert steps[n] in steps;
      forall s | s in steps[..n] ensures s in steps {}
      KeptSettledView(base, steps[..n], keep);
      var below := Kept(steps[..n], keep);
      if steps[n] in keep { assert (below + [steps[n]])[..|below|] == below; } else { assert below + [] == below; }
    }
  }
}
