/** The fixpoint over lifecycle edges that decides what a refusal takes with it. */
module Refusing {
  import opened Rows
  import opened Calls
  import opened Batches

  ghost predicate Listed(edges: map<(nat, nat), EdgeKind>, dependencies: seq<(nat, nat)>) {
    forall d: (nat, nat) :: d in dependencies <==> Follows(edges, d.0, d.1)
  }

  /** Marked so far: the initial refusals as they came, and calls they reach. */
  ghost predicate Marked(reach: set<nat>, initial: map<nat, Refusal>, rejected: map<nat, Refusal>) {
    && initial.Keys <= rejected.Keys <= reach
    && forall id :: id in rejected ==> rejected[id] == Marking(initial, id)
  }

  predicate Handled(marked: set<nat>, dependency: (nat, nat)) {
    dependency.1 in marked ==> dependency.0 in marked
  }

  lemma {:induction false} ClosedHoldsPath(edges: map<(nat, nat), EdgeKind>, marked: set<nat>, path: seq<nat>)
    requires RefusalPath(edges, path) && path[0] in marked
    requires forall id, dep :: Follows(edges, id, dep) && dep in marked ==> id in marked
    ensures path[|path| - 1] in marked
  {
    if |path| > 1 {
      var n := |path| - 1;
      ClosedHoldsPath(edges, marked, path[..n]);
      assert Follows(edges, path[n], path[n - 1]);
    }
  }

  /** A set closed under the edges that holds the initial calls holds everything they reach. */
  lemma ClosedHoldsClosure(edges: map<(nat, nat), EdgeKind>, initial: set<nat>, marked: set<nat>,
                           dependencies: seq<(nat, nat)>)
    requires Listed(edges, dependencies) && initial <= marked
    requires forall d :: d in dependencies ==> Handled(marked, d)
    ensures Closure(edges, initial) <= marked
  {
    forall id, dep | Follows(edges, id, dep) && dep in marked ensures id in marked {
      assert Handled(marked, (id, dep));
    }
    forall id | id in Closure(edges, initial) ensures id in marked {
      var path :| RefusalPath(edges, path) && path[0] in initial && path[|path| - 1] == id;
      ClosedHoldsPath(edges, marked, path);
    }
  }

  lemma ClosureHandles(edges: map<(nat, nat), EdgeKind>, initial: set<nat>, dependencies: seq<(nat, nat)>)
    requires Listed(edges, dependencies)
    ensures initial <= Closure(edges, initial)
    ensures forall d :: d in dependencies ==> Handled(Closure(edges, initial), d)
  {
    ClosureGrows(edges, initial);
    forall d | d in dependencies ensures Handled(Closure(edges, initial), d) {
      if d.1 in Closure(edges, initial) { ClosureClosed(edges, initial, d.0, d.1); }
    }
  }

  /** One pass over the dependency rows. */
  method Pass(ghost reach: set<nat>, ghost initial: map<nat, Refusal>, dependencies: seq<(nat, nat)>,
              before: map<nat, Refusal>)
    returns (rejected: map<nat, Refusal>, added: bool)
    requires Marked(reach, initial, before) && forall d :: d in dependencies ==> Handled(reach, d)
    ensures Marked(reach, initial, rejected) && before.Keys <= rejected.Keys
    ensures added ==> exists id :: id in rejected.Keys && id !in before.Keys
    ensures !added ==> rejected == before && forall d :: d in dependencies ==> Handled(rejected.Keys, d)
  {
    rejected, added := before, false;
    var i := 0;
    while i < |dependencies|
      invariant 0 <= i <= |dependencies| && Marked(reach, initial, rejected) && before.Keys <= rejected.Keys
      invariant added ==> exists id :: id in rejected.Keys && id !in before.Keys
      invariant !added ==> rejected == before && forall j :: 0 <= j < i ==> Handled(rejected.Keys, dependencies[j])
    {
      var (id, dep) := dependencies[i];
      assert dependencies[i] in dependencies && Handled(reach, dependencies[i]);
      if dep in rejected && id !in rejected {
        rejected := rejected[id := DEPENDENCY_REJECTED];
        assert id in rejected.Keys && (id in before.Keys ==> added);
        added := true;
      }
      i := i + 1;
    }
  }

  /** The loop ends: each pass that adds anything marks another call within reach. */
  method Fixpoint(ghost reach: set<nat>, dependencies: seq<(nat, nat)>, initial: map<nat, Refusal>)
    returns (rejected: map<nat, Refusal>)
    requires initial.Keys <= reach && forall d :: d in dependencies ==> Handled(reach, d)
    ensures Marked(reach, initial, rejected)
    ensures forall d :: d in dependencies ==> Handled(rejected.Keys, d)
  {
    rejected := initial;
    var added := true;
    while added
      invariant Marked(reach, initial, rejected)
      invariant !added ==> forall d :: d in dependencies ==> Handled(rejected.Keys, d)
      decreases reach - rejected.Keys, added
    {
      rejected, added := Pass(reach, initial, dependencies, rejected);
    }
  }

  lemma MarkedIsMarks(reach: set<nat>, initial: map<nat, Refusal>, rejected: map<nat, Refusal>)
    requires Marked(reach, initial, rejected) && reach <= rejected.Keys
    ensures rejected == Marks(reach, initial)
  {
  }

  /** Exactly the initial refusals and every call reachable from them by lifecycle edges, each initial
      code kept, each added one `dependency.rejected`. The rows' order has no part in the answer. */
  method RejectClosure(ghost edges: map<(nat, nat), EdgeKind>, dependencies: seq<(nat, nat)>,
                       initial: map<nat, Refusal>)
    returns (rejected: map<nat, Refusal>)
    requires Listed(edges, dependencies)
    ensures rejected == Refusals(edges, initial)
  {
    ClosureHandles(edges, initial.Keys, dependencies);
    rejected := Fixpoint(Closure(edges, initial.Keys), dependencies, initial);
    ClosedHoldsClosure(edges, initial.Keys, rejected.Keys, dependencies);
    MarkedIsMarks(Closure(edges, initial.Keys), initial, rejected);
  }
}
