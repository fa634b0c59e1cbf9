/** Declared cascading deletes: every record that goes with a deleted one. */
module Cascade {
  import opened Rows

  function Column(row: Row, field: string): Value {
    if field in row then row[field] else Null
  }

  /** `row` references `parent` through `relation`; a null column is matched with IS NULL. */
  predicate Refers(relation: Relation, row: Row, parent: Key) {
    && relation.cascade
    && relation.target == parent.model
    && forall i :: 0 <= i < |relation.fields| && i < |relation.targetFields| ==>
      Column(row, relation.fields[i]) == Column(parent.identity, relation.targetFields[i])
  }

  function ChildrenIn(schema: Schema, table: map<Key, Row>, parent: Key): set<Key> {
    set k | k in table && Identified(schema, k)
      && exists r :: r in schema[k.model].relations && Refers(r, table[k], parent)
  }

  // --------------------------------------------------- what a row points at

  /** A relation names each identity field of its target once. */
  predicate RelationOk(schema: Schema, r: Relation) {
    && r.target in schema && |r.fields| == |r.targetFields|
    && (forall i, j :: 0 <= i < j < |r.targetFields| ==> r.targetFields[i] != r.targetFields[j])
    && (set f | f in r.targetFields) == schema[r.target].identity
  }

  predicate Related(schema: Schema) {
    forall m, r :: m in schema && r in schema[m].relations ==> RelationOk(schema, r)
  }

  /** The key a row points at: each identity field of the target, read from the column that refers to it. */
  ghost function Reference(schema: Schema, r: Relation, row: Row): Key
    requires RelationOk(schema, r)
  {
    Key(r.target, map i | 0 <= i < |r.fields| ::
      r.targetFields[i] := if r.fields[i] in row then row[r.fields[i]] else Null)
  }

  /** The record's row in the table points at `parent` by a relation that deletes with it. */
  ghost predicate PointsAt(schema: Schema, table: map<Key, Row>, k: Key, parent: Key) {
    && k in table && k.model in schema
    && exists r :: r in schema[k.model].relations && RelationOk(schema, r) && r.cascade
        && Reference(schema, r, table[k]) == parent
  }

  /** Records each of which points at the one before it, in what is visible or in a held base. */
  ghost predicate Trail(schema: Schema, main: map<Key, Row>, before: map<Key, Row>, admit: set<Key>, path: seq<Key>) {
    && path != []
    && forall i :: 0 < i < |path| ==>
      && path[i] in admit
      && (PointsAt(schema, main, path[i], path[i - 1]) || PointsAt(schema, before, path[i], path[i - 1]))
  }

  /** The record goes with `parent`: along admitted records, each pointing at the one before it. */
  ghost predicate GoesWith(schema: Schema, main: map<Key, Row>, before: map<Key, Row>, admit: set<Key>, parent: Key,
                           k: Key) {
    && k != parent
    && exists path :: Trail(schema, main, before, admit, path) && path[0] == parent && path[|path| - 1] == k
  }

  ghost predicate AllIdentified(schema: Schema, keys: set<Key>) {
    forall k :: k in keys ==> Identified(schema, k)
  }

  /** Matching a relation's columns with the parent's identity is reading the key the row points at. */
  lemma RefersIs(schema: Schema, r: Relation, row: Row, parent: Key)
    requires RelationOk(schema, r) && Identified(schema, parent)
    ensures Refers(r, row, parent) <==> r.cascade && Reference(schema, r, row) == parent
  {
    var at := Reference(schema, r, row).identity;
    ReferenceFields(schema, r, row);
    if at == parent.identity {
      forall i | 0 <= i < |r.fields| ensures Column(row, r.fields[i]) == Column(parent.identity, r.targetFields[i]) {
        assert r.targetFields[i] in r.targetFields;
      }
    }
    if Refers(r, row, parent) {
      forall f | f in at ensures at[f] == parent.identity[f] {
        var i :| 0 <= i < |r.fields| && r.targetFields[i] == f;
        assert Column(row, r.fields[i]) == Column(parent.identity, r.targetFields[i]);
      }
    }
  }

  lemma ReferenceFields(schema: Schema, r: Relation, row: Row)
    requires RelationOk(schema, r)
    ensures var at := Reference(schema, r, row).identity;
      && at.Keys == schema[r.target].identity
      && forall i :: 0 <= i < |r.fields| ==>
        r.targetFields[i] in at && at[r.targetFields[i]] == Column(row, r.fields[i])
  {
    var at := Reference(schema, r, row).identity;
    forall f ensures f in at.Keys <==> f in schema[r.target].identity {
      assert f in schema[r.target].identity <==> f in (set g | g in r.targetFields);
    }
  }

  lemma ChildIs(schema: Schema, table: map<Key, Row>, parent: Key, k: Key)
    requires Related(schema) && Identified(schema, parent) && AllIdentified(schema, table.Keys)
    ensures k in ChildrenIn(schema, table, parent) <==> PointsAt(schema, table, k, parent)
  {
    if k in table {
      assert Identified(schema, k);
      forall r | r in schema[k.model].relations
        ensures Refers(r, table[k], parent) <==> r.cascade && Reference(schema, r, table[k]) == parent
      {
        RefersIs(schema, r, table[k], parent);
      }
    }
  }

  type Graph = map<Key, set<Key>>

  function Edges(g: Graph, k: Key): set<Key> {
    if k in g then g[k] else {}
  }

  ghost predicate Closed(g: Graph) {
    forall k :: k in g ==> g[k] <= g.Keys
  }

  /** For `start` and every stored record: the records that reference it in what is visible or in a held base. */
  function Children(schema: Schema, main: map<Key, Row>, before: map<Key, Row>, start: Key): (g: Graph)
    ensures Closed(g)
  {
    map parent | parent in main.Keys + before.Keys + {start} ::
      ChildrenIn(schema, main, parent) + ChildrenIn(schema, before, parent)
  }

  ghost predicate Path(g: Graph, admit: set<Key>, path: seq<Key>) {
    && path != []
    && forall i :: 0 < i < |path| ==> path[i] in Edges(g, path[i - 1]) && path[i] in admit
  }

  /** `k` is reachable from `parent`, and is not `parent` itself, along admitted records. */
  ghost predicate Descends(g: Graph, admit: set<Key>, parent: Key, k: Key) {
    k != parent && exists path :: Path(g, admit, path) && path[0] == parent && path[|path| - 1] == k
  }

  lemma DescendsStep(g: Graph, admit: set<Key>, parent: Key, at: Key, k: Key)
    requires at == parent || Descends(g, admit, parent, at)
    requires k in Edges(g, at) && k in admit && k != parent
    ensures Descends(g, admit, parent, k)
  {
    var path := [parent];
    if at != parent {
      path :| Path(g, admit, path) && path[0] == parent && path[|path| - 1] == at;
    }
    assert Path(g, admit, path + [k]);
  }

  /** A set of records closed under admitted children holds the end of every path it starts. */
  lemma {:induction false} ClosedHoldsPath(g: Graph, admit: set<Key>, closed: set<Key>, path: seq<Key>)
    requires Path(g, admit, path) && path[0] in closed
    requires forall u, v :: u in closed && v in Edges(g, u) && v in admit ==> v in closed
    ensures path[|path| - 1] in closed
  {
    if |path| > 1 {
      ClosedHoldsPath(g, admit, closed, path[..|path| - 1]);
    }
  }

  lemma TrailAppend(schema: Schema, main: map<Key, Row>, before: map<Key, Row>, admit: set<Key>, path: seq<Key>, k: Key)
    requires Trail(schema, main, before, admit, path) && k in admit
    requires var at := path[|path| - 1]; PointsAt(schema, main, k, at) || PointsAt(schema, before, k, at)
    ensures Trail(schema, main, before, admit, path + [k])
  {
    var longer := path + [k];
    forall i | 0 < i < |longer|
      ensures longer[i] in admit
      ensures PointsAt(schema, main, longer[i], longer[i - 1]) || PointsAt(schema, before, longer[i], longer[i - 1])
    {
      if i < |path| {
        assert PointsAt(schema, main, path[i], path[i - 1]) || PointsAt(schema, before, path[i], path[i - 1]);
      }
    }
  }

  lemma GoesStep(schema: Schema, main: map<Key, Row>, before: map<Key, Row>, admit: set<Key>, parent: Key, at: Key,
                 k: Key)
    requires at == parent || GoesWith(schema, main, before, admit, parent, at)
    requires k != parent && k in admit && (PointsAt(schema, main, k, at) || PointsAt(schema, before, k, at))
    ensures GoesWith(schema, main, before, admit, parent, k)
  {
    var path := [parent];
    if at != parent {
      path :| Trail(schema, main, before, admit, path) && path[0] == parent && path[|path| - 1] == at;
    }
    TrailAppend(schema, main, before, admit, path, k);
    var longer := path + [k];
    assert longer[0] == parent && longer[|longer| - 1] == k;
  }

  /** What is reached in the relation graph is what goes with the record. */
  lemma DescendsExactly(schema: Schema, main: map<Key, Row>, before: map<Key, Row>, admit: set<Key>, parent: Key,
                        k: Key)
    requires Related(schema) && Identified(schema, parent) && AllIdentified(schema, main.Keys + before.Keys)
    ensures Descends(Children(schema, main, before, parent), admit, parent, k) <==>
      GoesWith(schema, main, before, admit, parent, k)
  {
    var g := Children(schema, main, before, parent);
    forall path: seq<Key> | path != [] && path[0] == parent
      ensures Path(g, admit, path) <==> Trail(schema, main, before, admit, path)
    {
      PathIsTrail(schema, main, before, admit, parent, path);
    }
  }

  lemma PathIsTrail(schema: Schema, main: map<Key, Row>, before: map<Key, Row>, admit: set<Key>, parent: Key,
                    path: seq<Key>)
    requires Related(schema) && Identified(schema, parent) && AllIdentified(schema, main.Keys + before.Keys)
    requires path != [] && path[0] == parent
    ensures Path(Children(schema, main, before, parent), admit, path) <==> Trail(schema, main, before, admit, path)
  {
    var g := Children(schema, main, before, parent);
    if Path(g, admit, path) {
      forall i | 0 < i < |path|
        ensures PointsAt(schema, main, path[i], path[i - 1]) || PointsAt(schema, before, path[i], path[i - 1])
      {
        assert path[i] in Edges(g, path[i - 1]);
        EdgeIs(schema, main, before, parent, path[i - 1], path[i]);
      }
    }
    if Trail(schema, main, before, admit, path) {
      forall i | 0 < i < |path| ensures path[i] in Edges(g, path[i - 1]) {
        if i > 1 {
          assert PointsAt(schema, main, path[i - 1], path[i - 2]) || PointsAt(schema, before, path[i - 1], path[i - 2]);
        }
        EdgeIs(schema, main, before, parent, path[i - 1], path[i]);
      }
    }
  }

  lemma EdgeIs(schema: Schema, main: map<Key, Row>, before: map<Key, Row>, parent: Key, at: Key, k: Key)
    requires Related(schema) && Identified(schema, parent) && AllIdentified(schema, main.Keys + before.Keys)
    requires at in main.Keys + before.Keys + {parent}
    ensures k in Edges(Children(schema, main, before, parent), at) <==>
      PointsAt(schema, main, k, at) || PointsAt(schema, before, k, at)
  {
    ChildIs(schema, main, at, k);
    ChildIs(schema, before, at, k);
  }

  predicate Distinct(keys: seq<Key>) {
    forall i, j :: 0 <= i < j < |keys| ==> keys[i] != keys[j]
  }

  ghost predicate Found(g: Graph, admit: set<Key>, parent: Key, seen: set<Key>, result: seq<Key>) {
    && parent in seen
    && Distinct(result)
    && (forall k :: k in result <==> k in seen && k != parent && k in admit)
    && (forall k :: k in result ==> Descends(g, admit, parent, k))
  }

  /** Every record found and no longer waiting has had its children seen. */
  ghost predicate Explored(g: Graph, parent: Key, seen: set<Key>, todo: seq<Key>, result: seq<Key>) {
    && (forall k :: k in todo ==> k == parent || k in result)
    && (forall u :: (u == parent || u in result) && u !in todo ==> Edges(g, u) <= seen)
  }

  lemma VisitExplores(g: Graph, parent: Key, at: Key, seen0: set<Key>, todo: seq<Key>, result: seq<Key>,
                      found: seq<Key>)
    requires Explored(g, parent, seen0, todo + [at], result)
    ensures Explored(g, parent, seen0 + Edges(g, at), todo + found, result + found)
    ensures at == parent || at in result
  {
    assert at in todo + [at];
    forall k | k in todo + found ensures k == parent || k in result + found {
      if k in todo { assert k in todo + [at]; }
    }
    forall u | (u == parent || u in result + found) && u !in todo + found ensures Edges(g, u) <= seen0 + Edges(g, at) {
      if u != at { assert u !in todo + [at]; }
    }
  }

  lemma AllFound(g: Graph, admit: set<Key>, parent: Key, seen: set<Key>, result: seq<Key>)
    requires Found(g, admit, parent, seen, result) && Explored(g, parent, seen, [], result)
    ensures forall k :: k in result <==> Descends(g, admit, parent, k)
  {
    forall k | Descends(g, admit, parent, k) ensures k in result {
      var path :| Path(g, admit, path) && path[0] == parent && path[|path| - 1] == k;
      ClosedHoldsPath(g, admit, {parent} + (set x | x in result), path);
    }
  }

  /** The worklist search over a relation graph that may hold cycles: no record twice, and exactly
      the ones reachable along admitted records. A record is admitted or refused once, when first seen. */
  method DescendantsWhere(g: Graph, parent: Key, admit: set<Key>) returns (result: seq<Key>)
    requires Closed(g)
    ensures Distinct(result)
    ensures forall k :: k in result <==> Descends(g, admit, parent, k)
  {
    var seen := {parent};
    var todo := [parent];
    result := [];
    while todo != []
      invariant Found(g, admit, parent, seen, result) && seen <= g.Keys + {parent}
      invariant Explored(g, parent, seen, todo, result)
      decreases |g.Keys + {parent} - seen|, |todo|
    {
      var at, rest := todo[|todo| - 1], todo[..|todo| - 1];
      assert todo == rest + [at];
      VisitExplores(g, parent, at, seen, rest, result, []);
      var more, found := Visit(g, parent, admit, at, seen, result);
      VisitExplores(g, parent, at, seen, rest, result, found);
      Shrinks(g.Keys + {parent}, seen, more);
      if found != [] { assert found[0] in more; }
      seen, todo, result := more, rest + found, result + found;
    }
    AllFound(g, admit, parent, seen, result);
  }

  /** The children of one record: the admitted ones not seen before. */
  method Visit(g: Graph, parent: Key, admit: set<Key>, at: Key, seen0: set<Key>, ghost result: seq<Key>)
    returns (seen: set<Key>, found: seq<Key>)
    requires Found(g, admit, parent, seen0, result) && (at == parent || at in result)
    ensures seen == seen0 + Edges(g, at)
    ensures Found(g, admit, parent, seen, result + found)
    ensures forall k :: k in found ==> k in seen && k !in seen0
  {
    seen, found := seen0, [];
    var children := Edges(g, at);
    while children != {}
      invariant children <= Edges(g, at) && seen0 <= seen && seen + children == seen0 + Edges(g, at)
      invariant Found(g, admit, parent, seen, result + found)
      invariant forall k :: k in found ==> k in seen && k !in seen0
    {
      var child :| child in children;
      children := children - {child};
      if child !in seen {
        seen := seen + {child};
        if child in admit {
          DescendsStep(g, admit, parent, at, child);
          assert result + (found + [child]) == (result + found) + [child];
          found := found + [child];
        }
      }
    }
  }

  lemma Shrinks(all: set<Key>, start: set<Key>, seen: set<Key>)
    requires start <= seen <= all
    ensures start == seen || |all - seen| < |all - start|
  {
    var kept, had := all - seen, all - start;
    assert had == kept + (had - kept);
    assert |had| == |kept| + |had - kept|;
    assert had - kept == seen - start;
    assert seen == start + (seen - start);
  }
}
