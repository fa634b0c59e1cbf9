/** Committed model changes: bounded per model, and never less than what really changed. */
module Journal {
  import opened Rows

  const MAX_KEYS_PER_MODEL: nat := 4096

  datatype ModelChange = Keys(keys: set<Key>) | All

  type Changes = map<string, ModelChange>

  function Bounded(keys: set<Key>): ModelChange {
    if |keys| > MAX_KEYS_PER_MODEL then All else Keys(keys)
  }

  function Added(change: Option<ModelChange>, keys: set<Key>): ModelChange {
    match change
    case None => Bounded(keys)
    case Some(Keys(had)) => Bounded(had + keys)
    case Some(All) => All
  }

  /** A key is covered by its own entry or by a full refresh of its model. */
  predicate Covers(changes: Changes, k: Key) {
    k.model in changes && (changes[k.model].All? || k in changes[k.model].keys)
  }

  /** Every entry holds keys of its own model, at least one and no more than the bound. */
  predicate Wellformed(changes: Changes) {
    forall m :: m in changes && changes[m].Keys? ==>
      0 < |changes[m].keys| <= MAX_KEYS_PER_MODEL && forall k :: k in changes[m].keys ==> k.model == m
  }

  /** Two journals as one: a model either refreshes in full is refreshed in full, and so is one whose
      keys together pass the bound. */
  function Merged(a: Changes, b: Changes): Changes {
    map m | m in a.Keys + b.Keys ::
      if m !in b then a[m]
      else if b[m].All? then All
      else Added(Get(a, m), b[m].keys)
  }

  lemma MergeCommutes(a: Changes, b: Changes)
    requires Wellformed(a) && Wellformed(b)
    ensures Merged(a, b) == Merged(b, a)
  {
    forall m | m in a && m in b && a[m].Keys? && b[m].Keys? ensures Merged(a, b)[m] == Merged(b, a)[m] {
      assert a[m].keys + b[m].keys == b[m].keys + a[m].keys;
    }
  }

  lemma SubsetSize(a: set<Key>, b: set<Key>)
    requires a <= b
    ensures |a| <= |b|
  {
    assert b == a + (b - a);
    assert |b| == |a| + |b - a|;
  }

  lemma MergeWellformed(a: Changes, b: Changes)
    requires Wellformed(a) && Wellformed(b)
    ensures Wellformed(Merged(a, b))
  {
    forall m | m in Merged(a, b) && Merged(a, b)[m].Keys? ensures 0 < |Merged(a, b)[m].keys| {
      if m in a && m in b { SubsetSize(a[m].keys, a[m].keys + b[m].keys); }
    }
  }

  predicate Overflows(a: Changes, b: Changes, m: string) {
    m in b && b[m].Keys? && Added(Get(a, m), b[m].keys).All?
  }

  /** Merging covers exactly what either covers, except that a model past the bound is covered whole. */
  lemma MergeCovers(a: Changes, b: Changes, k: Key)
    ensures Covers(Merged(a, b), k) <==> Covers(a, k) || Covers(b, k) || Overflows(a, b, k.model)
  {
  }

  /** Which is, of journals within the bound, a model both hold keys of, more than 4096 of them together. */
  lemma MergeCoversExactly(a: Changes, b: Changes, k: Key)
    requires Wellformed(a) && Wellformed(b)
    ensures Covers(Merged(a, b), k) <==> (
      || (k.model in a && (a[k.model].All? || k in a[k.model].keys))
      || (k.model in b && (b[k.model].All? || k in b[k.model].keys))
      || (k.model in a && k.model in b && a[k.model].Keys? && b[k.model].Keys?
          && |a[k.model].keys + b[k.model].keys| > 4096))
  {
    MergeCovers(a, b, k);
    assert k.model in b && b[k.model].Keys? && k.model !in a ==> |b[k.model].keys| <= MAX_KEYS_PER_MODEL;
  }

  function MergedOne(a: Option<ModelChange>, b: Option<ModelChange>): Option<ModelChange> {
    match b
    case None => a
    case Some(All) => Some(All)
    case Some(Keys(keys)) => Some(Added(a, keys))
  }

  lemma MergedOneIs(a: Changes, b: Changes, m: string)
    ensures Get(Merged(a, b), m) == MergedOne(Get(a, m), Get(b, m))
  {
  }

  predicate Fits(c: Option<ModelChange>) {
    c.Some? && c.value.Keys? ==> |c.value.keys| <= MAX_KEYS_PER_MODEL
  }

  lemma MergedOneAssociates(a: Option<ModelChange>, b: Option<ModelChange>, c: Option<ModelChange>)
    requires Fits(a) && Fits(b) && Fits(c)
    ensures MergedOne(MergedOne(a, b), c) == MergedOne(a, MergedOne(b, c))
  {
    if a.Some? && b.Some? && c.Some? && a.value.Keys? && b.value.Keys? && c.value.Keys? {
      assert a.value.keys + b.value.keys + c.value.keys == a.value.keys + (b.value.keys + c.value.keys);
      SubsetSize(a.value.keys + b.value.keys, a.value.keys + b.value.keys + c.value.keys);
      SubsetSize(b.value.keys + c.value.keys, a.value.keys + (b.value.keys + c.value.keys));
    }
  }

  /** The order in which commits are accumulated has no part in what is refreshed. */
  lemma MergeAssociates(a: Changes, b: Changes, c: Changes, m: string)
    requires Wellformed(a) && Wellformed(b) && Wellformed(c)
    ensures Get(Merged(Merged(a, b), c), m) == Get(Merged(a, Merged(b, c)), m)
  {
    MergedOneIs(a, b, m);
    MergedOneIs(b, c, m);
    MergedOneIs(Merged(a, b), c, m);
    MergedOneIs(a, Merged(b, c), m);
    MergedOneAssociates(Get(a, m), Get(b, m), Get(c, m));
  }

  class ModelChanges {
    var models: Changes

    constructor ()
      ensures models == map[]
    {
      models := map[];
    }

    method MarkAll(model: string)
      modifies this
      ensures models == old(models)[model := All]
    {
      models := models[model := All];
    }

    method Record(key: Key)
      modifies this
      ensures models == old(models)[key.model := Added(Get(old(models), key.model), {key})]
      ensures var was := Get(old(models), key.model);
        var had := if was.Some? && was.value.Keys? then was.value.keys else {};
        models[key.model] ==
          if was == Some(All) || |had + {key}| > 4096 then All else Keys(had + {key})
    {
      var change := if key.model in models then models[key.model] else Keys({});
      if change.Keys? {
        change := Keys(change.keys + {key});
        if |change.keys| > MAX_KEYS_PER_MODEL {
          change := All;
        }
      }
      assert {} + {key} == {key};
      models := models[key.model := change];
    }

    method RecordAll(model: string, keys: set<Key>)
      requires forall k :: k in keys ==> k.model == model
      modifies this
      ensures models == WithKeys(old(models), model, keys)
    {
      var rest := keys;
      while rest != {}
        invariant rest <= keys && models == WithKeys(old(models), model, keys - rest)
      {
        var k :| k in rest;
        WithOneMore(old(models), model, keys, rest, k);
        rest := rest - {k};
        Record(k);
      }
      assert keys - {} == keys;
    }

    /** Merge in whatever order models and keys come. */
    method Merge(other: Changes)
      requires Wellformed(other)
      modifies this
      ensures models == Merged(old(models), other)
    {
      var rest := other.Keys;
      MergedNothing(models, other);
      while rest != {}
        invariant rest <= other.Keys && models == Merged(old(models), other - rest)
      {
        var m :| m in rest;
        MergedOneMore(old(models), other, rest, m);
        match other[m] {
          case All => MarkAll(m);
          case Keys(keys) => RecordAll(m, keys);
        }
        rest := rest - {m};
      }
      assert other - {} == other;
    }
  }

  function WithKeys(models: Changes, model: string, keys: set<Key>): Changes {
    if keys == {} then models else models[model := Added(Get(models, model), keys)]
  }

  lemma WithOneMore(models: Changes, model: string, keys: set<Key>, rest: set<Key>, k: Key)
    requires k in rest && rest <= keys
    ensures var now := WithKeys(models, model, keys - rest);
      WithKeys(models, model, keys - (rest - {k})) == now[model := Added(Get(now, model), {k})]
  {
    assert keys - (rest - {k}) == (keys - rest) + {k};
    AddedOneMore(Get(models, model), keys - rest, k);
  }

  lemma AddedOneMore(change: Option<ModelChange>, keys: set<Key>, k: Key)
    ensures keys == {} ==> Added(change, {k}) == Added(change, keys + {k})
    ensures keys != {} ==> Added(Some(Added(change, keys)), {k}) == Added(change, keys + {k})
  {
    if change.Some? && change.value.Keys? {
      assert change.value.keys + keys + {k} == change.value.keys + (keys + {k});
      SubsetSize(change.value.keys + keys, change.value.keys + (keys + {k}));
    }
    SubsetSize(keys, keys + {k});
    if keys == {} { assert keys + {k} == {k}; }
  }

  lemma MergedNothing(a: Changes, b: Changes)
    ensures Merged(a, b - b.Keys) == a
  {
    assert b - b.Keys == map[];
  }

  lemma MergedOneMore(a: Changes, b: Changes, rest: set<string>, m: string)
    requires m in rest && rest <= b.Keys
    ensures var done := Merged(a, b - rest);
      Merged(a, b - (rest - {m})) == done[m := if b[m].All? then All else Added(Get(done, m), b[m].keys)]
  {
  }
}
