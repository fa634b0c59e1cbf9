/** Transactions with nested savepoints over the store, the change journal and the calls they submit. */
module Sessions {
  import opened Rows
  import opened Journal

  /** What the store keeps, and a savepoint of it restores: the visible rows, the calls queued, those
      of them settled or refused, and the next ordinal. */
  datatype Store = Store(main: map<Key, Row>, queued: set<nat>, finished: set<nat>, next: nat)

  /** One level of a transaction: the store with the transaction's own account of it. */
  datatype Level = Level(store: Store, changes: Changes, submitted: set<nat>)

  /** Every record whose visible row differs is covered. */
  ghost predicate CoversDifference(before: map<Key, Row>, after: map<Key, Row>, changes: Changes) {
    forall k :: Get(before, k) != Get(after, k) ==> Covers(changes, k)
  }

  predicate Allocated(s: Store) {
    s.finished <= s.queued && forall i :: i in s.queued ==> i < s.next
  }

  /** The account of one level, told from the store the transaction began with: the journal covers
      what differs, and the calls submitted are exactly those queued since. */
  ghost predicate Accounts(base: Store, l: Level) {
    && CoversDifference(base.main, l.store.main, l.changes)
    && Wellformed(l.changes)
    && Allocated(base) && Allocated(l.store) && base.next <= l.store.next
    && base.queued <= l.store.queued && l.submitted == l.store.queued - base.queued
  }

  class Client {
    var store: Store
    var open: bool
    var submitted: set<nat>
    var savepoints: seq<Level>
    const changes: ModelChanges
    const journal: ModelChanges
    var committed: Store
    ghost var seen: map<Key, Row>

    function Current(): Level
      reads this, changes
    {
      Level(store, changes.models, submitted)
    }

    /** `journal` covers what was committed since it was last taken; each open level accounts for
        itself. */
    ghost predicate Valid()
      reads this, changes, journal
    {
      && changes != journal
      && Wellformed(journal.models)
      && CoversDifference(seen, committed.main, journal.models)
      && Allocated(committed)
      && (!open ==> store == committed && savepoints == [])
      && (open ==> Accounts(committed, Current()))
      && (open ==> forall i :: 0 <= i < |savepoints| ==> Accounts(committed, savepoints[i]))
    }

    constructor (store: Store)
      requires Allocated(store)
      ensures Valid() && fresh(changes) && fresh(journal) && !open && this.store == store && committed == store
      ensures seen == store.main
    {
      this.store, open, submitted, savepoints := store, false, {}, [];
      changes := new ModelChanges();
      journal := new ModelChanges();
      committed, seen := store, store.main;
    }

    method BeginSession() returns (ok: bool)
      requires Valid()
      modifies this, changes
      ensures Valid() && open && ok == !old(open) && committed == old(committed) && seen == old(seen)
      ensures ok ==> Current() == Level(old(store), map[], {}) && savepoints == []
      ensures !ok ==> Current() == old(Current()) && savepoints == old(savepoints)
    {
      if open {
        return false;
      }
      changes.models := map[];
      submitted, savepoints, open := {}, [], true;
      return true;
    }

    // ------------------------------------------------------------ inside a session

    /** A statement on one main row. Only a statement that reports no affected row leaves the journal
        alone, and such a one changed nothing. */
    method WriteRow(k: Key, row: Option<Row>, affected: bool)
      requires Valid() && open && (!affected ==> Get(store.main, k) == row)
      modifies this, changes
      ensures Valid() && open && savepoints == old(savepoints) && committed == old(committed) && seen == old(seen)
      ensures store == old(store).(main := Put(old(store).main, k, row)) && submitted == old(submitted)
      ensures affected ==> Covers(changes.models, k)
    {
      ghost var was := changes.models;
      store := store.(main := Put(store.main, k, row));
      if affected {
        changes.Record(k);
        RecordCovers(was, k);
      }
      RowDifference(committed.main, old(store).main, store.main, k, was, changes.models);
    }

    /** A statement without a record identity refreshes the whole model. */
    method WriteModel(model: string, rows: map<Key, Row>)
      requires Valid() && open && forall k :: k in rows ==> k.model == model
      modifies this, changes
      ensures Valid() && open && savepoints == old(savepoints) && committed == old(committed) && seen == old(seen)
      ensures forall k :: Get(store.main, k) == if k.model == model then Get(rows, k) else Get(old(store).main, k)
      ensures store == old(store).(main := store.main) && submitted == old(submitted)
    {
      ghost var was := changes.models;
      var others := map k | k in store.main && k.model != model :: store.main[k];
      store := store.(main := others + rows);
      changes.MarkAll(model);
      ModelDifference(committed.main, old(store).main, store.main, model, was, changes.models);
    }

    /** Queue a call: its ordinal may be one a rolled-back scope gave before. */
    method Submit() returns (ordinal: nat)
      requires Valid() && open
      modifies this
      ensures Valid() && open && savepoints == old(savepoints) && committed == old(committed) && seen == old(seen)
      ensures ordinal == old(store).next
      ensures store == old(store).(queued := old(store).queued + {ordinal}, next := ordinal + 1)
      ensures submitted == old(submitted) + {ordinal} && ordinal in submitted && ordinal !in store.finished
    {
      ordinal := store.next;
      store := store.(queued := store.queued + {ordinal}, next := ordinal + 1);
      submitted := submitted + {ordinal};
    }

    /** Calls settled, refused or dropped keep their rows. */
    method Finish(ids: set<nat>)
      requires Valid() && open
      modifies this
      ensures Valid() && open && savepoints == old(savepoints) && committed == old(committed) && seen == old(seen)
      ensures store == old(store).(finished := old(store).finished + ids * old(store).queued)
      ensures submitted == old(submitted)
    {
      store := store.(finished := store.finished + ids * store.queued);
    }

    /** Only a call this transaction submitted and did not roll back takes companions, and of those
        exactly the ones not finished since are still in the queue to take them. */
    method TakesCompanion(ordinal: nat) returns (takes: bool)
      requires Valid() && open
      ensures takes <==> ordinal in store.queued && ordinal !in committed.queued && ordinal !in store.finished
    {
      takes := ordinal in submitted && ordinal in store.queued && ordinal !in store.finished;
    }

    // -------------------------------------------------------------------- savepoints

    method Savepoint()
      requires Valid() && open
      modifies this
      ensures Valid() && open && Current() == old(Current()) && committed == old(committed) && seen == old(seen)
      ensures savepoints == old(savepoints) + [Current()]
    {
      savepoints := savepoints + [Level(store, changes.models, submitted)];
    }

    method Release() returns (ok: bool)
      requires Valid() && open
      modifies this
      ensures Valid() && open && Current() == old(Current()) && committed == old(committed) && seen == old(seen)
      ensures ok == (old(savepoints) != [])
      ensures savepoints == if ok then old(savepoints)[..|old(savepoints)| - 1] else []
    {
      ok := savepoints != [];
      if ok {
        savepoints := savepoints[..|savepoints| - 1];
      }
    }

    /** Rows, queue, ordinals, journal and submitted calls all return to the savepoint. */
    method RollbackSavepoint() returns (ok: bool)
      requires Valid() && open
      modifies this, changes
      ensures Valid() && open && committed == old(committed) && seen == old(seen)
      ensures ok == (old(savepoints) != [])
      ensures ok ==> Current() == old(savepoints)[|old(savepoints)| - 1]
      ensures ok ==> savepoints == old(savepoints)[..|old(savepoints)| - 1]
      ensures !ok ==> Current() == old(Current()) && savepoints == []
    {
      ok := savepoints != [];
      if ok {
        var last := savepoints[|savepoints| - 1];
        savepoints := savepoints[..|savepoints| - 1];
        submitted := last.submitted;
        store := last.store;
        changes.models := last.changes;
      }
    }

    // ---------------------------------------------------------------------- the end

    method RollbackSession()
      requires Valid() && open
      modifies this
      ensures Valid() && !open && store == committed == old(committed) && seen == old(seen)
    {
      open, savepoints, store := false, [], committed;
    }

    /** Every record whose visible row differs between begin and commit is covered by the journal, as
        is every one that differed at an earlier commit since the journal was last taken. */
    method CommitSession() returns (ok: bool)
      requires Valid() && open
      modifies this, changes, journal
      ensures Valid() && !open && seen == old(seen)
      ensures ok == (old(savepoints) == [])
      ensures ok ==> store == old(store) && journal.models == Merged(old(journal.models), old(changes.models))
      ensures ok ==> CoversDifference(old(committed).main, store.main, journal.models)
      ensures ok ==> CoversDifference(seen, store.main, journal.models)
      ensures !ok ==> store == old(committed) && journal.models == old(journal.models)
    {
      if savepoints != [] {
        RollbackSession();
        return false;
      }
      ghost var before := journal.models;
      journal.Merge(changes.models);
      MergeWellformed(before, changes.models);
      MergedDifference(seen, committed.main, store.main, before, changes.models);
      open, committed := false, store;
      return true;
    }

    /** A consumer takes the journal with everything committed so far. */
    method TakeChanges() returns (taken: Changes)
      requires Valid()
      modifies this`seen, journal
      ensures Valid() && taken == old(journal.models) && journal.models == map[]
      ensures CoversDifference(old(seen), committed.main, taken) && seen == committed.main
    {
      taken := journal.models;
      journal.models := map[];
      seen := committed.main;
    }
  }

  lemma RecordCovers(changes: Changes, k: Key)
    requires Wellformed(changes)
    ensures var after := changes[k.model := Added(Get(changes, k.model), {k})];
      Wellformed(after) && Covers(after, k) && forall other :: Covers(changes, other) ==> Covers(after, other)
  {
    if k.model in changes && changes[k.model].Keys? {
      SubsetSize(changes[k.model].keys, changes[k.model].keys + {k});
    }
  }

  lemma RowDifference(base: map<Key, Row>, was: map<Key, Row>, now: map<Key, Row>, k: Key, before: Changes,
                      after: Changes)
    requires CoversDifference(base, was, before) && forall other :: other != k ==> Get(now, other) == Get(was, other)
    requires Get(now, k) == Get(was, k) || Covers(after, k)
    requires forall other :: Covers(before, other) ==> Covers(after, other)
    ensures CoversDifference(base, now, after)
  {
  }

  lemma ModelDifference(base: map<Key, Row>, was: map<Key, Row>, now: map<Key, Row>, model: string, before: Changes,
                        after: Changes)
    requires CoversDifference(base, was, before) && after == before[model := All]
    requires forall k: Key :: k.model != model ==> Get(now, k) == Get(was, k)
    ensures CoversDifference(base, now, after)
  {
  }

  lemma MergedDifference(seen: map<Key, Row>, base: map<Key, Row>, now: map<Key, Row>, journal: Changes,
                         changes: Changes)
    requires CoversDifference(seen, base, journal) && CoversDifference(base, now, changes)
    ensures CoversDifference(seen, now, Merged(journal, changes))
    ensures CoversDifference(base, now, Merged(journal, changes))
  {
    forall k | Covers(journal, k) || Covers(changes, k) ensures Covers(Merged(journal, changes), k) {
      MergeCovers(journal, changes, k);
    }
  }
}
