/**
 * What batches of granules keep true of the store: a row and its arrays are always
 * published together, and nothing published before is touched.
 */
module Granules {
  import opened Options
  import opened Tables
  import opened Catalogs
  import opened Icechunk
  import opened Intents
  import opened Transactions
  import opened Declarations
  import opened Commits
  import opened Progress
  import opened Ingest

  // -- groups and nodes after one record ------------------------------------------------

  /** A tree of nodes that is not empty has its root. */
  predicate RootedTree(nodes: map<Path, Node>) {
    nodes != map[] ==> [] in nodes
  }

  /** The writer stays under the granule's group, and a success makes that group. */
  predicate WellBehaved(w: Written) {
    && RootedTree(w.nodes)
    && (w.Wrote? ==> w.nodes != map[])
    && (w.Failed? && w.cleanup.Stuck? ==> RootedTree(w.cleanup.left))
  }

  /** The writer failed after staging something, and so did the cleanup, leaving something. */
  predicate LeavesNodes(w: Written) {
    w.Failed? && w.nodes != map[] && w.cleanup.Stuck? && w.cleanup.left != map[]
  }

  lemma StagedNodes(base: map<Path, Node>, changes: Changes, id: string, nodes: map<Path, Node>, p: Path)
    ensures p in Overlay(base, Staged(changes, id, nodes)) <==>
              (Under(id, p) && p[1..] in nodes) || p in Overlay(base, changes)
  {}

  lemma DeletedNodes(base: map<Path, Node>, changes: Changes, id: string, p: Path)
    ensures p in Overlay(base, DeleteDir(base, changes, id)) <==> !Under(id, p) && p in Overlay(base, changes)
  {}

  /** Does this record get as far as the writer? */
  predicate Called(base: map<Path, Node>, b: Batch, item: Item) {
    item.id !in b.committed && !GranuleExists(base, b.changes, item.id)
  }

  /** A record adds at most its own group: when it is written, or when its leftovers stay. */
  lemma StageGroups(base: map<Path, Node>, b: Batch, item: Item, key: int, w: Written, g: string)
    requires WellBehaved(w)
    ensures GranuleExists(base, StageOne(base, b, item, key, w).changes, g) <==>
              || GranuleExists(base, b.changes, g)
              || (g == item.id && Called(base, b, item) && (w.Wrote? || LeavesNodes(w)))
  {
    hide Overlay;
    hide Staged;
    hide DeleteDir;
    if Called(base, b, item) {
      var staged := Staged(b.changes, item.id, w.nodes);
      assert [g][1..] == [] && [item.id][1..] == [];
      StagedNodes(base, b.changes, item.id, w.nodes, [g]);
      StagedNodes(base, b.changes, item.id, w.nodes, [item.id]);
      if w.Failed? {
        DeletedNodes(base, staged, item.id, [g]);
        if w.cleanup.Stuck? {
          StagedNodes(base, DeleteDir(base, staged, item.id), item.id, w.cleanup.left, [g]);
        }
      }
    }
  }

  /** Every change lies under a group that the base does not have. */
  ghost predicate OffBase(base: map<Path, Node>, changes: Changes) {
    forall p | p in changes :: p != [] && [p[0]] !in base
  }

  lemma StageOffBase(base: map<Path, Node>, b: Batch, item: Item, key: int, w: Written)
    requires OffBase(base, b.changes)
    ensures OffBase(base, StageOne(base, b, item, key, w).changes)
  {
    hide RecordSkip;
    hide SkipReason;
    hide GranuleExists;
    if Called(base, b, item) {
      NotInBase(base, b.changes, item.id);
    }
  }

  lemma NotInBase(base: map<Path, Node>, changes: Changes, id: string)
    requires OffBase(base, changes) && !GranuleExists(base, changes, id)
    ensures [id] !in base
  {
    if [id] in changes {
      assert [id][0] == id;
    }
  }

  // -- the whole batch ------------------------------------------------------------------------

  /** The books of a batch: ids, rows and skip reasons account for every record so far. */
  ghost predicate Accounted(base: map<Path, Node>, b: Batch, items: seq<Item>, n: nat)
    requires n <= |items|
  {
    && OffBase(base, b.changes)
    && |b.keep| == |b.committed|
    && (forall i | 0 <= i < |b.keep| :: b.keep[i].id == b.committed[i])
    && (forall i, j | 0 <= i < j < |b.committed| :: b.committed[i] != b.committed[j])
    && (forall i | 0 <= i < |b.committed| :: [b.committed[i]] !in base && GranuleExists(base, b.changes, b.committed[i]))
    && (forall j | 0 <= j < n :: items[j].id in b.committed || items[j].id in b.skipped)
  }

  /** A record that is not committed leaves the committed ones as they were. */
  lemma SkipAccounts(base: map<Path, Node>, b: Batch, b': Batch, items: seq<Item>, n: nat)
    requires n < |items| && Accounted(base, b, items, n)
    requires b'.keep == b.keep && b'.committed == b.committed && OffBase(base, b'.changes)
    requires b.skipped.Keys <= b'.skipped.Keys && items[n].id in b'.skipped
    requires forall i | 0 <= i < |b.committed| :: GranuleExists(base, b'.changes, b.committed[i])
    ensures Accounted(base, b', items, n + 1)
  {
    hide GranuleExists;
    hide OffBase;
  }

  lemma CommitAccounts(base: map<Path, Node>, b: Batch, b': Batch, items: seq<Item>, n: nat, row: Row)
    requires n < |items| && Accounted(base, b, items, n)
    requires items[n].id !in b.committed && [items[n].id] !in base && row.id == items[n].id
    requires b'.keep == b.keep + [row] && b'.committed == b.committed + [items[n].id] && OffBase(base, b'.changes)
    requires b'.skipped == b.skipped
    requires forall i | 0 <= i < |b'.committed| :: GranuleExists(base, b'.changes, b'.committed[i])
    ensures Accounted(base, b', items, n + 1)
  {
    hide GranuleExists;
    hide OffBase;
  }

  lemma StageAccounts(base: map<Path, Node>, b: Batch, items: seq<Item>, n: nat, key: int, w: Written)
    requires n < |items| && WellBehaved(w) && Accounted(base, b, items, n)
    ensures Accounted(base, StageOne(base, b, items[n], key, w), items, n + 1)
  {
    hide GranuleExists;
    hide OffBase;
    hide CleanedUp;
    hide Staged;
    var b' := StageOne(base, b, items[n], key, w);
    StageOffBase(base, b, items[n], key, w);
    forall i | 0 <= i < |b'.committed| ensures GranuleExists(base, b'.changes, b'.committed[i]) {
      StageGroups(base, b, items[n], key, w, b'.committed[i]);
    }
    if Called(base, b, items[n]) && w.Wrote? {
      NotInBase(base, b.changes, items[n].id);
      CommitAccounts(base, b, b', items, n, Row(items[n].id, w.arrayPath, key));
    } else {
      SkipAccounts(base, b, b', items, n);
    }
  }

  lemma NothingAccounted(base: map<Path, Node>, items: seq<Item>)
    ensures Accounted(base, NOTHING, items, 0)
  {}

  lemma {:induction false} BatchAccounts(base: map<Path, Node>, items: seq<Item>, written: seq<Written>, hash: int -> int, n: nat)
    requires n <= |items| == |written| && forall i | 0 <= i < |written| :: WellBehaved(written[i])
    ensures Accounted(base, StageAll(base, items, written, hash, n), items, n)
  {
    hide Accounted;
    hide StageOne;
    if n == 0 {
      NothingAccounted(base, items);
    } else {
      BatchAccounts(base, items, written, hash, n - 1);
      StageAccounts(base, StageAll(base, items, written, hash, n - 1), items, n - 1, KeyOf(items[n - 1], hash), written[n - 1]);
    }
  }

  /** Among the first `n` records, some writer that was called failed and left nodes behind. */
  ghost predicate LeftSomething(base: map<Path, Node>, items: seq<Item>, written: seq<Written>, hash: int -> int, n: nat)
    requires n <= |items| == |written|
  {
    n > 0 &&
    (LeftSomething(base, items, written, hash, n - 1)
     || (LeavesNodes(written[n - 1]) && Called(base, StageAll(base, items, written, hash, n - 1), items[n - 1])))
  }

  /** A group in the session that is neither the base's nor a committed granule's. */
  ghost predicate Stray(base: map<Path, Node>, b: Batch, g: string) {
    GranuleExists(base, b.changes, g) && [g] !in base && g !in b.committed
  }

  lemma StageStray(base: map<Path, Node>, b: Batch, item: Item, key: int, w: Written, g: string)
    requires WellBehaved(w) && OffBase(base, b.changes)
    ensures Stray(base, StageOne(base, b, item, key, w), g) <==>
              Stray(base, b, g) || (g == item.id && Called(base, b, item) && LeavesNodes(w))
  {
    hide GranuleExists;
    hide OffBase;
    StageGroups(base, b, item, key, w, g);
    if Called(base, b, item) {
      NotInBase(base, b.changes, item.id);
    }
  }

  ghost predicate AnyStray(base: map<Path, Node>, b: Batch) {
    exists g: string :: Stray(base, b, g)
  }

  lemma StageAnyStray(base: map<Path, Node>, b: Batch, item: Item, key: int, w: Written)
    requires WellBehaved(w) && OffBase(base, b.changes)
    ensures AnyStray(base, StageOne(base, b, item, key, w)) <==>
              AnyStray(base, b) || (LeavesNodes(w) && Called(base, b, item))
  {
    hide Stray;
    hide LeavesNodes;
    hide Called;
    hide StageOne;
    var b' := StageOne(base, b, item, key, w);
    StageStray(base, b, item, key, w, item.id);
    if g :| Stray(base, b, g) {
      StageStray(base, b, item, key, w, g);
    }
    if g' :| Stray(base, b', g') {
      StageStray(base, b, item, key, w, g');
    }
  }

  /** There is a stray group in the end exactly when some called writer left nodes behind. */
  lemma {:induction false} StrayIff(base: map<Path, Node>, items: seq<Item>, written: seq<Written>, hash: int -> int, n: nat)
    requires n <= |items| == |written| && forall i | 0 <= i < |written| :: WellBehaved(written[i])
    ensures LeftSomething(base, items, written, hash, n) <==> AnyStray(base, StageAll(base, items, written, hash, n))
  {
    hide AnyStray;
    hide LeavesNodes;
    hide Called;
    hide StageOne;
    if n == 0 {
      NoStray(base);
    } else {
      StrayIff(base, items, written, hash, n - 1);
      BatchAccounts(base, items, written, hash, n - 1);
      StageAnyStray(base, StageAll(base, items, written, hash, n - 1), items[n - 1], KeyOf(items[n - 1], hash), written[n - 1]);
    }
  }

  lemma NoStray(base: map<Path, Node>)
    ensures !AnyStray(base, NOTHING)
  {}

  // -- a row and its arrays --------------------------------------------------------------------

  ghost predicate HasRow(rows: multiset<Row>, g: string) {
    exists r | r in rows :: r.id == g
  }

  /** One row for each granule group, and one group for each row. */
  ghost predicate Paired(nodes: map<Path, Node>, rows: multiset<Row>) {
    && (forall g: string :: [g] in nodes <==> HasRow(rows, g))
    && (forall r | r in rows :: rows[r] == 1)
    && (forall r, r' | r in rows && r' in rows && r.id == r'.id :: r == r')
  }

  /** A kept row belongs to a committed id, and no row that was there has its id. */
  lemma KeptIsNew(base: map<Path, Node>, b: Batch, items: seq<Item>, n: nat, rows: multiset<Row>, r: Row)
    requires n <= |items| && Accounted(base, b, items, n) && Paired(base, rows) && r in b.keep
    ensures forall earlier | earlier in rows :: earlier.id != r.id
  {
    hide GranuleExists;
    hide OffBase;
    var i :| 0 <= i < |b.keep| && b.keep[i] == r;
    assert b.committed[i] == r.id && [r.id] !in base;
    forall earlier | earlier in rows ensures earlier.id != r.id {
      assert HasRow(rows, earlier.id);
    }
  }

  /** The rows kept are new: their ids are the committed ones, once each. */
  lemma KeptRows(base: map<Path, Node>, b: Batch, items: seq<Item>, n: nat, rows: multiset<Row>)
    requires n <= |items| && Accounted(base, b, items, n) && Paired(base, rows)
    ensures forall r | r in rows + multiset(b.keep) :: (rows + multiset(b.keep))[r] == 1
    ensures forall r, r' | r in rows + multiset(b.keep) && r' in rows + multiset(b.keep) && r.id == r'.id :: r == r'
  {
    hide Accounted;
    forall r | r in b.keep ensures forall earlier | earlier in rows :: earlier.id != r.id {
      KeptIsNew(base, b, items, n, rows, r);
    }
    KeptDistinct(base, b, items, n);
    MergedRows(rows, b.keep);
  }

  lemma KeptDistinct(base: map<Path, Node>, b: Batch, items: seq<Item>, n: nat)
    requires n <= |items| && Accounted(base, b, items, n)
    ensures forall i, j | 0 <= i < j < |b.keep| :: b.keep[i].id != b.keep[j].id
  {
    hide GranuleExists;
    hide OffBase;
  }

  lemma MergedRows(rows: multiset<Row>, keep: seq<Row>)
    requires forall i, j | 0 <= i < j < |keep| :: keep[i].id != keep[j].id
    requires forall r | r in keep :: forall earlier | earlier in rows :: earlier.id != r.id
    requires forall r | r in rows :: rows[r] == 1
    requires forall r, r' | r in rows && r' in rows && r.id == r'.id :: r == r'
    ensures forall r | r in rows + multiset(keep) :: (rows + multiset(keep))[r] == 1
    ensures forall r, r' | r in rows + multiset(keep) && r' in rows + multiset(keep) && r.id == r'.id :: r == r'
  {
    DistinctOnce(keep);
    forall r, r' | r in rows + multiset(keep) && r' in rows + multiset(keep) && r.id == r'.id ensures r == r' {
      assert r in rows || r in keep;
      assert r' in rows || r' in keep;
    }
  }

  lemma KeptHasRow(base: map<Path, Node>, b: Batch, items: seq<Item>, n: nat, rows: multiset<Row>, g: string)
    requires n <= |items| && Accounted(base, b, items, n) && Paired(base, rows)
    ensures HasRow(rows + multiset(b.keep), g) <==> [g] in base || g in b.committed
  {
    hide GranuleExists;
    hide OffBase;
    if HasRow(rows, g) {
      var r :| r in rows && r.id == g;
      assert r in rows + multiset(b.keep);
    }
    if g in b.committed {
      var i :| 0 <= i < |b.committed| && b.committed[i] == g;
      assert b.keep[i] in rows + multiset(b.keep);
    }
    if HasRow(rows + multiset(b.keep), g) {
      var r :| r in rows + multiset(b.keep) && r.id == g;
      if r in rows {
        assert HasRow(rows, g);
      } else {
        var i :| 0 <= i < |b.keep| && b.keep[i] == r;
        assert b.committed[i] == g;
      }
    }
  }

  lemma {:induction false} DistinctOnce(rows: seq<Row>)
    requires forall i, j | 0 <= i < j < |rows| :: rows[i].id != rows[j].id
    ensures forall r | r in rows :: multiset(rows)[r] == 1
  {
    if rows != [] {
      DistinctOnce(rows[1..]);
      assert rows == [rows[0]] + rows[1..];
      assert rows[0] !in rows[1..];
    }
  }

  /** After a batch the pairing holds exactly when no stray group is left. */
  lemma PairedIffNoStray(base: map<Path, Node>, b: Batch, items: seq<Item>, n: nat, rows: multiset<Row>)
    requires n <= |items| && Accounted(base, b, items, n) && Paired(base, rows)
    ensures Paired(Overlay(base, b.changes), rows + multiset(b.keep)) <==> !AnyStray(base, b)
  {
    var nodes, all := Overlay(base, b.changes), rows + multiset(b.keep);
    KeptRows(base, b, items, n, rows);
    forall g: string ensures HasRow(all, g) <==> [g] in base || g in b.committed {
      KeptHasRow(base, b, items, n, rows, g);
    }
    forall g: string ensures ([g] in nodes <==> HasRow(all, g)) <==> !Stray(base, b, g) {
      BaseGroupStays(base, b, g);
    }
    if AnyStray(base, b) {
      var g :| Stray(base, b, g);
      assert !([g] in nodes <==> HasRow(all, g));
    }
  }

  lemma BaseGroupStays(base: map<Path, Node>, b: Batch, g: string)
    requires OffBase(base, b.changes)
    ensures [g] in base ==> GranuleExists(base, b.changes, g)
  {
    if [g] in b.changes {
      assert [g][0] == g;
    }
  }

  // -- what was there before ---------------------------------------------------------------------

  /** No node without the group it belongs to. */
  ghost predicate Rooted(nodes: map<Path, Node>) {
    forall p | p in nodes :: p != [] ==> [p[0]] in nodes
  }

  /** Every node is still there, as it was. */
  ghost predicate Keeps(nodes: map<Path, Node>, later: map<Path, Node>) {
    forall p | p in nodes :: p in later && later[p] == nodes[p]
  }

  /** Nothing a batch stages touches an existing node. */
  lemma BaseUntouched(base: map<Path, Node>, changes: Changes)
    requires Rooted(base) && OffBase(base, changes)
    ensures Keeps(base, Overlay(base, changes))
  {}

  lemma StageRooted(base: map<Path, Node>, b: Batch, item: Item, key: int, w: Written)
    requires WellBehaved(w) && Rooted(Overlay(base, b.changes))
    ensures Rooted(Overlay(base, StageOne(base, b, item, key, w).changes))
  {
    hide Overlay;
    hide Staged;
    hide DeleteDir;
    if Called(base, b, item) {
      var staged := Staged(b.changes, item.id, w.nodes);
      StagedRooted(base, b.changes, item.id, w.nodes);
      if w.Failed? {
        DeletedRooted(base, staged, item.id);
        if w.cleanup.Stuck? {
          StagedRooted(base, DeleteDir(base, staged, item.id), item.id, w.cleanup.left);
        }
      }
    }
  }

  lemma StagedRooted(base: map<Path, Node>, changes: Changes, id: string, nodes: map<Path, Node>)
    requires RootedTree(nodes) && Rooted(Overlay(base, changes))
    ensures Rooted(Overlay(base, Staged(changes, id, nodes)))
  {
    hide Overlay;
    hide Staged;
    var after := Overlay(base, Staged(changes, id, nodes));
    forall p | p in after && p != [] ensures [p[0]] in after {
      StagedNodes(base, changes, id, nodes, p);
      StagedNodes(base, changes, id, nodes, [p[0]]);
      assert [p[0]][1..] == [];
    }
  }

  lemma DeletedRooted(base: map<Path, Node>, changes: Changes, id: string)
    requires Rooted(Overlay(base, changes))
    ensures Rooted(Overlay(base, DeleteDir(base, changes, id)))
  {
    hide Overlay;
    hide DeleteDir;
    var after := Overlay(base, DeleteDir(base, changes, id));
    forall p | p in after && p != [] ensures [p[0]] in after {
      DeletedNodes(base, changes, id, p);
      DeletedNodes(base, changes, id, [p[0]]);
    }
  }

  lemma {:induction false} BatchRooted(base: map<Path, Node>, items: seq<Item>, written: seq<Written>, hash: int -> int, n: nat)
    requires n <= |items| == |written| && Rooted(base) && forall i | 0 <= i < |written| :: WellBehaved(written[i])
    ensures Rooted(Overlay(base, StageAll(base, items, written, hash, n).changes))
  {
    hide StageOne;
    if n == 0 {
      assert Overlay(base, map[]) == base;
    } else {
      BatchRooted(base, items, written, hash, n - 1);
      StageRooted(base, StageAll(base, items, written, hash, n - 1), items[n - 1], KeyOf(items[n - 1], hash), written[n - 1]);
    }
  }

  // -- publishing a batch ---------------------------------------------------------------------------

  const NOBODY := Env([], [])

  /** Nobody else commits during the call. */
  const ALONE := Traffic([], NOBODY)

  /** The table's rows in a snapshot. */
  ghost function RowsAt(w: World, k: nat, name: string): multiset<Row>
    requires Sane(w) && k < |w.history|
  {
    var pointers := ReadPointers(w.history[k]);
    if name in pointers then Contents(w.store.files[pointers[name]]) else multiset{}
  }

  /** Snapshot `k` pairs rows and groups, in a hierarchy without orphans, and has the table. */
  ghost predicate GranuleStore(w: World, k: nat, name: string) {
    && Sane(w) && k < |w.history|
    && name in ReadPointers(w.history[k])
    && Rooted(w.history[k].nodes)
    && Paired(w.history[k].nodes, RowsAt(w, k, name))
  }

  lemma AppendIsStaged(st: Store, c: Catalog, name: string, data: seq<Row>)
    requires Resolves(st, CurrentPointers(c)) && name in c.pointers
    ensures var a := ApplyAll(st, c, [AppendRows(name, data)]);
            a.error.None? && name in a.catalog.staged
  {
    hide Apply;
    hide Rebuild;
    var intent := AppendRows(name, data);
    assert [intent][0] == intent && [intent][1..] == [];
    ApplyIsCommit(st, c, intent);
    var first := Apply(st, c, intent);
    assert ApplyAll(first.store, first.catalog, []) == Applied(first.store, first.catalog, None);
  }

  lemma AloneLands(w: World, tx: Tx)
    requires Ready(w, tx) && Stale(w, tx) == 0 && tx.maxRetries >= 0
    requires AppliedWork(w, tx).error.None? && AppliedWork(w, tx).catalog.staged != map[]
    ensures var run := Attempts(w, tx, 0, NOBODY);
            var a := AppliedWork(w, tx);
            && run.outcome == Returned(|w.history|)
            && run.world == World(a.store, w.history
                 + [Landing(Tip(w.history), tx.session, CommitMetadata(CurrentPointers(a.catalog)))])
  {
    var t := NextTurn(w, tx, 0, NOBODY);
    assert ArrivalsAt(NOBODY, 0) == [];
    PublishRefusals(w.history, tx.(catalog := AppliedWork(w, tx).catalog), 0);
  }

  /** A batch with rows to publish lands on the tip, with its rows appended to the table. */
  lemma BatchLands(w: World, writer: nat, batch: Batch, name: string)
    requires Sane(w) && !Used(w.store, writer) && name in ReadPointers(Tip(w.history)) && batch.keep != []
    ensures Ready(w, BatchTx(w, writer, batch, name))
    ensures var run := Transactions.Committed(w, BatchTx(w, writer, batch, name), NOBODY);
            && run.outcome == Returned(|w.history|)
            && Sane(run.world) && |run.world.history| == |w.history| + 1 && w.history <= run.world.history
            && Grows(w.store, run.world.store)
            && run.world.history[|w.history|].nodes == Overlay(Tip(w.history).nodes, batch.changes)
            && name in ReadPointers(run.world.history[|w.history|])
            && RowsAt(run.world, |w.history|, name) == RowsAt(w, |w.history| - 1, name) + multiset(batch.keep)
  {
    BatchReady(w, writer, batch, name);
    var tx := BatchTx(w, writer, batch, name);
    assert tx.(unmanaged := tx.catalog.staged.Keys) == tx;
    AppendIsStaged(w.store, tx.catalog, name, SortByKey(batch.keep));
    AppliedReady(w, tx, 0, NOBODY);
    AloneLands(w, tx);
    ReturnedMeansOnce(w, tx, 0, NOBODY);
    AppendedRows(View(w.store, ReadPointers(Tip(w.history))), name, SortByKey(batch.keep));
    BatchRows(w, Attempts(w, tx, 0, NOBODY).world, tx, name, batch);
  }

  lemma AppendedRows(tables: TableRows, name: string, data: seq<Row>)
    requires name in tables
    ensures PerformAll(tables, [AppendRows(name, data)]) == Some(tables[name := tables[name] + multiset(data)])
  {
    assert [AppendRows(name, data)][1..] == [];
  }

  lemma BatchRows(w: World, w': World, tx: Tx, name: string, batch: Batch)
    requires Sane(w) && name in ReadPointers(Tip(w.history)) && tx.intents == [AppendRows(name, SortByKey(batch.keep))]
    requires PublishedOnce(w', |w.history|, tx) && w.history <= w'.history && Grows(w.store, w'.store)
    ensures name in ReadPointers(w'.history[|w.history|])
    ensures RowsAt(w', |w.history|, name) == RowsAt(w, |w.history| - 1, name) + multiset(batch.keep)
  {
    var pointers := ReadPointers(Tip(w.history));
    assert w'.history[|w.history| - 1] == Tip(w.history);
    GrowsKeepsView(w.store, w'.store, pointers);
    AppendedRows(View(w'.store, pointers), name, SortByKey(batch.keep));
    var after := View(w'.store, ReadPointers(w'.history[|w.history|]));
    assert name in after;
  }

  /**
   * One batch on its own: when it is published, every id it was given is in `committed` or
   * `skipped`, no earlier node is touched, and the new snapshot pairs rows with groups if
   * and only if no failed cleanup left nodes behind.
   */
  lemma BatchKeepsPairing(w: World, writer: nat, items: seq<Item>, written: seq<Written>, hash: int -> int, name: string)
    requires w.history != [] && GranuleStore(w, |w.history| - 1, name) && !Used(w.store, writer)
    requires |items| == |written| && forall i | 0 <= i < |written| :: WellBehaved(written[i])
    ensures var (w', r) := IngestRun(w, writer, items, written, hash, name, ALONE);
            && (r.NoFootprint? || r.BatchFailed? ==> w' == w)
            && (r.Committed? || r.NoFootprint? || r.BatchFailed?)
            && (r.Committed? ==>
                  && Sane(w') && |w'.history| == |w.history| + 1 && w.history <= w'.history && Grows(w.store, w'.store)
                  && (forall i | 0 <= i < |items| :: items[i].id in r.committed || items[i].id in r.skipped)
                  && Keeps(Tip(w.history).nodes, Tip(w'.history).nodes)
                  && (GranuleStore(w', |w.history|, name) <==>
                        !LeftSomething(Tip(w.history).nodes, items, written, hash, |items|)))
  {
    var base := Tip(w.history).nodes;
    var batch := Whole(w, items, written, hash);
    BatchAccounts(base, items, written, hash, |items|);
    StrayIff(base, items, written, hash, |items|);
    BatchRooted(base, items, written, hash, |items|);
    assert base == w.history[|w.history| - 1].nodes;
    if AllPlaced(items) && batch.keep != [] {
      BatchLands(w, writer, batch, name);
      PairedIffNoStray(base, batch, items, |items|, RowsAt(w, |w.history| - 1, name));
      BaseUntouched(base, batch.changes);
    }
  }

  // -- a batch that others overtake ----------------------------------------------------------------

  /** A batch's books hold on any store that has none of the groups it changes. */
  lemma AccountedElsewhere(base: map<Path, Node>, other: map<Path, Node>, b: Batch, items: seq<Item>, n: nat)
    requires n <= |items| && Accounted(base, b, items, n) && OffBase(other, b.changes)
    ensures Accounted(other, b, items, n)
  {
    forall i | 0 <= i < |b.committed|
      ensures [b.committed[i]] !in other && GranuleExists(other, b.changes, b.committed[i])
    {
      assert [b.committed[i]] !in base && GranuleExists(base, b.changes, b.committed[i]);
      assert [b.committed[i]] in b.changes && [b.committed[i]][0] == b.committed[i];
    }
  }

  lemma StrayElsewhere(base: map<Path, Node>, other: map<Path, Node>, b: Batch, g: string)
    requires OffBase(base, b.changes) && OffBase(other, b.changes)
    ensures Stray(base, b, g) <==> Stray(other, b, g)
  {
    assert [g][0] == g;
  }

  lemma AnyStrayElsewhere(base: map<Path, Node>, other: map<Path, Node>, b: Batch)
    requires OffBase(base, b.changes) && OffBase(other, b.changes)
    ensures AnyStray(base, b) <==> AnyStray(other, b)
  {
    hide Stray;
    if g :| Stray(base, b, g) {
      StrayElsewhere(base, other, b, g);
    }
    if g' :| Stray(other, b, g') {
      StrayElsewhere(base, other, b, g');
    }
  }

  lemma RootedElsewhere(base: map<Path, Node>, other: map<Path, Node>, changes: Changes)
    requires OffBase(base, changes) && OffBase(other, changes)
    requires Rooted(Overlay(base, changes)) && Rooted(other)
    ensures Rooted(Overlay(other, changes))
  {
    forall p | p in Overlay(other, changes) && p != [] ensures [p[0]] in Overlay(other, changes) {
      assert [p[0]][0] == p[0];
      if p in changes {
        assert p in Overlay(base, changes);
      }
    }
  }

  /** The batch lands on `parent`, which need not be the snapshot it was staged on. */
  lemma PairedOnParent(base: map<Path, Node>, parent: map<Path, Node>, b: Batch, items: seq<Item>, n: nat, rows: multiset<Row>)
    requires n <= |items| && Accounted(base, b, items, n) && OffBase(parent, b.changes) && Paired(parent, rows)
    requires Rooted(parent) && Rooted(Overlay(base, b.changes))
    ensures Paired(Overlay(parent, b.changes), rows + multiset(b.keep)) <==> !AnyStray(base, b)
    ensures Rooted(Overlay(parent, b.changes))
    ensures Keeps(parent, Overlay(parent, b.changes))
  {
    assert OffBase(base, b.changes);
    AccountedElsewhere(base, parent, b, items, n);
    AnyStrayElsewhere(base, parent, b);
    PairedIffNoStray(parent, b, items, n, rows);
    RootedElsewhere(base, parent, b.changes);
    BaseUntouched(parent, b.changes);
  }

  /** The last snapshot of `w` is a batch laid over the one before it. */
  ghost predicate BatchOn(w: World, name: string, batch: Batch) {
    && Sane(w) && |w.history| > 1
    && var last := |w.history| - 1;
    && LaidOver(w.history[last - 1].nodes, batch.changes, w.history[last].nodes)
    && name in ReadPointers(w.history[last - 1]) && name in ReadPointers(w.history[last])
    && RowsAt(w, last, name) == RowsAt(w, last - 1, name) + multiset(batch.keep)
  }

  lemma RowsViewed(w: World, k: nat, name: string)
    requires Sane(w) && k < |w.history|
    ensures var tables := View(w.store, ReadPointers(w.history[k]));
            && (name in tables <==> name in ReadPointers(w.history[k]))
            && (name in tables ==> RowsAt(w, k, name) == tables[name])
  {
    hide Contents;
  }

  lemma PublishedBatch(w: World, tx: Tx, name: string, batch: Batch)
    requires |w.history| > 1 && PublishedOnce(w, |w.history| - 1, tx)
    requires tx.intents == [AppendRows(name, SortByKey(batch.keep))] && tx.session.changes == batch.changes
    ensures BatchOn(w, name, batch)
  {
    hide PerformAll;
    hide View;
    hide RowsAt;
    hide SortByKey;
    hide Overlay;
    hide GoodStore;
    var last := |w.history| - 1;
    RowsViewed(w, last - 1, name);
    RowsViewed(w, last, name);
    AppendNeeds(View(w.store, ReadPointers(w.history[last - 1])), name, SortByKey(batch.keep));
    AppendedRows(View(w.store, ReadPointers(w.history[last - 1])), name, SortByKey(batch.keep));
  }

  lemma AppendNeeds(tables: TableRows, name: string, data: seq<Row>)
    ensures PerformAll(tables, [AppendRows(name, data)]).Some? ==> name in tables
  {}

  /** A call only adds to the branch, and what it publishes is its batch on the snapshot before. */
  lemma IngestGrows(w: World, writer: nat, items: seq<Item>, written: seq<Written>, hash: int -> int, name: string, traffic: Traffic)
    requires Sane(w) && !Used(w.store, writer) && Apart(traffic, writer) && |items| == |written|
    ensures var (w', r) := IngestRun(w, writer, items, written, hash, name, traffic);
            && Sane(w') && w.history <= w'.history && Grows(w.store, w'.store)
            && (r.Committed? ==>
                  && AllPlaced(items) && |w'.history| > |w.history| && r.id == |w'.history| - 1
                  && BatchOn(w', name, Whole(w, items, written, hash))
                  && r.committed == Whole(w, items, written, hash).committed && r.skipped == Whole(w, items, written, hash).skipped)
            && (r.BatchFailed? ==>
                  Whole(w, items, written, hash).keep == [] && r.skipped == Whole(w, items, written, hash).skipped)
  {
    hide Transactions.Committed;
    hide Whole;
    hide LandAll;
    hide BatchOn;
    var batch := Whole(w, items, written, hash);
    OvertakenReady(w, writer, batch, name, traffic);
    var landed := Overtaken(w, traffic);
    if AllPlaced(items) && batch.keep != [] {
      assert OnBase(landed, BatchTx(w, writer, batch, name));
      CallGrows(landed, BatchTx(w, writer, batch, name), batch, name, traffic.commit);
    }
  }

  lemma RaisedSane(w: World, tx: Tx, env: Env)
    requires Ready(w, tx) && ForeignTo(env, tx.catalog.writer) && Attempts(w, tx, 0, env).outcome.Raised?
    ensures Sane(Attempts(w, tx, 0, env).world)
  {
    hide Attempts;
    RaisedChained(w, tx, 0, env, |w.history| - 1);
  }

  lemma CallGrows(w: World, tx: Tx, batch: Batch, name: string, env: Env)
    requires Ready(w, tx) && ForeignTo(env, tx.catalog.writer) && OnBase(w, tx) && tx.unmanaged == {}
    requires tx.intents == [AppendRows(name, SortByKey(batch.keep))] && tx.session.changes == batch.changes
    ensures var run := Transactions.Committed(w, tx, env);
            && Sane(run.world) && w.history <= run.world.history && Grows(w.store, run.world.store)
            && (run.outcome.Returned? ==>
                  |run.world.history| > |w.history| && run.outcome.id == |run.world.history| - 1 && BatchOn(run.world, name, batch))
  {
    hide SortByKey;
    hide View;
    hide Sane;
    hide Grows;
    hide Attempts;
    hide PublishedOnce;
    hide BatchOn;
    hide Valid;
    assert tx.(unmanaged := tx.catalog.staged.Keys) == tx;
    HistoryKept(w, tx, 0, env);
    ReturnedMeansOnce(w, tx, 0, env);
    var run := Attempts(w, tx, 0, env);
    if run.outcome.Returned? {
      ReturnedGrows(w, tx, 0, env);
      PublishedIsLast(run.world, run.outcome.id, tx);
      PublishedBatch(run.world, tx, name, batch);
    } else {
      RaisedSane(w, tx, env);
    }
  }

  lemma PublishedIsLast(w: World, id: nat, tx: Tx)
    requires PublishedOnce(w, id, tx)
    ensures Sane(w) && |w.history| > 1 && id == |w.history| - 1
  {}

  lemma StoreStands(w: World, k: nat, name: string)
    requires GranuleStore(w, k, name)
    ensures Sane(w) && k < |w.history| && Rooted(w.history[k].nodes)
  {}

  lemma {:induction false} ReturnedGrows(w: World, tx: Tx, attempt: nat, env: Env)
    requires Ready(w, tx) && ForeignTo(env, tx.catalog.writer) && Attempts(w, tx, attempt, env).outcome.Returned?
    ensures |Attempts(w, tx, attempt, env).world.history| > |w.history|
    decreases tx.maxRetries + 1 - attempt
  {
    hide Turn;
    hide Valid;
    var t := NextTurn(w, tx, attempt, env);
    TurnSplits(w, tx, attempt, env);
    ArrivedHistory(w, tx, attempt, env);
    if t.outcome.None? {
      ReturnedGrows(t.world, t.tx, attempt + 1, env);
    }
  }

  /** From snapshot `from` to snapshot `to`, each pairs rows with groups and keeps all nodes of those before it. */
  ghost predicate PairedFrom(w: World, from: nat, to: nat, name: string) {
    && to < |w.history|
    && (forall k | from <= k <= to :: GranuleStore(w, k, name))
    && (forall i, k | from <= i <= k <= to :: Keeps(w.history[i].nodes, w.history[k].nodes))
  }

  /**
   * The others whose commits land during a call keep the pairing and all earlier nodes, and
   * have made none of the groups of the batch that lands on top of them.
   */
  ghost predicate Considerate(w: World, w': World, published: bool, batch: Batch, name: string)
    requires |w.history| > 0 && (published ==> |w'.history| > |w.history|) && w.history <= w'.history
  {
    var last := if published then |w'.history| - 2 else |w'.history| - 1;
    && PairedFrom(w', |w.history| - 1, last, name)
    && (published ==> OffBase(w'.history[last].nodes, batch.changes))
  }

  lemma BatchOnPaired(w: World, base: map<Path, Node>, b: Batch, items: seq<Item>, n: nat, name: string)
    requires BatchOn(w, name, b) && GranuleStore(w, |w.history| - 2, name)
    requires n <= |items| && Accounted(base, b, items, n) && OffBase(w.history[|w.history| - 2].nodes, b.changes)
    requires Rooted(Overlay(base, b.changes))
    ensures GranuleStore(w, |w.history| - 1, name) <==> !AnyStray(base, b)
    ensures Keeps(w.history[|w.history| - 2].nodes, w.history[|w.history| - 1].nodes)
  {
    hide Accounted;
    hide AnyStray;
    hide Paired;
    hide Rooted;
    hide Sane;
    LaidOverIsOverlay(w.history[|w.history| - 2].nodes, b.changes, w.history[|w.history| - 1].nodes);
    PairedOnParent(base, w.history[|w.history| - 2].nodes, b, items, n, RowsAt(w, |w.history| - 2, name));
  }

  /**
   * A batch that others overtake: if they keep the pairing and stay off its groups, the
   * snapshot it publishes pairs rows with groups if and only if no failed cleanup left nodes
   * behind, and it too keeps every earlier node.
   */
  lemma BatchPairsAmongOthers(
    w: World, writer: nat, items: seq<Item>, written: seq<Written>, hash: int -> int, name: string, traffic: Traffic)
    requires w.history != [] && GranuleStore(w, |w.history| - 1, name) && !Used(w.store, writer) && Apart(traffic, writer)
    requires |items| == |written| && forall i | 0 <= i < |written| :: WellBehaved(written[i])
    requires var (w', r) := IngestRun(w, writer, items, written, hash, name, traffic);
             && r.Committed? && |w'.history| > |w.history| && w.history <= w'.history
             && Considerate(w, w', true, Whole(w, items, written, hash), name)
    ensures var w' := IngestRun(w, writer, items, written, hash, name, traffic).0;
            && (PairedFrom(w', |w.history| - 1, |w'.history| - 1, name) <==>
                  !LeftSomething(Tip(w.history).nodes, items, written, hash, |items|))
            && Keeps(w'.history[|w'.history| - 2].nodes, w'.history[|w'.history| - 1].nodes)
  {
    hide GranuleStore;
    hide Keeps;
    hide IngestRun;
    hide LeftSomething;
    hide AnyStray;
    hide Accounted;
    hide BatchOn;
    hide Whole;
    hide OffBase;
    hide Paired;
    hide Rooted;
    hide Sane;
    hide Resolves;
    StoreStands(w, |w.history| - 1, name);
    var base := Tip(w.history).nodes;
    var batch := Whole(w, items, written, hash);
    var w' := IngestRun(w, writer, items, written, hash, name, traffic).0;
    WholeAccounts(w, items, written, hash);
    IngestGrows(w, writer, items, written, hash, name, traffic);
    BatchOnPaired(w', base, batch, items, |items|, name);
    PairedSnoc(w', |w.history| - 1, |w'.history| - 2, name);
  }

  lemma WholeAccounts(w: World, items: seq<Item>, written: seq<Written>, hash: int -> int)
    requires w.history != [] && Rooted(Tip(w.history).nodes)
    requires |items| == |written| && forall i | 0 <= i < |written| :: WellBehaved(written[i])
    ensures var base, batch := Tip(w.history).nodes, Whole(w, items, written, hash);
            && Accounted(base, batch, items, |items|) && Rooted(Overlay(base, batch.changes))
            && (LeftSomething(base, items, written, hash, |items|) <==> AnyStray(base, batch))
  {
    hide StageAll;
    BatchAccounts(Tip(w.history).nodes, items, written, hash, |items|);
    StrayIff(Tip(w.history).nodes, items, written, hash, |items|);
    BatchRooted(Tip(w.history).nodes, items, written, hash, |items|);
  }

  /** One more snapshot. */
  lemma PairedSnoc(w: World, from: nat, to: nat, name: string)
    requires from <= to && to + 1 < |w.history| && PairedFrom(w, from, to, name)
    requires Keeps(w.history[to].nodes, w.history[to + 1].nodes)
    ensures PairedFrom(w, from, to + 1, name) <==> GranuleStore(w, to + 1, name)
  {
    hide GranuleStore;
    forall i, k | from <= i <= k <= to + 1 ensures Keeps(w.history[i].nodes, w.history[k].nodes) {
      if k == to + 1 && i <= to {
        assert Keeps(w.history[i].nodes, w.history[to].nodes);
      }
    }
  }

  // -- what an unpublished batch leaves in its session ---------------------------------------------

  lemma KeptChanges(base: map<Path, Node>, b: Batch, items: seq<Item>, n: nat)
    requires n <= |items| && Accounted(base, b, items, n) && b.keep != []
    ensures b.changes != map[]
  {
    assert [b.committed[0]] !in base && GranuleExists(base, b.changes, b.committed[0]);
  }

  /**
   * The staged arrays of a batch that is not published are dropped, unless a row is to be
   * published and the table has no pointer when it is looked up: then, and only then, they
   * are still in the session, and the result says that the table was not resolved.
   */
  lemma LeftUncommittedIff(w: World, writer: nat, items: seq<Item>, written: seq<Written>, hash: int -> int, name: string,
                           traffic: Traffic)
    requires Sane(w) && !Used(w.store, writer) && Apart(traffic, writer) && |items| == |written|
    requires forall i | 0 <= i < |written| :: WellBehaved(written[i])
    ensures var r := IngestRun(w, writer, items, written, hash, name, traffic).1;
            var session := SessionAfter(w, writer, items, written, hash, name, traffic);
            var stranded := AllPlaced(items) && Whole(w, items, written, hash).keep != []
                            && name !in ReadPointers(Tip(Overtaken(w, traffic).history));
            && (session.None? <==> r.NoFootprint?) && (r.NoFootprint? <==> !AllPlaced(items))
            && (r.Unresolved? <==> stranded)
            && (!r.Committed? && session.Some? ==> (HasUncommittedChanges(session.value) <==> stranded))
  {
    hide Transactions.Committed;
    hide Accounted;
    hide StageAll;
    hide LandAll;
    hide Valid;
    var base := Tip(w.history).nodes;
    BatchAccounts(base, items, written, hash, |items|);
    OvertakenReady(w, writer, Whole(w, items, written, hash), name, traffic);
    if AllPlaced(items) && Whole(w, items, written, hash).keep != [] {
      KeptChanges(base, Whole(w, items, written, hash), items, |items|);
    }
  }

  lemma GroupOnly(id: string, nodes: map<Path, Node>)
    requires nodes.Keys == {[]}
    ensures Staged(map[], id, nodes) == map[[id] := Some(nodes[[]])]
  {
    assert forall p: Path | Under(id, p) && p[1..] == [] :: p == [id];
    assert [id][1..] == [];
    assert Placed(id, nodes) == {[id]};
  }

  lemma OneStaged(hash: int -> int)
    ensures StageAll(map[], [Item("g", Some(0))], [Wrote(map[[] := Node(0)], "/g")], hash, 1)
         == Batch(map[["g"] := Some(Node(0))], ["g"], map[], [Row("g", "/g", hash(0))])
  {
    hide RecordSkip;
    hide CleanedUp;
    hide SkipReason;
    var items, written := [Item("g", Some(0))], [Wrote(map[[] := Node(0)], "/g")];
    GroupOnly("g", written[0].nodes);
    assert StageAll(map[], items, written, hash, 0) == NOTHING;
  }

  /** The exception: one granule written into a store without the table. */
  lemma UnresolvedKeepsChanges(hash: int -> int)
    ensures var w := World(Store(map[], 0), [INITIAL]);
            var items, written := [Item("g", Some(0))], [Wrote(map[[] := Node(0)], "/g")];
            && Sane(w) && Apart(ALONE, 1) && WellBehaved(written[0])
            && IngestRun(w, 1, items, written, hash, "granules", ALONE) == (w, Unresolved(NotDeclared))
            && SessionAfter(w, 1, items, written, hash, "granules", ALONE) == Some(Session(0, map[["g"] := Some(Node(0))], None))
  {
    hide StageAll;
    hide Transactions.Committed;
    OneStaged(hash);
  }

  // -- why a record was skipped -----------------------------------------------------------------

  /** The new reason comes last, any earlier one stays in front of it, and other ids keep theirs. */
  lemma RecordKeepsReason(skipped: map<string, string>, id: string, reason: string)
    ensures var after := RecordSkip(skipped, id, reason);
            && id in after && |reason| <= |after[id]| && after[id][|after[id]| - |reason|..] == reason
            && (id !in skipped ==> after[id] == reason)
            && (forall other | other in skipped ::
                  other in after && skipped[other] <= after[other] && (other != id ==> after[other] == skipped[other]))
  {
    if id in skipped && skipped[id] != "" {
      var front := skipped[id] + "; ";
      assert RecordSkip(skipped, id, reason)[id] == front + reason;
      assert (front + reason)[|front|..] == reason;
    }
  }

  lemma StageKeepsReason(base: map<Path, Node>, b: Batch, item: Item, key: int, w: Written, id: string)
    requires id in b.skipped
    ensures var b' := StageOne(base, b, item, key, w); id in b'.skipped && b.skipped[id] <= b'.skipped[id]
  {
    hide GranuleExists;
    hide RecordSkip;
    forall reason: string ensures var after := RecordSkip(b.skipped, item.id, reason); id in after && b.skipped[id] <= after[id] {
      RecordKeepsReason(b.skipped, item.id, reason);
    }
  }

  /** A reason once recorded stays at the front of the id's reasons: none is replaced by a later one. */
  lemma {:induction false} ReasonsAreKept(base: map<Path, Node>, items: seq<Item>, written: seq<Written>, hash: int -> int,
                                          n: nat, later: nat, id: string)
    requires n <= later <= |items| == |written| && id in StageAll(base, items, written, hash, n).skipped
    ensures id in StageAll(base, items, written, hash, later).skipped
    ensures StageAll(base, items, written, hash, n).skipped[id] <= StageAll(base, items, written, hash, later).skipped[id]
    decreases later
  {
    hide StageOne;
    if n < later {
      ReasonsAreKept(base, items, written, hash, n, later - 1, id);
      StageKeepsReason(base, StageAll(base, items, written, hash, later - 1), items[later - 1],
                       KeyOf(items[later - 1], hash), written[later - 1], id);
    }
  }

  // -- any number of batches ---------------------------------------------------------------------------

  datatype Call = Call(writer: nat, items: seq<Item>, written: seq<Written>, traffic: Traffic)

  /** What the callers owe: fresh transactions, writers that keep to their group, cleanup that succeeds. */
  ghost predicate Careful(call: Call) {
    && |call.items| == |call.written| && Apart(call.traffic, call.writer)
    && (forall i | 0 <= i < |call.written| :: WellBehaved(call.written[i]) && !LeavesNodes(call.written[i]))
  }

  lemma {:induction false} CarefulLeavesNothing(
    base: map<Path, Node>, items: seq<Item>, written: seq<Written>, hash: int -> int, n: nat)
    requires n <= |items| == |written| && forall i | 0 <= i < |written| :: !LeavesNodes(written[i])
    ensures !LeftSomething(base, items, written, hash, n)
  {
    hide StageAll;
    if n > 0 {
      CarefulLeavesNothing(base, items, written, hash, n - 1);
    }
  }

  /** The call can be made: its transaction is one that was not used before. */
  ghost predicate Callable(w: World, call: Call) {
    Sane(w) && !Used(w.store, call.writer) && Apart(call.traffic, call.writer) && |call.items| == |call.written|
  }

  ghost function AfterCall(w: World, call: Call, hash: int -> int, name: string): (World, Ingested)
    requires Callable(w, call)
  {
    IngestRun(w, call.writer, call.items, call.written, hash, name, call.traffic)
  }

  /** One call after another, each overtaken by its traffic. */
  ghost function IngestMany(w: World, calls: seq<Call>, hash: int -> int, name: string): World
    decreases |calls|
  {
    if calls == [] || !Callable(w, calls[0]) then w
    else IngestMany(AfterCall(w, calls[0], hash, name).0, calls[1..], hash, name)
  }

  /** During every call the others are considerate. */
  ghost predicate OthersConsiderate(w: World, calls: seq<Call>, hash: int -> int, name: string)
    decreases |calls|
  {
    calls == [] || !Callable(w, calls[0]) ||
    (var (next, r) := AfterCall(w, calls[0], hash, name);
     && |w.history| > 0 && w.history <= next.history && (r.Committed? ==> |next.history| > |w.history|)
     && Considerate(w, next, r.Committed?, Whole(w, calls[0].items, calls[0].written, hash), name)
     && OthersConsiderate(next, calls[1..], hash, name))
  }

  /** From the last snapshot of `w` on, every snapshot of `w'` pairs rows with groups and keeps all earlier nodes. */
  ghost predicate GrownFrom(w: World, w': World, name: string) {
    && Sane(w) && Sane(w') && w.history <= w'.history && Grows(w.store, w'.store)
    && PairedFrom(w', |w.history| - 1, |w'.history| - 1, name)
  }

  lemma StoreGrows(w: World, w': World, k: nat, name: string)
    requires GranuleStore(w, k, name) && Sane(w') && Grows(w.store, w'.store) && w.history <= w'.history
    ensures GranuleStore(w', k, name)
  {
    assert w'.history[k] == w.history[k];
  }

  lemma GrownByNone(w: World, name: string)
    requires w.history != [] && GranuleStore(w, |w.history| - 1, name)
    ensures GrownFrom(w, w, name)
  {}

  lemma OneCall(w: World, call: Call, hash: int -> int, name: string)
    requires w.history != [] && GranuleStore(w, |w.history| - 1, name) && Callable(w, call) && Careful(call)
    requires var (next, r) := AfterCall(w, call, hash, name);
             && w.history <= next.history && (r.Committed? ==> |next.history| > |w.history|)
             && Considerate(w, next, r.Committed?, Whole(w, call.items, call.written, hash), name)
    ensures GrownFrom(w, AfterCall(w, call, hash, name).0, name)
  {
    hide IngestRun;
    hide Sane;
    hide OffBase;
    hide GranuleStore;
    hide Whole;
    hide BatchOn;
    hide LeftSomething;
    assert Sane(w);
    IngestGrows(w, call.writer, call.items, call.written, hash, name, call.traffic);
    if AfterCall(w, call, hash, name).1.Committed? {
      BatchPairsAmongOthers(w, call.writer, call.items, call.written, hash, name, call.traffic);
      CarefulLeavesNothing(Tip(w.history).nodes, call.items, call.written, hash, |call.items|);
    }
  }

  lemma GrownTransitive(w0: World, w1: World, w2: World, name: string)
    requires GrownFrom(w0, w1, name) && GrownFrom(w1, w2, name)
    ensures GrownFrom(w0, w2, name)
  {
    hide GranuleStore;
    forall k | |w0.history| - 1 <= k < |w2.history| ensures GranuleStore(w2, k, name) {
      if k < |w1.history| - 1 {
        StoreGrows(w1, w2, k, name);
      }
    }
    forall i, k | |w0.history| - 1 <= i <= k < |w2.history| ensures Keeps(w2.history[i].nodes, w2.history[k].nodes) {
      NodesKept(w0, w1, w2, name, i, k);
    }
  }

  lemma NodesKept(w0: World, w1: World, w2: World, name: string, i: nat, k: nat)
    requires GrownFrom(w0, w1, name) && GrownFrom(w1, w2, name) && |w0.history| - 1 <= i <= k < |w2.history|
    ensures Keeps(w2.history[i].nodes, w2.history[k].nodes)
  {
    hide GranuleStore;
    var last := |w1.history| - 1;
    if i < last {
      assert w2.history[i] == w1.history[i] && w2.history[last] == w1.history[last];
      if k <= last {
        assert w2.history[k] == w1.history[k];
      } else {
        assert Keeps(w2.history[i].nodes, w2.history[last].nodes) && Keeps(w2.history[last].nodes, w2.history[k].nodes);
      }
    }
  }

  /**
   * Over any sequence of batches, and whoever overtakes them as long as those keep the
   * pairing and stay off the batch's groups, every snapshot published pairs each row with
   * its group, and each granule published earlier keeps its arrays as they were.
   */
  lemma {:induction false} BatchesKeepPairing(w: World, calls: seq<Call>, hash: int -> int, name: string)
    requires w.history != [] && GranuleStore(w, |w.history| - 1, name)
    requires forall i | 0 <= i < |calls| :: Careful(calls[i])
    requires OthersConsiderate(w, calls, hash, name)
    ensures GrownFrom(w, IngestMany(w, calls, hash, name), name)
    decreases |calls|
  {
    hide AfterCall;
    hide Considerate;
    hide GranuleStore;
    hide Careful;
    if calls == [] || !Callable(w, calls[0]) {
      GrownByNone(w, name);
    } else {
      var next := AfterCall(w, calls[0], hash, name).0;
      OneCall(w, calls[0], hash, name);
      assert GranuleStore(next, |next.history| - 1, name);
      BatchesKeepPairing(next, calls[1..], hash, name);
      GrownTransitive(w, next, IngestMany(next, calls[1..], hash, name), name);
    }
  }

  lemma AloneCall(w: World, call: Call, hash: int -> int, name: string)
    requires w.history != [] && GranuleStore(w, |w.history| - 1, name) && Callable(w, call) && Careful(call) && call.traffic == ALONE
    ensures var (next, r) := AfterCall(w, call, hash, name);
            && next.history != [] && w.history <= next.history && (r.Committed? ==> |next.history| > |w.history|)
            && Considerate(w, next, r.Committed?, Whole(w, call.items, call.written, hash), name)
            && GranuleStore(next, |next.history| - 1, name)
  {
    hide IngestRun;
    hide Sane;
    hide GranuleStore;
    hide Whole;
    hide LeftSomething;
    hide AnyStray;
    var (next, r) := AfterCall(w, call, hash, name);
    StoreStands(w, |w.history| - 1, name);
    BatchKeepsPairing(w, call.writer, call.items, call.written, hash, name);
    CarefulLeavesNothing(Tip(w.history).nodes, call.items, call.written, hash, |call.items|);
    WholeAccounts(w, call.items, call.written, hash);
    if r.Committed? {
      StoreGrows(w, next, |w.history| - 1, name);
      assert next.history[|w.history| - 1] == Tip(w.history);
    }
  }

  /** When nobody else commits during the calls, nothing is asked of anybody. */
  lemma {:induction false} AloneIsConsiderate(w: World, calls: seq<Call>, hash: int -> int, name: string)
    requires w.history != [] && GranuleStore(w, |w.history| - 1, name)
    requires forall i | 0 <= i < |calls| :: Careful(calls[i]) && calls[i].traffic == ALONE
    ensures OthersConsiderate(w, calls, hash, name)
    decreases |calls|
  {
    hide AfterCall;
    hide Considerate;
    hide GranuleStore;
    hide Careful;
    if calls != [] && Callable(w, calls[0]) {
      AloneCall(w, calls[0], hash, name);
      AloneIsConsiderate(AfterCall(w, calls[0], hash, name).0, calls[1..], hash, name);
    }
  }
}
