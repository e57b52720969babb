/** The data file a batch publishes is sorted by the hash, whatever retries it took to publish it. */
module SortedFiles {
  import opened Options
  import opened Tables
  import opened Catalogs
  import opened Icechunk
  import opened Intents
  import opened Transactions
  import opened Commits
  import opened Ingest
  import opened Granules
  import opened BatchRecords

  /** Snapshot `id` is one data file ahead of its parent in the table, and the file holds these rows in this order. */
  ghost predicate AddsFile(w: World, id: nat, name: string, data: seq<Row>) {
    && 0 < id < |w.history|
    && FileAdded(w.store, ReadPointers(w.history[id - 1]), ReadPointers(w.history[id]), name, data)
  }

  ghost predicate FileAdded(st: Store, before: Pointers, after: Pointers, name: string, data: seq<Row>) {
    && name in before && before[name] in st.files
    && name in after && after[name] in st.files
    && FilesOf(st.files[after[name]]) == FilesOf(st.files[before[name]]) + [DataFile(data)]
  }

  lemma FileStays(st: Store, st': Store, before: Pointers, after: Pointers, name: string, data: seq<Row>)
    requires FileAdded(st, before, after, name, data) && Grows(st, st')
    ensures FileAdded(st', before, after, name, data)
  {}

  lemma AppliedFile(st: Store, c: Catalog, name: string, data: seq<Row>)
    requires Valid(st, c) && c.staged == map[] && data != []
    requires ApplyAll(st, c, [AppendRows(name, data)]).error.None?
    ensures var a := ApplyAll(st, c, [AppendRows(name, data)]);
            FileAdded(a.store, c.pointers, CurrentPointers(a.catalog), name, data)
  {
    hide StagedWell;
    hide GoodStore;
    var intent := AppendRows(name, data);
    assert [intent][0] == intent && [intent][1..] == [];
    assert CurrentPointers(c) == c.pointers;
    ApplyIsCommit(st, c, intent);
    var first := Apply(st, c, intent);
    assert ApplyAll(first.store, first.catalog, []) == Applied(first.store, first.catalog, None);
  }

  lemma TurnAddsFile(w: World, tx: Tx, attempt: nat, env: Env, name: string, data: seq<Row>)
    requires Ready(w, tx) && ForeignTo(env, tx.catalog.writer) && OnBase(w, tx)
    requires tx.intents == [AppendRows(name, data)] && data != []
    ensures var t := Turn(w, tx, attempt, env);
            t.outcome.Some? && t.outcome.value.Returned? ==> AddsFile(t.world, t.outcome.value.id, name, data)
  {
    hide Turn;
    hide Recover;
    hide AddsFile;
    hide ApplyAll;
    hide Valid;
    hide GoodStore;
    hide Landing;
    hide LandAll;
    TurnSplits(w, tx, attempt, env);
    AppliedReady(w, tx, attempt, env);
    ArrivedHistory(w, tx, attempt, env);
    var t := Turn(w, tx, attempt, env);
    if t.outcome.Some? && t.outcome.value.Returned? {
      LandedFile(w, tx, Arrived(w, tx, attempt, env), t.world, name, data);
    }
  }

  lemma LandedFile(w: World, tx: Tx, landed: World, w': World, name: string, data: seq<Row>)
    requires Valid(w.store, tx.catalog) && OnBase(w, tx) && tx.intents == [AppendRows(name, data)] && data != []
    requires var a := AppliedWork(w, tx); a.error.None? && Grows(a.store, landed.store)
    requires w.history <= landed.history && tx.session.base == |landed.history| - 1
    requires w' == landed.(history := landed.history
                 + [Landing(Tip(landed.history), tx.session, CommitMetadata(CurrentPointers(AppliedWork(w, tx).catalog)))])
    ensures AddsFile(w', |landed.history|, name, data)
  {
    hide ApplyAll;
    hide Valid;
    hide FileAdded;
    hide Overlay;
    var a := AppliedWork(w, tx);
    AppliedFile(w.store, tx.catalog, name, data);
    FileStays(a.store, landed.store, tx.catalog.pointers, CurrentPointers(a.catalog), name, data);
    LandingLands(Tip(landed.history), tx.session, CurrentPointers(a.catalog));
    assert w'.history[|landed.history| - 1] == landed.history[tx.session.base] == w.history[tx.session.base];
  }

  /** However many attempts it takes, what is published is that file behind its parent's. */
  lemma {:induction false} PublishedFile(w: World, tx: Tx, attempt: nat, env: Env, name: string, data: seq<Row>)
    requires Ready(w, tx) && ForeignTo(env, tx.catalog.writer) && OnBase(w, tx)
    requires tx.intents == [AppendRows(name, data)] && data != []
    ensures var run := Attempts(w, tx, attempt, env);
            run.outcome.Returned? ==> AddsFile(run.world, run.outcome.id, name, data)
    decreases tx.maxRetries + 1 - attempt
  {
    hide Turn;
    hide AddsFile;
    if attempt <= tx.maxRetries {
      var t := NextTurn(w, tx, attempt, env);
      TurnPublishes(w, tx, attempt, env);
      TurnAddsFile(w, tx, attempt, env, name, data);
      if t.outcome.None? {
        PublishedFile(t.world, t.tx, attempt + 1, env, name, data);
      }
    }
  }

  /** A call that returns has added one data file to the table: the published records' rows, ascending by their hash. */
  lemma BatchFileIsSorted(w: World, writer: nat, items: seq<Item>, written: seq<Written>, hash: int -> int, name: string,
                          traffic: Traffic)
    requires Sane(w) && !Used(w.store, writer) && Apart(traffic, writer)
    requires |items| == |written| && forall i | 0 <= i < |written| :: WellBehaved(written[i])
    ensures var (w', r) := IngestRun(w, writer, items, written, hash, name, traffic);
            r.Committed? ==>
              && AllPlaced(items)
              && var records := PublishedRecords(Tip(w.history).nodes, items, written, |items|);
              && exists rows | AddsFile(w', r.id, name, rows) ::
                   Ascending(rows) && multiset(rows) == multiset(RowsFor(items, written, hash, records))
  {
    hide Attempts;
    hide StageAll;
    hide SortByKey;
    hide AddsFile;
    hide Valid;
    hide LandAll;
    hide PublishedRecords;
    hide HoldsRecords;
    hide GroupsAre;
    var (w', r) := IngestRun(w, writer, items, written, hash, name, traffic);
    if r.Committed? {
      OvertakenReady(w, writer, Whole(w, items, written, hash), name, traffic);
      var batch, base := Whole(w, items, written, hash), Tip(w.history).nodes;
      var tx, rows := BatchTx(w, writer, batch, name), SortByKey(batch.keep);
      assert tx.(unmanaged := tx.catalog.staged.Keys) == tx;
      assert multiset(rows) == multiset(batch.keep);
      PublishedFile(Overtaken(w, traffic), tx, 0, traffic.commit, name, rows);
      SortAscends(batch.keep);
      BatchRecordsAre(base, items, written, hash, |items|);
      RecordRows(batch, items, written, hash, PublishedRecords(base, items, written, |items|));
    }
  }
}
