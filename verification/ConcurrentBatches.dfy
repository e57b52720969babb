/**
 * Batches that overtake one another. When every commit that lands during a call is itself a
 * careful batch, on ids that are not this batch's, each keeps the pairing for the next.
 */
module ConcurrentBatches {
  import opened Options
  import opened Catalogs
  import opened Icechunk
  import opened Intents
  import opened Transactions
  import opened Declarations
  import opened NoTrace
  import opened Ingest
  import opened Granules

  // -- an arrival that is a batch -----------------------------------------------------------------

  function Ids(items: seq<Item>): set<string> {
    set i | 0 <= i < |items| :: items[i].id
  }

  /** What another `ingest_batch` commits when it opens on a store with these nodes. */
  ghost predicate FromBatch(nodes: map<Path, Node>, f: Foreign, name: string,
                            items: seq<Item>, written: seq<Written>, hash: int -> int) {
    && |items| == |written| && AllPlaced(items)
    && (forall i | 0 <= i < |written| :: WellBehaved(written[i]) && !LeavesNodes(written[i]))
    && var batch := StageAll(nodes, items, written, hash, |items|);
    && batch.keep != []
    && f == Foreign(f.writer, [AppendRows(name, SortByKey(batch.keep))], batch.changes, None)
  }

  /** A careful batch, none of whose records has one of these ids. */
  ghost predicate BatchElsewhere(nodes: map<Path, Node>, f: Foreign, name: string, ids: set<string>) {
    exists items, written, hash :: FromBatch(nodes, f, name, items, written, hash) && Ids(items) !! ids
  }

  /** Every arrival is one, staged on the tip it lands on. */
  ghost predicate BatchesLand(w: World, fs: seq<Foreign>, name: string, ids: set<string>)
    requires w.history != []
    decreases |fs|
  {
    fs == [] ||
    (&& (Used(w.store, fs[0].writer) || BatchElsewhere(Tip(w.history).nodes, fs[0], name, ids))
     && BatchesLand(Land(w, fs[0]), fs[1..], name, ids))
  }

  /** So are the arrivals of the next `n` attempts. */
  ghost predicate BatchesArrive(w: World, attempt: nat, n: nat, env: Env, name: string, ids: set<string>)
    requires w.history != []
    decreases n
  {
    n == 0 ||
    (&& BatchesLand(w, ArrivalsAt(env, attempt), name, ids)
     && BatchesArrive(LandAll(w, ArrivalsAt(env, attempt)), attempt + 1, n - 1, env, name, ids))
  }

  /** All who commit during a call: while it stages its records, and before its attempts. */
  ghost predicate BatchTraffic(w: World, traffic: Traffic, name: string, ids: set<string>)
    requires w.history != []
  {
    && BatchesLand(w, traffic.staging, name, ids)
    && BatchesArrive(Overtaken(w, traffic), 0, DEFAULT_MAX_RETRIES + 1, traffic.commit, name, ids)
  }

  // -- one arrival ------------------------------------------------------------------------------------

  lemma {:induction false} ChangedIds(base: map<Path, Node>, items: seq<Item>, written: seq<Written>, hash: int -> int, n: nat)
    requires n <= |items| == |written|
    ensures forall p | p in StageAll(base, items, written, hash, n).changes :: p != [] && p[0] in Ids(items)
  {
    hide StageOne;
    if n > 0 {
      ChangedIds(base, items, written, hash, n - 1);
      StageChanges(base, StageAll(base, items, written, hash, n - 1), items[n - 1], KeyOf(items[n - 1], hash), written[n - 1]);
      assert items[n - 1].id in Ids(items);
    }
  }

  lemma StageChanges(base: map<Path, Node>, b: Batch, item: Item, key: int, w: Written)
    ensures forall p | p in StageOne(base, b, item, key, w).changes :: p in b.changes || Under(item.id, p)
  {
    hide RecordSkip;
    hide SkipReason;
    hide GranuleExists;
  }

  /** Landing such a batch is an `ingest_batch` call that nobody overtakes. */
  lemma LandIsIngest(w: World, f: Foreign, name: string, items: seq<Item>, written: seq<Written>, hash: int -> int)
    requires w.history != [] && GranuleStore(w, |w.history| - 1, name) && !Used(w.store, f.writer)
    requires FromBatch(Tip(w.history).nodes, f, name, items, written, hash)
    ensures IngestRun(w, f.writer, items, written, hash, name, ALONE).0 == Land(w, f)
    ensures IngestRun(w, f.writer, items, written, hash, name, ALONE).1.Committed?
  {
    hide StageAll;
    hide Attempts;
    hide ApplyAll;
    hide GoodStore;
    hide Rooted;
    hide Paired;
    hide Landing;
    var batch := Whole(w, items, written, hash);
    var tx := BatchTx(w, f.writer, batch, name);
    BatchReady(w, f.writer, batch, name);
    assert tx.(unmanaged := tx.catalog.staged.Keys) == tx;
    assert CurrentPointers(tx.catalog) == tx.catalog.pointers;
    AppendIsStaged(w.store, tx.catalog, name, SortByKey(batch.keep));
    AloneLands(w, tx);
  }

  /** The nodes after it, group by group. */
  lemma BatchNodes(w: World, f: Foreign, name: string, items: seq<Item>, written: seq<Written>, hash: int -> int, ids: set<string>,
                   changes: Changes)
    requires w.history != [] && FromBatch(Tip(w.history).nodes, f, name, items, written, hash) && Ids(items) !! ids
    requires forall p | p in changes :: p != [] && p[0] in ids
    requires OffBase(Tip(w.history).nodes, changes)
    requires Land(w, f).history != [] && Tip(Land(w, f).history).nodes == Overlay(Tip(w.history).nodes, f.changes)
    ensures OffBase(Tip(Land(w, f).history).nodes, changes)
  {
    hide StageAll;
    hide Land;
    ChangedIds(Tip(w.history).nodes, items, written, hash, |items|);
    forall p | p in changes ensures [p[0]] !in Tip(Land(w, f).history).nodes {
      assert [p[0]][0] == p[0];
    }
  }

  /** From snapshot `from` on the store pairs rows with groups, and its tip has none of the groups changed here. */
  ghost predicate Along(w: World, from: nat, name: string, changes: Changes) {
    && Sane(w) && from < |w.history|
    && PairedFrom(w, from, |w.history| - 1, name)
    && OffBase(Tip(w.history).nodes, changes)
  }

  lemma PairedLater(w: World, w': World, from: nat, to: nat, name: string)
    requires PairedFrom(w, from, to, name) && Sane(w') && Grows(w.store, w'.store)
    requires to < |w'.history| && forall k | from <= k <= to :: w'.history[k] == w.history[k]
    ensures PairedFrom(w', from, to, name)
  {
    hide Sane;
    hide Rooted;
    hide Paired;
    forall k | from <= k <= to ensures GranuleStore(w', k, name) {
      assert GranuleStore(w, k, name);
      SameRows(w, w', k, name);
    }
  }

  lemma SameRows(w: World, w': World, k: nat, name: string)
    requires GranuleStore(w, k, name) && Sane(w') && k < |w'.history| && w'.history[k] == w.history[k]
    requires Grows(w.store, w'.store)
    ensures GranuleStore(w', k, name)
  {}

  lemma LandAlong(w: World, f: Foreign, from: nat, name: string, changes: Changes, ids: set<string>)
    requires Along(w, from, name, changes) && forall p | p in changes :: p != [] && p[0] in ids
    requires Used(w.store, f.writer) || BatchElsewhere(Tip(w.history).nodes, f, name, ids)
    ensures Along(Land(w, f), from, name, changes)
  {
    hide Land;
    hide OffBase;
    hide GranuleStore;
    hide FromBatch;
    hide Sane;
    if Used(w.store, f.writer) {
      LandUsed(w, f);
    } else {
      var items, written, hash :| FromBatch(Tip(w.history).nodes, f, name, items, written, hash) && Ids(items) !! ids;
      BatchLandsAlong(w, f, from, name, changes, ids, items, written, hash);
    }
  }

  lemma LandUsed(w: World, f: Foreign)
    requires w.history != [] && Used(w.store, f.writer)
    ensures Land(w, f) == w
  {}

  lemma BatchParts(nodes: map<Path, Node>, f: Foreign, name: string, items: seq<Item>, written: seq<Written>, hash: int -> int)
    requires FromBatch(nodes, f, name, items, written, hash)
    ensures |items| == |written| && AllPlaced(items)
    ensures forall i | 0 <= i < |written| :: WellBehaved(written[i]) && !LeavesNodes(written[i])
    ensures f.changes == StageAll(nodes, items, written, hash, |items|).changes
  {}

  lemma BatchLandsAlong(w: World, f: Foreign, from: nat, name: string, changes: Changes, ids: set<string>,
                        items: seq<Item>, written: seq<Written>, hash: int -> int)
    requires Along(w, from, name, changes) && forall p | p in changes :: p != [] && p[0] in ids
    requires !Used(w.store, f.writer) && FromBatch(Tip(w.history).nodes, f, name, items, written, hash) && Ids(items) !! ids
    ensures Along(Land(w, f), from, name, changes)
  {
    hide Land;
    hide IngestRun;
    hide FromBatch;
    hide GranuleStore;
    hide LeftSomething;
    hide OffBase;
    hide Sane;
    hide Keeps;
    hide StageAll;
    hide Overlay;
    var last, w' := |w.history| - 1, Land(w, f);
    assert GranuleStore(w, last, name);
    BatchParts(Tip(w.history).nodes, f, name, items, written, hash);
    LandIsIngest(w, f, name, items, written, hash);
    BatchKeepsPairing(w, f.writer, items, written, hash, name);
    CarefulLeavesNothing(Tip(w.history).nodes, items, written, hash, |items|);
    IngestNodes(w, f, items, written, hash, name);
    BatchNodes(w, f, name, items, written, hash, ids, changes);
    PairedLater(w, w', from, last, name);
    assert w'.history[last] == Tip(w.history) && w'.history[last + 1] == Tip(w'.history);
    PairedSnoc(w', from, last, name);
  }

  lemma IngestNodes(w: World, f: Foreign, items: seq<Item>, written: seq<Written>, hash: int -> int, name: string)
    requires Sane(w) && !Used(w.store, f.writer) && |items| == |written|
    requires IngestRun(w, f.writer, items, written, hash, name, ALONE).0 == Land(w, f)
    requires IngestRun(w, f.writer, items, written, hash, name, ALONE).1.Committed?
    requires f.changes == StageAll(Tip(w.history).nodes, items, written, hash, |items|).changes
    requires |Land(w, f).history| == |w.history| + 1 && w.history <= Land(w, f).history
    ensures Land(w, f).history != [] && Tip(Land(w, f).history).nodes == Overlay(Tip(w.history).nodes, f.changes)
  {
    hide Land;
    hide IngestRun;
    hide Sane;
    hide StageAll;
    hide Overlay;
    hide RowsAt;
    IngestGrows(w, f.writer, items, written, hash, name, ALONE);
    var w' := Land(w, f);
    assert w'.history[|w'.history| - 2] == Tip(w.history);
    LaidOverIsOverlay(Tip(w.history).nodes, f.changes, Tip(w'.history).nodes);
  }

  lemma AlongNonempty(w: World, from: nat, name: string, changes: Changes)
    requires Along(w, from, name, changes)
    ensures w.history != []
  {}

  lemma {:induction false} LandAllAlong(w: World, fs: seq<Foreign>, from: nat, name: string, changes: Changes, ids: set<string>)
    requires Along(w, from, name, changes) && forall p | p in changes :: p != [] && p[0] in ids
    requires w.history != [] && BatchesLand(w, fs, name, ids)
    ensures Along(LandAll(w, fs), from, name, changes)
    decreases |fs|
  {
    hide Along;
    hide Land;
    hide BatchElsewhere;
    if fs != [] {
      LandAlong(w, fs[0], from, name, changes, ids);
      assert Land(w, fs[0]).history != [] by { AlongNonempty(Land(w, fs[0]), from, name, changes); }
      LandAllAlong(Land(w, fs[0]), fs[1..], from, name, changes, ids);
    }
  }

  lemma {:induction false} OthersAlong(w: World, attempt: nat, n: nat, m: nat, env: Env, from: nat, name: string,
                                       changes: Changes, ids: set<string>)
    requires Along(w, from, name, changes) && forall p | p in changes :: p != [] && p[0] in ids
    requires n <= m && w.history != [] && BatchesArrive(w, attempt, m, env, name, ids)
    ensures Along(Others(w, attempt, n, env), from, name, changes)
    decreases n
  {
    hide Along;
    hide LandAll;
    hide BatchesLand;
    if n > 0 {
      LandAllAlong(w, ArrivalsAt(env, attempt), from, name, changes, ids);
      OthersAlong(LandAll(w, ArrivalsAt(env, attempt)), attempt + 1, n - 1, m - 1, env, from, name, changes, ids);
    }
  }

  // -- the branch as it is and the branch without this call ------------------------------------------

  lemma TwinRows(w: World, bare: World, writer: nat, k: nat, name: string)
    requires Twins(w, bare, writer) && Sane(w) && GranuleStore(bare, k, name)
    ensures GranuleStore(w, k, name)
  {
    hide GoodStore;
    hide Rooted;
    hide Paired;
    var location := ReadPointers(w.history[k])[name];
    assert Avoids(ReadPointers(w.history[k]), writer);
    assert Alike(w.store.files[location], bare.store.files[location]);
  }

  lemma TwinAlong(w: World, bare: World, writer: nat, from: nat, name: string, changes: Changes)
    requires Twins(w, bare, writer) && Sane(w) && Along(bare, from, name, changes)
    ensures Along(w, from, name, changes)
  {
    hide GranuleStore;
    hide Similar;
    hide NoTrace.Untouched;
    hide OffBase;
    hide Sane;
    forall k | from <= k < |w.history| ensures GranuleStore(w, k, name) {
      assert GranuleStore(bare, k, name);
      TwinRows(w, bare, writer, k, name);
    }
  }

  lemma UnusedUntouched(w: World, writer: nat)
    requires Sane(w) && !Used(w.store, writer)
    ensures Twins(w, w, writer)
  {
    forall k, name | 0 <= k < |w.history| && name in ReadPointers(w.history[k])
      ensures ReadPointers(w.history[k])[name].token.writer != writer
    {
      assert ReadPointers(w.history[k])[name] in w.store.files;
    }
  }

  lemma SanePrefix(w: World, history: seq<Commit>)
    requires Sane(w) && history != [] && history <= w.history
    ensures Sane(World(w.store, history))
  {}

  /** What `commit` leaves, but for its own snapshot, is paired and off the batch's groups. */
  lemma CallAlong(w: World, tx: Tx, env: Env, from: nat, name: string, changes: Changes, ids: set<string>)
    requires Ready(w, tx) && ForeignTo(env, tx.catalog.writer) && Twins(w, w, tx.catalog.writer)
    requires tx.unmanaged == tx.catalog.staged.Keys && tx.maxRetries >= 0
    requires Along(w, from, name, changes) && forall p | p in changes :: p != [] && p[0] in ids
    requires BatchesArrive(w, 0, (tx.maxRetries + 1) as nat, env, name, ids)
    requires Sane(Transactions.Committed(w, tx, env).world)
    ensures var run := Transactions.Committed(w, tx, env); Along(BeforeOwn(run.world, Some(run.outcome)), from, name, changes)
  {
    hide Attempts;
    hide Along;
    hide BatchesArrive;
    hide Sane;
    hide Valid;
    hide Similar;
    hide NoTrace.Untouched;
    assert tx.(unmanaged := tx.catalog.staged.Keys) == tx;
    var run := Attempts(w, tx, 0, env);
    var n := EndsOnTwin(w, w, tx, 0, env);
    OthersAlong(w, 0, n, (tx.maxRetries + 1) as nat, env, from, name, changes, ids);
    SanePrefix(run.world, BeforeOwn(run.world, Some(run.outcome)).history);
    TwinAlong(BeforeOwn(run.world, Some(run.outcome)), Others(w, 0, n, env), tx.catalog.writer, from, name, changes);
  }

  lemma AlongConsiderate(w': World, outcome: Option<Outcome>, from: nat, name: string, changes: Changes)
    requires Along(BeforeOwn(w', outcome), from, name, changes) && Sane(w')
    ensures var last := |BeforeOwn(w', outcome).history| - 1;
            0 <= last < |w'.history| && PairedFrom(w', from, last, name) && OffBase(w'.history[last].nodes, changes)
  {
    hide GranuleStore;
    hide OffBase;
    hide Sane;
    var before := BeforeOwn(w', outcome);
    var last := |before.history| - 1;
    assert w'.history[last] == Tip(before.history);
    PairedLater(before, w', from, last, name);
  }

  // -- one call, and any number -----------------------------------------------------------------------

  lemma OpensAlong(w: World, items: seq<Item>, written: seq<Written>, hash: int -> int, name: string)
    requires w.history != [] && GranuleStore(w, |w.history| - 1, name)
    requires |items| == |written| && forall i | 0 <= i < |written| :: WellBehaved(written[i])
    ensures var changes := Whole(w, items, written, hash).changes;
            && Along(w, |w.history| - 1, name, changes)
            && forall p | p in changes :: p != [] && p[0] in Ids(items)
  {
    hide StageAll;
    hide Paired;
    hide Rooted;
    hide GoodStore;
    BatchAccounts(Tip(w.history).nodes, items, written, hash, |items|);
    ChangedIds(Tip(w.history).nodes, items, written, hash, |items|);
  }

  /** A call that gets as far as `commit` leaves what that leaves; any other leaves the arrivals. */
  lemma CallEnds(w: World, call: Call, hash: int -> int, name: string)
    requires w.history != [] && Callable(w, call)
    ensures var batch, landed := Whole(w, call.items, call.written, hash), Overtaken(w, call.traffic);
            var tx := BatchTx(w, call.writer, batch, name);
            var (next, r) := AfterCall(w, call, hash, name);
            && Ready(landed, tx)
            && if r.Committed? || r.CommitRaised? then
                 var run := Transactions.Committed(landed, tx, call.traffic.commit);
                 next == run.world && (r.Committed? <==> run.outcome.Returned?)
               else next == w || next == landed
  {
    hide Transactions.Committed;
    hide Whole;
    hide LandAll;
    hide ResolveTable;
    hide Valid;
    OvertakenReady(w, call.writer, Whole(w, call.items, call.written, hash), name, call.traffic);
  }

  lemma CommitConsiderate(w: World, landed: World, writer: nat, batch: Batch, name: string, traffic: Traffic, ids: set<string>, from: nat)
    requires w.history != [] && !Used(w.store, writer) && Apart(traffic, writer) && landed == Overtaken(w, traffic)
    requires Sane(w) && Ready(landed, BatchTx(w, writer, batch, name))
    requires Along(landed, from, name, batch.changes) && forall p | p in batch.changes :: p != [] && p[0] in ids
    requires landed.history != [] && BatchesArrive(landed, 0, DEFAULT_MAX_RETRIES + 1, traffic.commit, name, ids)
    requires Sane(Transactions.Committed(landed, BatchTx(w, writer, batch, name), traffic.commit).world)
    ensures var run := Transactions.Committed(landed, BatchTx(w, writer, batch, name), traffic.commit);
            var last := |BeforeOwn(run.world, Some(run.outcome)).history| - 1;
            && 0 <= last < |run.world.history| && PairedFrom(run.world, from, last, name)
            && OffBase(run.world.history[last].nodes, batch.changes)
  {
    hide Along;
    hide LandAll;
    hide BatchesArrive;
    hide Transactions.Committed;
    hide Sane;
    hide GranuleStore;
    hide OffBase;
    hide Used;
    hide Valid;
    hide Similar;
    var tx := BatchTx(w, writer, batch, name);
    UnusedUntouched(w, writer);
    LandAllTwins(w, w, traffic.staging, writer);
    CallAlong(landed, tx, traffic.commit, from, name, batch.changes, ids);
    var run := Transactions.Committed(landed, tx, traffic.commit);
    AlongConsiderate(run.world, Some(run.outcome), from, name, batch.changes);
  }

  /** Careful batches on other ids are considerate. */
  lemma BatchesAreConsiderate(w: World, call: Call, hash: int -> int, name: string)
    requires w.history != [] && GranuleStore(w, |w.history| - 1, name) && Callable(w, call) && Careful(call)
    requires BatchTraffic(w, call.traffic, name, Ids(call.items))
    ensures var (next, r) := AfterCall(w, call, hash, name);
            && w.history <= next.history && (r.Committed? ==> |next.history| > |w.history|)
            && Considerate(w, next, r.Committed?, Whole(w, call.items, call.written, hash), name)
  {
    hide Along;
    hide Whole;
    hide LandAll;
    hide BatchesLand;
    hide BatchesArrive;
    hide IngestRun;
    hide BatchTx;
    hide Transactions.Committed;
    hide Sane;
    hide GranuleStore;
    hide PairedFrom;
    hide OffBase;
    hide BatchOn;
    hide Used;
    hide Valid;
    var batch, from := Whole(w, call.items, call.written, hash), |w.history| - 1;
    var landed := Overtaken(w, call.traffic);
    var (next, r) := AfterCall(w, call, hash, name);
    IngestGrows(w, call.writer, call.items, call.written, hash, name, call.traffic);
    OpensAlong(w, call.items, call.written, hash, name);
    LandAllAlong(w, call.traffic.staging, from, name, batch.changes, Ids(call.items));
    CallEnds(w, call, hash, name);
    if r.Committed? || r.CommitRaised? {
      CommitConsiderate(w, landed, call.writer, batch, name, call.traffic, Ids(call.items), from);
    } else if next == w {
      AlongConsiderate(w, None, from, name, batch.changes);
    } else {
      AlongConsiderate(landed, None, from, name, batch.changes);
    }
  }

  /** During every call nobody commits but careful batches on other ids. */
  ghost predicate OnlyBatches(w: World, calls: seq<Call>, hash: int -> int, name: string)
    decreases |calls|
  {
    calls == [] || !Callable(w, calls[0]) ||
    (&& BatchTraffic(w, calls[0].traffic, name, Ids(calls[0].items))
     && OnlyBatches(AfterCall(w, calls[0], hash, name).0, calls[1..], hash, name))
  }

  /**
   * Batches that overtake one another, on distinct ids and with cleanups that succeed: every
   * snapshot pairs each row with its group, and every granule keeps its arrays.
   */
  lemma {:induction false} BatchesAmongBatches(w: World, calls: seq<Call>, hash: int -> int, name: string)
    requires w.history != [] && GranuleStore(w, |w.history| - 1, name)
    requires forall i | 0 <= i < |calls| :: Careful(calls[i])
    requires OnlyBatches(w, calls, hash, name)
    ensures OthersConsiderate(w, calls, hash, name) && GrownFrom(w, IngestMany(w, calls, hash, name), name)
    decreases |calls|
  {
    hide AfterCall;
    hide Considerate;
    hide GranuleStore;
    hide Careful;
    hide BatchTraffic;
    if calls == [] || !Callable(w, calls[0]) {
      GrownByNone(w, name);
    } else {
      var next := AfterCall(w, calls[0], hash, name).0;
      BatchesAreConsiderate(w, calls[0], hash, name);
      OneCall(w, calls[0], hash, name);
      assert GranuleStore(next, |next.history| - 1, name);
      BatchesAmongBatches(next, calls[1..], hash, name);
      GrownTransitive(w, next, IngestMany(next, calls[1..], hash, name), name);
    }
  }
}
