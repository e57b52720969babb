/**
 * Publishing a batch of granules: stage each one's arrays, skip and clean up after
 * those that fail, and commit the rows of the rest together with their arrays.
 */
module Ingest {
  import opened Options
  import opened Tables
  import opened Catalogs
  import opened Errors
  import opened Icechunk
  import opened Intents
  import opened Transactions
  import opened Declarations

  const DEFAULT_MAX_RETRIES := 10

  /** One metadata record; without a footprint it cannot be hashed. */
  datatype Item = Item(id: string, footprint: Option<int>)

  /** How removing a failed granule's nodes went; when it failed, `left` is still there. */
  datatype Cleanup = Removed | Stuck(reason: string, left: map<Path, Node>)

  /** What the writer does with a record: nodes are given relative to the granule's group. */
  datatype Written =
    | Wrote(nodes: map<Path, Node>, arrayPath: string)
    | Failed(nodes: map<Path, Node>, reason: string, cleanup: Cleanup)

  datatype Batch = Batch(changes: Changes, committed: seq<string>, skipped: map<string, string>, keep: seq<Row>)

  datatype Ingested =
    | Committed(id: nat, committed: seq<string>, skipped: map<string, string>)
    | NoFootprint
    | BatchFailed(skipped: map<string, string>)
    | Unresolved(why: Resolved)
    | CommitRaised(error: Error)

  const NOTHING := Batch(map[], [], map[], [])

  // -- the session store --------------------------------------------------------------

  predicate Under(id: string, path: Path) {
    path != [] && path[0] == id
  }

  function Placed(id: string, nodes: map<Path, Node>): (paths: set<Path>)
    ensures forall p | p in paths :: Under(id, p) && p[1..] in nodes
    ensures forall p: Path | Under(id, p) && p[1..] in nodes :: p in paths
  {
    assert forall p: Path | Under(id, p) :: p == [id] + p[1..];
    set rel | rel in nodes :: [id] + rel
  }

  function Staged(changes: Changes, id: string, nodes: map<Path, Node>): Changes {
    changes + map p | p in Placed(id, nodes) :: Some(nodes[p[1..]])
  }

  /** `delete_dir`: nothing is left under the granule's group. */
  function DeleteDir(base: map<Path, Node>, changes: Changes, id: string): Changes {
    map p | p in changes.Keys + base.Keys && (if Under(id, p) then p in base else p in changes) ::
      if Under(id, p) then None else changes[p]
  }

  predicate GranuleExists(base: map<Path, Node>, changes: Changes, id: string) {
    [id] in Overlay(base, changes)
  }

  /** Keep any earlier reason; an empty one counts as none. */
  function RecordSkip(skipped: map<string, string>, id: string, reason: string): map<string, string> {
    var whole := if id in skipped && skipped[id] != "" then skipped[id] + "; " + reason else reason;
    skipped[id := whole]
  }

  const DUPLICATE := "already staged earlier in this batch"
  const PRESENT := "already in the store"

  // -- one record -------------------------------------------------------------------------

  /** After a writer that failed: what it left behind, cleaned up if its group is there. */
  function CleanedUp(base: map<Path, Node>, changes: Changes, id: string, cleanup: Cleanup): Changes {
    if !GranuleExists(base, changes, id) then changes
    else
      match cleanup
      case Removed => DeleteDir(base, changes, id)
      case Stuck(_, left) => Staged(DeleteDir(base, changes, id), id, left)
  }

  function SkipReason(base: map<Path, Node>, changes: Changes, id: string, w: Written): string
    requires w.Failed?
  {
    if GranuleExists(base, changes, id) && w.cleanup.Stuck?
    then w.reason + " (cleanup also failed: " + w.cleanup.reason + ")" else w.reason
  }

  function StageOne(base: map<Path, Node>, b: Batch, item: Item, key: int, w: Written): Batch {
    if item.id in b.committed then b.(skipped := RecordSkip(b.skipped, item.id, DUPLICATE))
    else if GranuleExists(base, b.changes, item.id) then b.(skipped := RecordSkip(b.skipped, item.id, PRESENT))
    else
      var staged := Staged(b.changes, item.id, w.nodes);
      if w.Failed? then
        b.(changes := CleanedUp(base, staged, item.id, w.cleanup),
           skipped := RecordSkip(b.skipped, item.id, SkipReason(base, staged, item.id, w)))
      else
        b.(changes := staged, committed := b.committed + [item.id], keep := b.keep + [Row(item.id, w.arrayPath, key)])
  }

  function KeyOf(item: Item, hash: int -> int): int {
    if item.footprint.Some? then hash(item.footprint.value) else 0
  }

  /** The batch after the first `n` records. */
  function StageAll(base: map<Path, Node>, items: seq<Item>, written: seq<Written>, hash: int -> int, n: nat): Batch
    requires n <= |items| == |written|
  {
    if n == 0 then NOTHING
    else StageOne(base, StageAll(base, items, written, hash, n - 1), items[n - 1], KeyOf(items[n - 1], hash), written[n - 1])
  }

  // -- sorting ------------------------------------------------------------------------------

  function Insert(row: Row, rows: seq<Row>): (r: seq<Row>)
    ensures multiset(r) == multiset(rows) + multiset{row}
  {
    if rows == [] || row.key <= rows[0].key then [row] + rows
    else
      assert rows == [rows[0]] + rows[1..];
      [rows[0]] + Insert(row, rows[1..])
  }

  /** The same rows in ascending order of their hash. */
  function SortByKey(rows: seq<Row>): (r: seq<Row>)
    ensures multiset(r) == multiset(rows)
  {
    if rows == [] then []
    else
      assert rows == [rows[0]] + rows[1..];
      Insert(rows[0], SortByKey(rows[1..]))
  }

  ghost predicate Ascending(rows: seq<Row>) {
    forall i, j | 0 <= i < j < |rows| :: rows[i].key <= rows[j].key
  }

  lemma ConsAscends(first: Row, rest: seq<Row>)
    requires Ascending(rest) && forall r | r in rest :: first.key <= r.key
    ensures Ascending([first] + rest)
  {}

  lemma {:induction false} InsertAscends(row: Row, rows: seq<Row>)
    requires Ascending(rows)
    ensures Ascending(Insert(row, rows))
  {
    if rows != [] {
      var rest := Insert(row, rows[1..]);
      InsertAscends(row, rows[1..]);
      if row.key > rows[0].key {
        forall r | r in rest ensures rows[0].key <= r.key {
          assert r in multiset(rest);
          assert r == row || r in rows[1..];
        }
        ConsAscends(rows[0], rest);
      } else {
        ConsAscends(row, rows);
      }
    }
  }

  lemma {:induction false} SortAscends(rows: seq<Row>)
    ensures Ascending(SortByKey(rows))
  {
    if rows != [] {
      SortAscends(rows[1..]);
      InsertAscends(rows[0], SortByKey(rows[1..]));
    }
  }

  // -- a whole call -----------------------------------------------------------------------------

  function BatchTx(w: World, writer: nat, batch: Batch, name: string): Tx
    requires w.history != []
  {
    var tip := |w.history| - 1;
    Tx(Session(tip, batch.changes, None), OpenCatalog(writer, ReadPointers(w.history[tip])),
       [AppendRows(name, SortByKey(batch.keep))], map[], {}, DEFAULT_MAX_RETRIES)
  }

  /** Who commits while the records are staged, and who during `commit`. */
  datatype Traffic = Traffic(staging: seq<Foreign>, commit: Env)

  /** None of them is this writer. */
  ghost predicate Apart(traffic: Traffic, writer: nat) {
    ForeignTo(traffic.commit, writer) && forall i | 0 <= i < |traffic.staging| :: traffic.staging[i].writer != writer
  }

  predicate AllPlaced(items: seq<Item>) {
    forall i | 0 <= i < |items| :: items[i].footprint.Some?
  }

  lemma BatchReady(w: World, writer: nat, batch: Batch, name: string)
    requires Sane(w) && !Used(w.store, writer)
    ensures Ready(w, BatchTx(w, writer, batch, name))
  {
    var c := OpenCatalog(writer, ReadPointers(w.history[|w.history| - 1]));
    assert CurrentPointers(c) == c.pointers;
  }

  /** The world when the table is looked up. */
  function Overtaken(w: World, traffic: Traffic): World
    requires w.history != []
  {
    LandAll(w, traffic.staging)
  }

  lemma OvertakenReady(w: World, writer: nat, batch: Batch, name: string, traffic: Traffic)
    requires Sane(w) && !Used(w.store, writer) && Apart(traffic, writer)
    ensures Ready(Overtaken(w, traffic), BatchTx(w, writer, batch, name)) && Grows(w.store, Overtaken(w, traffic).store)
  {
    BatchReady(w, writer, batch, name);
    LandAllKeeps(w, BatchTx(w, writer, batch, name), traffic.staging);
  }

  /** The whole batch staged. */
  function Whole(w: World, items: seq<Item>, written: seq<Written>, hash: int -> int): Batch
    requires w.history != [] && |items| == |written|
  {
    StageAll(Tip(w.history).nodes, items, written, hash, |items|)
  }

  /** A call's whole effect: the world after it, and what it returns or raises. */
  function IngestRun(w: World, writer: nat, items: seq<Item>, written: seq<Written>, hash: int -> int, name: string, traffic: Traffic)
    : (World, Ingested)
    requires Sane(w) && !Used(w.store, writer) && Apart(traffic, writer) && |items| == |written|
  {
    if !AllPlaced(items) then (w, NoFootprint)
    else
      var batch, landed := Whole(w, items, written, hash), Overtaken(w, traffic);
      if batch.keep == [] then (landed, BatchFailed(batch.skipped))
      else
        var table := ResolveTable(landed.store, Tip(landed.history), name);
        if !table.Table? then (landed, Unresolved(table))
        else
          OvertakenReady(w, writer, batch, name, traffic);
          var run := Transactions.Committed(landed, BatchTx(w, writer, batch, name), traffic.commit);
          match run.outcome
          case Returned(id) => (run.world, Committed(id, batch.committed, batch.skipped))
          case Raised(error) => (run.world, CommitRaised(error))
  }

  /** The session a call leaves behind, if it got as far as opening one. */
  function SessionAfter(w: World, writer: nat, items: seq<Item>, written: seq<Written>, hash: int -> int, name: string, traffic: Traffic)
    : Option<Session>
    requires Sane(w) && !Used(w.store, writer) && Apart(traffic, writer) && |items| == |written|
  {
    if !AllPlaced(items) then None
    else
      var batch, landed := Whole(w, items, written, hash), Overtaken(w, traffic);
      var staged := Session(|w.history| - 1, batch.changes, None);
      if batch.keep == [] then Some(Discarded(staged))
      else if !ResolveTable(landed.store, Tip(landed.history), name).Table? then Some(staged)
      else
        OvertakenReady(w, writer, batch, name, traffic);
        var run := Transactions.Committed(landed, BatchTx(w, writer, batch, name), traffic.commit);
        Some(if run.outcome.Raised? then Discarded(run.tx.session) else run.tx.session)
  }

  /** One turn of the loop. */
  method StageRecord(session: WritableSession, base: map<Path, Node>, item: Item, key: int, w: Written,
                     committed: seq<string>, skipped: map<string, string>, keep: seq<Row>)
    returns (committed': seq<string>, skipped': map<string, string>, keep': seq<Row>)
    modifies session`changes
    ensures Batch(session.changes, committed', skipped', keep')
         == StageOne(base, Batch(old(session.changes), committed, skipped, keep), item, key, w)
  {
    hide GranuleExists;
    hide RecordSkip;
    hide Staged;
    hide DeleteDir;
    committed', skipped', keep' := committed, skipped, keep;
    if item.id in committed {
      skipped' := RecordSkip(skipped, item.id, DUPLICATE);
      return;
    }
    if GranuleExists(base, session.changes, item.id) {
      skipped' := RecordSkip(skipped, item.id, PRESENT);
      return;
    }
    session.changes := Staged(session.changes, item.id, w.nodes);
    if w.Failed? {
      var reason := w.reason;
      if GranuleExists(base, session.changes, item.id) {
        match w.cleanup
        case Removed =>
          session.changes := DeleteDir(base, session.changes, item.id);
        case Stuck(why, left) =>
          session.changes := Staged(DeleteDir(base, session.changes, item.id), item.id, left);
          reason := reason + " (cleanup also failed: " + why + ")";
      }
      skipped' := RecordSkip(skipped, item.id, reason);
      return;
    }
    keep' := keep + [Row(item.id, w.arrayPath, key)];
    committed' := committed + [item.id];
  }

  method StageRecords(session: WritableSession, base: map<Path, Node>, items: seq<Item>, written: seq<Written>, hash: int -> int)
    returns (committed: seq<string>, skipped: map<string, string>, keep: seq<Row>)
    requires |items| == |written| && session.changes == map[]
    modifies session`changes
    ensures Batch(session.changes, committed, skipped, keep) == StageAll(base, items, written, hash, |items|)
  {
    committed, skipped, keep := [], map[], [];
    for i := 0 to |items|
      invariant Batch(session.changes, committed, skipped, keep) == StageAll(base, items, written, hash, i)
    {
      committed, skipped, keep :=
        StageRecord(session, base, items[i], KeyOf(items[i], hash), written[i], committed, skipped, keep);
    }
  }

  /** Open a transaction on the tip and stage every record in its session. */
  method StageBatch(repo: Repository, writer: nat, items: seq<Item>, written: seq<Written>, hash: int -> int)
    returns (tx: HybridTransaction, committed: seq<string>, skipped: map<string, string>, keep: seq<Row>)
    requires Sane(repo.Value()) && !Used(repo.warehouse.Value(), writer) && |items| == |written|
    ensures fresh(tx) && fresh(tx.session) && fresh(tx.catalog) && tx.repo == repo && tx.snapshotId.None?
    ensures Batch(tx.session.changes, committed, skipped, keep) == Whole(repo.Value(), items, written, hash)
    ensures tx.session.Value() == Session(|repo.history| - 1, Whole(repo.Value(), items, written, hash).changes, None)
    ensures tx.Consistent() && tx.catalog.writer == writer
    ensures forall name :: tx.Value().(intents := [AppendRows(name, SortByKey(keep))])
                        == BatchTx(repo.Value(), writer, Batch(tx.session.changes, committed, skipped, keep), name)
    ensures tx.intents == []
  {
    hide StageAll;
    hide SortByKey;
    BatchReady(repo.Value(), writer, NOTHING, "");
    var session := new WritableSession(|repo.history| - 1);
    tx := new HybridTransaction(repo, session, writer, DEFAULT_MAX_RETRIES);
    committed, skipped, keep := StageRecords(session, repo.history[|repo.history| - 1].nodes, items, written, hash);
  }

  /** Append the rows kept, commit, and drop the staged arrays when that raises. */
  method PublishRows(tx: HybridTransaction, name: string, keep: seq<Row>, env: Env) returns (outcome: Outcome)
    requires tx.Consistent() && tx.snapshotId.None? && ForeignTo(env, tx.catalog.writer)
    modifies tx, tx.session, tx.catalog, tx.repo, tx.repo.warehouse
    ensures var planned := old(tx.Value()).(intents := old(tx.intents) + [AppendRows(name, SortByKey(keep))]);
            && old(Ready(tx.repo.Value(), planned))
            && var run := Transactions.Committed(old(tx.repo.Value()), planned, env);
            && tx.repo.Value() == run.world && outcome == run.outcome
            && tx.session.Value() == if outcome.Raised? then Discarded(run.tx.session) else run.tx.session
  {
    hide Transactions.Committed;
    tx.Append(name, SortByKey(keep));
    outcome := tx.Commit(env);
    if outcome.Raised? {
      tx.session.DiscardChanges();
    }
  }

  /** The session is null when the batch is refused before one is opened. */
  method IngestBatch(repo: Repository, writer: nat, items: seq<Item>, written: seq<Written>, hash: int -> int, name: string,
                     traffic: Traffic)
    returns (r: Ingested, session: WritableSession?)
    requires Sane(repo.Value()) && !Used(repo.warehouse.Value(), writer) && Apart(traffic, writer) && |items| == |written|
    modifies repo, repo.warehouse
    ensures (repo.Value(), r) == IngestRun(old(repo.Value()), writer, items, written, hash, name, traffic)
    ensures var after := old(SessionAfter(repo.Value(), writer, items, written, hash, name, traffic));
            if session == null then after.None? else after == Some(session.Value())
  {
    hide Transactions.Committed;
    hide LandAll;
    hide Valid;
    hide GoodStore;
    hide Whole;
    hide BatchTx;
    hide ResolveTable;
    hide SortByKey;
    if !AllPlaced(items) {
      return NoFootprint, null;
    }
    ghost var w := repo.Value();
    var tx, committed, skipped, keep := StageBatch(repo, writer, items, written, hash);
    var live := tx.session;
    LandAllKeeps(w, tx.Value(), traffic.staging);
    repo.Receive(traffic.staging);
    if keep == [] {
      live.DiscardChanges();
      return BatchFailed(skipped), live;
    }
    var table := ResolveTable(repo.warehouse.Value(), repo.history[|repo.history| - 1], name);
    if !table.Table? {
      return Unresolved(table), live;
    }
    assert tx.intents + [AppendRows(name, SortByKey(keep))] == [AppendRows(name, SortByKey(keep))];
    var outcome := PublishRows(tx, name, keep, traffic.commit);
    match outcome
    case Returned(id) =>
      return Committed(id, committed, skipped), live;
    case Raised(error) =>
      return CommitRaised(error), live;
  }
}
