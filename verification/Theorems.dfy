/**
 * The promises of the repository, each as one statement about every pinned run of
 * any number of transactions.
 */
module Theorems {
  import opened Options
  import opened Tables
  import opened Validation
  import opened Catalogs
  import opened Convention
  import opened Icechunk
  import opened Intents
  import opened Transactions
  import opened Protocol
  import opened Invariants
  import opened Replay
  import opened Isolation
  import opened Declarations
  import opened SystemInvariant
  import opened Guarantees

  // -- serial refinement ------------------------------------------------------------------

  /** The rows of every table after the published operations, in commit order, from nothing. */
  ghost function ReplayedRows(log: seq<Publication>): Option<TableRows> {
    if log == [] then Some(map[])
    else
      match ReplayedRows(log[..|log| - 1])
      case None => None
      case Some(tables) => PerformAll(tables, log[|log| - 1].client.ops)
  }

  /** What is at a path after the published array changes: the last publication that names it decides. */
  function NodeAfter(log: seq<Publication>, p: Path): Option<Node> {
    if log == [] then None
    else
      var changes := log[|log| - 1].client.tx.session.changes;
      if p in changes then changes[p] else NodeAfter(log[..|log| - 1], p)
  }

  /** The root attributes: the last publication that wrote them decides. */
  function AttrsAfter(log: seq<Publication>): Attrs {
    if log == [] then NO_ATTRS
    else
      var attrs := log[|log| - 1].client.tx.session.attrs;
      if attrs.Some? then attrs.value else AttrsAfter(log[..|log| - 1])
  }

  /** The nodes are those that the log leaves. */
  ghost predicate NodesAre(log: seq<Publication>, nodes: map<Path, Node>) {
    forall p: Path :: NodeAfter(log, p) == if p in nodes then Some(nodes[p]) else None
  }

  /** Every snapshot is the replay, one after the other, of the transactions published up to it. */
  lemma {:induction false} SnapshotIsReplay(events: seq<Event>, k: nat)
    requires Pinned(events) && k < |RunOf(events).world.history|
    ensures var s := RunOf(events);
            && |s.log| + 1 == |s.world.history|
            && Resolves(s.world.store, ReadPointers(s.world.history[k]))
            && ReplayedRows(s.log[..k]) == Some(View(s.world.store, ReadPointers(s.world.history[k])))
            && NodesAre(s.log[..k], s.world.history[k].nodes)
            && AttrsAfter(s.log[..k]) == s.world.history[k].attrs
  {
    var s := RunOf(events);
    RunInv(events);
    if k == 0 {
      assert s.log[..0] == [];
      assert View(s.world.store, map[]) == map[];
    } else {
      SnapshotIsReplay(events, k - 1);
      assert LogEntry(s, k - 1);
      ReplaySnoc(s.log, k);
      NodesSnoc(s.log, k, s.world.history[k - 1], s.world.history[k]);
    }
  }

  lemma NodesSnoc(log: seq<Publication>, k: nat, parent: Commit, child: Commit)
    requires 0 < k <= |log| && NodesAre(log[..k - 1], parent.nodes) && AttrsAfter(log[..k - 1]) == parent.attrs
    requires Lands(parent, log[k - 1].client.tx.session, ReadPointers(child), child)
    ensures NodesAre(log[..k], child.nodes) && AttrsAfter(log[..k]) == child.attrs
  {
    assert log[..k][..k - 1] == log[..k - 1];
    assert log[..k][k - 1] == log[k - 1];
    forall p: Path ensures NodeAfter(log[..k], p) == if p in child.nodes then Some(child.nodes[p]) else None {
      assert NodeAfter(log[..k - 1], p) == if p in parent.nodes then Some(parent.nodes[p]) else None;
    }
  }

  lemma ReplaySnoc(log: seq<Publication>, k: nat)
    requires 0 < k <= |log|
    ensures ReplayedRows(log[..k]) == match ReplayedRows(log[..k - 1])
                                      case None => None
                                      case Some(tables) => PerformAll(tables, log[k - 1].client.ops)
  {
    assert log[..k][..k - 1] == log[..k - 1];
  }

  /**
   * Snapshot `k + 1` is snapshot `k` with the `k`-th publication done to it: first whatever
   * was staged directly before `commit`, then every intent once and in order, with the
   * array changes laid over the parent's arrays path by path. After a retry, or without direct work,
   * the intents alone account for the tables.
   */
  ghost predicate PublishedOnParent(s: System, k: nat) {
    && k + 1 < |s.world.history| && k < |s.log|
    && var parent, child, c := s.world.history[k], s.world.history[k + 1], s.log[k].client;
    && Resolves(s.world.store, ReadPointers(parent)) && Resolves(s.world.store, ReadPointers(child))
    && var before, after := View(s.world.store, ReadPointers(parent)), View(s.world.store, ReadPointers(child));
    && PerformAll(before, c.startOps + c.tx.intents) == Some(after)
    && (!c.direct || Attempt(c) > 0 ==> PerformAll(before, c.tx.intents) == Some(after))
    && Lands(parent, c.tx.session, ReadPointers(child), child)
  }

  /** Serial refinement, however the transactions interleave and however often each one tries. */
  lemma SerialRefinement(events: seq<Event>, k: nat)
    requires Pinned(events) && k + 1 < |RunOf(events).world.history|
    ensures PublishedOnParent(RunOf(events), k)
  {
    hide Step;
    RunInv(events);
    assert LogEntry(RunOf(events), k);
  }

  // -- snapshot isolation -----------------------------------------------------------------------

  /** The rows a list of operations brings into one table. */
  ghost function AddedBy(intents: seq<Intent>, name: string): multiset<Row> {
    if intents == [] then multiset{}
    else
      var first := intents[0];
      (if first.name == name && (first.AppendRows? || first.OverwriteRows?) then multiset(first.data) else multiset{})
      + AddedBy(intents[1..], name)
  }

  ghost function RowCount(tables: TableRows, name: string, r: Row): nat {
    if name in tables then tables[name][r] else 0
  }

  /** Operations leave no more copies of a row than there were, plus those they brought in. */
  lemma {:induction false} PerformBound(tables: TableRows, intents: seq<Intent>, name: string, r: Row)
    requires PerformAll(tables, intents).Some?
    ensures RowCount(PerformAll(tables, intents).value, name, r) <= RowCount(tables, name, r) + AddedBy(intents, name)[r]
    decreases |intents|
  {
    if intents != [] {
      var next := Perform(tables, intents[0]).value;
      PerformBound(next, intents[1..], name, r);
      PerformOneBound(tables, intents[0], name, r);
    }
  }

  lemma PerformOneBound(tables: TableRows, intent: Intent, name: string, r: Row)
    requires Perform(tables, intent).Some?
    ensures RowCount(Perform(tables, intent).value, name, r)
         <= RowCount(tables, name, r)
            + (if intent.name == name && (intent.AppendRows? || intent.OverwriteRows?) then multiset(intent.data)[r] else 0)
  {}

  lemma {:induction false} PerformPrefix(tables: TableRows, intents: seq<Intent>, i: nat)
    requires PerformAll(tables, intents).Some? && i <= |intents|
    ensures PerformAll(tables, intents[..i]).Some?
    ensures i < |intents| ==> Perform(PerformAll(tables, intents[..i]).value, intents[i]).Some?
    decreases i
  {
    if i > 0 {
      PerformPrefix(Perform(tables, intents[0]).value, intents[1..], i - 1);
      assert intents[..i][1..] == intents[1..][..i - 1];
    } else {
      assert intents[..0] == [];
    }
  }

  /**
   * When removal `i` of the `k`-th publication runs: since the version captured when it was
   * planned, no snapshot of the table up to the parent's tip added a file that may hold a
   * match; and the rows it matches are no more than that version's, plus those its
   * transaction's earlier intents brought in.
   */
  ghost predicate RemovalWithinPlan(w: World, k: nat, c: Client, i: nat) {
    && k < |w.history| && Resolves(w.store, ReadPointers(w.history[k])) && i < |c.tx.intents|
    && c.tx.intents[i].Removes()
    && var parent, intent := ReadPointers(w.history[k]), c.tx.intents[i];
    var base := Get(c.tx.bases, intent.name);
    var reached := PerformAll(View(w.store, parent), c.tx.intents[..i]);
    && (intent.name in parent ==> NothingAddedSince(w.store, parent, intent.name, intent.filter, base))
    && reached.Some? && intent.name in reached.value
    && (forall r | intent.filter.matches(r) ::
          reached.value[intent.name][r]
          <= PlannedRows(w.store, parent, intent.name, base)[r] + AddedBy(c.tx.intents[..i], intent.name)[r])
  }

  /**
   * Snapshot isolation: between planning and publication nobody else added a file the
   * removal may match, so whatever it removes was planned on or is its own.
   */
  lemma RemovesOnlyPlannedRows(events: seq<Event>, k: nat, i: nat)
    requires Pinned(events) && k < |RunOf(events).log|
    requires var tx := RunOf(events).log[k].client.tx;
             tx.unmanaged == {} && i < |tx.intents| && tx.intents[i].Removes()
    ensures RemovalWithinPlan(RunOf(events).world, k, RunOf(events).log[k].client, i)
  {
    hide Step;
    RunInv(events);
    var s := RunOf(events);
    assert LogEntry(s, k);
    RemovalWithin(s.world, k, s.log[k].client, i);
  }

  lemma RemovalWithin(w: World, k: nat, c: Client, i: nat)
    requires Sane(w) && k + 1 < |w.history| && Records(w, k, c)
    requires c.tx.unmanaged == {} && i < |c.tx.intents| && c.tx.intents[i].Removes()
    ensures RemovalWithinPlan(w, k, c, i)
  {
    var parent, intent := ReadPointers(w.history[k]), c.tx.intents[i];
    PerformPrefix(View(w.store, parent), c.tx.intents, i);
    forall r | intent.filter.matches(r)
      ensures RowCount(PerformAll(View(w.store, parent), c.tx.intents[..i]).value, intent.name, r)
           <= PlannedRows(w.store, parent, intent.name, Get(c.tx.bases, intent.name))[r]
              + AddedBy(c.tx.intents[..i], intent.name)[r]
    {
      RemovalBound(w.store, parent, c.tx.intents[..i], intent.name, intent.filter, Get(c.tx.bases, intent.name), r);
    }
  }

  lemma RemovalBound(
    st: Store, parent: Pointers, earlier: seq<Intent>, name: string, p: Filter, base: Option<nat>, r: Row)
    requires GoodStore(st) && Resolves(st, parent) && PerformAll(View(st, parent), earlier).Some? && p.matches(r)
    requires name in parent ==> NothingAddedSince(st, parent, name, p, base)
    ensures RowCount(PerformAll(View(st, parent), earlier).value, name, r)
         <= PlannedRows(st, parent, name, base)[r] + AddedBy(earlier, name)[r]
  {
    PerformBound(View(st, parent), earlier, name, r);
    if name in parent {
      NothingAddedBounds(st, parent, name, p, base, r);
    }
  }

  // -- lineage -------------------------------------------------------------------------------------

  /** The table is there, not empty, and walking back from its tip reaches the captured snapshot. */
  ghost predicate Reaches(st: Store, pointers: Pointers, name: string, base: nat) {
    && name in pointers && pointers[name] in st.files
    && var m := st.files[pointers[name]];
    && Ordered(m) && m.current.Some? && m.current.value in m.snapshots && base in m.snapshots
    && Between(m, m.current.value, base).Some?
  }

  /**
   * A captured snapshot lies on the table's chain in every snapshot from the one the
   * transaction started from to the tip, so the walk always reaches it and neither
   * "cannot prove" answer of the conflict check can come up.
   */
  lemma CaptureOnEveryLaterChain(events: seq<Event>, writer: nat, name: string, j: nat)
    requires Pinned(events) && writer in RunOf(events).clients
    requires var s, c := RunOf(events), RunOf(events).clients[writer];
             && Clean(c) && Active(c) && name in c.tx.bases && c.tx.bases[name].Some?
             && c.origin <= j < |s.world.history|
    ensures Reaches(RunOf(events).world.store, ReadPointers(RunOf(events).world.history[j]), name,
                    RunOf(events).clients[writer].tx.bases[name].value)
  {
    hide Step;
    Reachable(events);
    var s := RunOf(events);
    var c := s.clients[writer];
    assert ClientInv(s.world, writer, c);
    var later := ReadPointers(s.world.history[j]);
    assert PointersExtend(s.world.store, ReadPointers(s.world.history[c.origin]), later);
    OnChainExtends(s.world.store, c.tx.catalog.pointers, later, name, c.tx.bases[name]);
    var m := s.world.store.files[later[name]];
    AncestorIsReached(m, c.tx.bases[name].value, m.current.value);
  }

  // -- resolvability ----------------------------------------------------------------------------------

  /** Looking the table up loads it if it has a pointer, as every declared table does, and else finds it undeclared. */
  ghost predicate LooksUp(st: Store, snapshot: Commit, name: string) {
    var r := ResolveTable(st, snapshot, name);
    && Resolves(st, ReadPointers(snapshot))
    && (if name in ReadPointers(snapshot)
        then r == Table(st.files[ReadPointers(snapshot)[name]]) && Contents(r.metadata) == View(st, ReadPointers(snapshot))[name]
        else r == NotDeclared)
    && (name in DeclaredNames(snapshot.attrs) ==> r.Table?)
  }

  /** Every snapshot resolves what it declares: looking a table up never finds half of one. */
  lemma NeverMalformed(events: seq<Event>, k: nat, name: string)
    requires Pinned(events) && k < |RunOf(events).world.history|
    ensures LooksUp(RunOf(events).world.store, RunOf(events).world.history[k], name)
  {
    hide Step;
    Reachable(events);
    var s := RunOf(events);
    assert Declares(s.world.history[k]);
    ResolvesOrUndeclared(s.world.store, s.world.history[k], name);
  }

  /** The table is in both maps, and its later version extends the earlier one. */
  ghost predicate TableLivesOn(st: Store, earlier: Pointers, later: Pointers, name: string) {
    && name in earlier && name in later
    && earlier[name] in st.files && later[name] in st.files
    && WellFormed(st.files[later[name]])
    && Extends(st.files[earlier[name]], st.files[later[name]])
  }

  /** A table that is there stays there: pointer keys never shrink along the branch. */
  lemma TablesNeverVanish(events: seq<Event>, i: nat, j: nat, name: string)
    requires Pinned(events) && i <= j < |RunOf(events).world.history|
    requires name in ReadPointers(RunOf(events).world.history[i])
    ensures var w := RunOf(events).world;
            TableLivesOn(w.store, ReadPointers(w.history[i]), ReadPointers(w.history[j]), name)
  {
    hide Step;
    Reachable(events);
    var s := RunOf(events);
    assert PointersExtend(s.world.store, ReadPointers(s.world.history[i]), ReadPointers(s.world.history[j]));
  }
}
