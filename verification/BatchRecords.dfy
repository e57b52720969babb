/**
 * A batch told from its records alone: which of them are published, what lies under each
 * granule's group, which row each gets, and why every other record was skipped.
 */
module BatchRecords {
  import opened Options
  import opened Tables
  import opened Icechunk
  import opened Transactions
  import opened Ingest
  import opened Granules

  /** What is left under the group after the writer was called. */
  function LeftBy(w: Written): map<Path, Node> {
    if w.Wrote? then w.nodes
    else if w.nodes != map[] && w.cleanup.Stuck? then w.cleanup.left
    else map[]
  }

  /** An earlier record with this id wrote the granule, or left something behind. */
  ghost predicate Taken(items: seq<Item>, written: seq<Written>, id: string, n: nat)
    requires n <= |items| == |written|
  {
    exists j :: 0 <= j < n && items[j].id == id && LeftBy(written[j]) != map[]
  }

  /** The writer is called: neither the store nor an earlier record has the group. */
  ghost predicate Reached(base: map<Path, Node>, items: seq<Item>, written: seq<Written>, i: nat)
    requires i < |items| == |written|
  {
    [items[i].id] !in base && !Taken(items, written, items[i].id, i)
  }

  /** The record is published: the first with its id whose writer succeeds. */
  ghost predicate Publishes(base: map<Path, Node>, items: seq<Item>, written: seq<Written>, i: nat)
    requires i < |items| == |written|
  {
    Reached(base, items, written, i) && written[i].Wrote?
  }

  ghost function PublishedRecords(base: map<Path, Node>, items: seq<Item>, written: seq<Written>, n: nat): (records: seq<nat>)
    requires n <= |items| == |written|
    ensures forall m | 0 <= m < |records| :: records[m] < n && Publishes(base, items, written, records[m])
    ensures forall i | 0 <= i < n && Publishes(base, items, written, i) :: i in records
    ensures forall l, m | 0 <= l < m < |records| :: records[l] < records[m]
  {
    if n == 0 then []
    else PublishedRecords(base, items, written, n - 1) + if Publishes(base, items, written, n - 1) then [n - 1] else []
  }

  /** The row of a published record: its id, where its arrays are, and the hash of its footprint. */
  function RowOf(item: Item, w: Written, hash: int -> int): Row
    requires item.footprint.Some? && w.Wrote?
  {
    Row(item.id, w.arrayPath, hash(item.footprint.value))
  }

  /** Ids and rows, record for record. */
  ghost predicate HoldsRecords(committed: seq<string>, keep: seq<Row>, items: seq<Item>, written: seq<Written>, hash: int -> int,
                               records: seq<nat>)
    requires |items| == |written|
  {
    && |committed| == |keep| == |records|
    && forall m | 0 <= m < |records| ::
         && records[m] < |items| && written[records[m]].Wrote?
         && committed[m] == items[records[m]].id
         && (items[records[m]].footprint.Some? ==> keep[m] == RowOf(items[records[m]], written[records[m]], hash))
  }

  lemma WroteLeaves(w: Written)
    requires WellBehaved(w)
    ensures LeftBy(w) != map[] <==> w.Wrote? || LeavesNodes(w)
    ensures LeftBy(w) != map[] ==> [] in LeftBy(w)
  {}

  lemma TakenNext(items: seq<Item>, written: seq<Written>, id: string, n: nat)
    requires 0 < n <= |items| == |written|
    ensures Taken(items, written, id, n) <==>
              Taken(items, written, id, n - 1) || (items[n - 1].id == id && LeftBy(written[n - 1]) != map[])
  {}

  // -- which groups, ids and rows -----------------------------------------------------------------

  ghost predicate GroupsAre(base: map<Path, Node>, b: Batch, items: seq<Item>, written: seq<Written>, n: nat)
    requires n <= |items| == |written|
  {
    forall g: string :: GranuleExists(base, b.changes, g) <==> [g] in base || Taken(items, written, g, n)
  }

  lemma CommittedExists(base: map<Path, Node>, b: Batch, items: seq<Item>, n: nat, id: string)
    requires n <= |items| && Accounted(base, b, items, n) && id in b.committed
    ensures GranuleExists(base, b.changes, id)
  {
    hide GranuleExists;
    hide OffBase;
  }

  /** The writer is called for exactly the records that the definition reaches. */
  lemma CalledIsReached(base: map<Path, Node>, b: Batch, items: seq<Item>, written: seq<Written>, n: nat)
    requires n < |items| == |written| && Accounted(base, b, items, n) && GroupsAre(base, b, items, written, n)
    ensures Called(base, b, items[n]) <==> Reached(base, items, written, n)
  {
    hide GranuleExists;
    hide Accounted;
    hide Taken;
    if items[n].id in b.committed {
      CommittedExists(base, b, items, n, items[n].id);
    }
  }

  lemma GroupsNext(base: map<Path, Node>, b: Batch, items: seq<Item>, written: seq<Written>, n: nat, key: int)
    requires n < |items| == |written| && WellBehaved(written[n])
    requires Accounted(base, b, items, n) && GroupsAre(base, b, items, written, n)
    ensures GroupsAre(base, StageOne(base, b, items[n], key, written[n]), items, written, n + 1)
  {
    hide GranuleExists;
    hide Accounted;
    hide Taken;
    hide StageOne;
    hide LeftBy;
    hide LeavesNodes;
    hide WellBehaved;
    hide Called;
    CalledIsReached(base, b, items, written, n);
    WroteLeaves(written[n]);
    forall g: string
      ensures GranuleExists(base, StageOne(base, b, items[n], key, written[n]).changes, g)
              <==> [g] in base || Taken(items, written, g, n + 1)
    {
      StageGroups(base, b, items[n], key, written[n], g);
      TakenNext(items, written, g, n + 1);
      assert GranuleExists(base, b.changes, g) <==> [g] in base || Taken(items, written, g, n);
    }
  }

  lemma RecordsNext(base: map<Path, Node>, b: Batch, items: seq<Item>, written: seq<Written>, hash: int -> int, n: nat)
    requires n < |items| == |written|
    requires Called(base, b, items[n]) <==> Reached(base, items, written, n)
    requires HoldsRecords(b.committed, b.keep, items, written, hash, PublishedRecords(base, items, written, n))
    ensures var b' := StageOne(base, b, items[n], KeyOf(items[n], hash), written[n]);
            HoldsRecords(b'.committed, b'.keep, items, written, hash, PublishedRecords(base, items, written, n + 1))
  {
    hide GranuleExists;
    hide Reached;
    hide CleanedUp;
    hide Staged;
    hide RecordSkip;
    hide SkipReason;
  }

  lemma {:induction false} BatchRecordsAre(base: map<Path, Node>, items: seq<Item>, written: seq<Written>, hash: int -> int, n: nat)
    requires n <= |items| == |written| && forall i | 0 <= i < |written| :: WellBehaved(written[i])
    ensures var b := StageAll(base, items, written, hash, n);
            && GroupsAre(base, b, items, written, n)
            && HoldsRecords(b.committed, b.keep, items, written, hash, PublishedRecords(base, items, written, n))
  {
    hide StageOne;
    hide HoldsRecords;
    hide GranuleExists;
    hide Taken;
    hide Accounted;
    if n == 0 {
      NoRecords(base, items, written, hash);
    } else {
      var b := StageAll(base, items, written, hash, n - 1);
      BatchRecordsAre(base, items, written, hash, n - 1);
      BatchAccounts(base, items, written, hash, n - 1);
      GroupsNext(base, b, items, written, n - 1, KeyOf(items[n - 1], hash));
      CalledIsReached(base, b, items, written, n - 1);
      RecordsNext(base, b, items, written, hash, n - 1);
    }
  }

  lemma NoRecords(base: map<Path, Node>, items: seq<Item>, written: seq<Written>, hash: int -> int)
    requires |items| == |written|
    ensures GroupsAre(base, NOTHING, items, written, 0)
    ensures HoldsRecords([], [], items, written, hash, PublishedRecords(base, items, written, 0))
  {}

  // -- what lies under each group --------------------------------------------------------------------

  /** The record that decides what is under its group. */
  ghost predicate Fills(base: map<Path, Node>, items: seq<Item>, written: seq<Written>, n: nat, id: string, i: nat)
    requires n <= |items| == |written|
  {
    i < n && items[i].id == id && Reached(base, items, written, i) && LeftBy(written[i]) != map[]
  }

  /** Under the group of an id there is exactly what one record's writer left, or nothing. */
  ghost predicate HoldsUnder(base: map<Path, Node>, changes: Changes, items: seq<Item>, written: seq<Written>, n: nat, id: string)
    requires n <= |items| == |written|
  {
    && (forall i: nat | Fills(base, items, written, n, id, i) :: Exactly(changes, id, LeftBy(written[i])))
    && ([id] in base || !Taken(items, written, id, n) ==> Exactly(changes, id, map[]))
  }

  ghost predicate Exactly(changes: Changes, id: string, nodes: map<Path, Node>) {
    forall p: Path | Under(id, p) ::
      (p in changes <==> p[1..] in nodes) && (p in changes ==> changes[p] == Some(nodes[p[1..]]))
  }

  lemma StagedExactly(changes: Changes, id: string, nodes: map<Path, Node>)
    requires Exactly(changes, id, map[])
    ensures Exactly(Staged(changes, id, nodes), id, nodes)
  {}

  lemma DeletedExactly(base: map<Path, Node>, changes: Changes, id: string)
    requires Rooted(base) && [id] !in base
    ensures Exactly(DeleteDir(base, changes, id), id, map[])
  {}

  lemma CleanedExactly(base: map<Path, Node>, changes: Changes, id: string, w: Written)
    requires Rooted(base) && [id] !in base && WellBehaved(w) && w.Failed? && Exactly(changes, id, map[])
    ensures Exactly(CleanedUp(base, Staged(changes, id, w.nodes), id, w.cleanup), id, LeftBy(w))
  {
    hide Staged;
    hide DeleteDir;
    var staged := Staged(changes, id, w.nodes);
    StagedExactly(changes, id, w.nodes);
    assert Under(id, [id]) && [id][1..] == [];
    GroupStaged(base, changes, id, w.nodes);
    if w.nodes != map[] {
      DeletedExactly(base, staged, id);
      if w.cleanup.Stuck? {
        StagedExactly(DeleteDir(base, staged, id), id, w.cleanup.left);
      }
    }
  }

  lemma GroupStaged(base: map<Path, Node>, changes: Changes, id: string, nodes: map<Path, Node>)
    requires [id] !in base && RootedTree(nodes) && Exactly(changes, id, map[])
    ensures GranuleExists(base, Staged(changes, id, nodes), id) <==> nodes != map[]
  {
    hide Staged;
    assert Under(id, [id]) && [id][1..] == [];
    StagedNodes(base, changes, id, nodes, [id]);
  }

  lemma StagedOther(changes: Changes, id: string, nodes: map<Path, Node>, p: Path)
    requires !Under(id, p)
    ensures var after := Staged(changes, id, nodes);
            (p in after <==> p in changes) && (p in after ==> after[p] == changes[p])
  {}

  lemma DeletedOther(base: map<Path, Node>, changes: Changes, id: string, p: Path)
    requires !Under(id, p)
    ensures var after := DeleteDir(base, changes, id);
            (p in after <==> p in changes) && (p in after ==> after[p] == changes[p])
  {}

  /** A record changes nothing outside its own group. */
  lemma OtherGroups(base: map<Path, Node>, b: Batch, item: Item, key: int, w: Written, p: Path)
    requires !Under(item.id, p)
    ensures var changes := StageOne(base, b, item, key, w).changes;
            (p in changes <==> p in b.changes) && (p in changes ==> changes[p] == b.changes[p])
  {
    hide GranuleExists;
    hide RecordSkip;
    hide SkipReason;
    hide Staged;
    hide DeleteDir;
    var staged := Staged(b.changes, item.id, w.nodes);
    StagedOther(b.changes, item.id, w.nodes, p);
    DeletedOther(base, staged, item.id, p);
    if w.Failed? && w.cleanup.Stuck? {
      StagedOther(DeleteDir(base, staged, item.id), item.id, w.cleanup.left, p);
    }
  }

  lemma OtherExactly(base: map<Path, Node>, b: Batch, item: Item, key: int, w: Written, id: string, nodes: map<Path, Node>)
    requires id != item.id && Exactly(b.changes, id, nodes)
    ensures Exactly(StageOne(base, b, item, key, w).changes, id, nodes)
  {
    hide StageOne;
    forall p: Path | Under(id, p)
      ensures var changes := StageOne(base, b, item, key, w).changes;
              (p in changes <==> p[1..] in nodes) && (p in changes ==> changes[p] == Some(nodes[p[1..]]))
    {
      OtherGroups(base, b, item, key, w, p);
    }
  }

  /** The record whose writer is called leaves exactly its own nodes. */
  lemma OwnExactly(base: map<Path, Node>, b: Batch, item: Item, key: int, w: Written)
    requires Rooted(base) && [item.id] !in base && WellBehaved(w) && Called(base, b, item) && Exactly(b.changes, item.id, map[])
    ensures Exactly(StageOne(base, b, item, key, w).changes, item.id, LeftBy(w))
  {
    hide Staged;
    hide CleanedUp;
    hide RecordSkip;
    hide SkipReason;
    hide Exactly;
    StagedExactly(b.changes, item.id, w.nodes);
    if w.Failed? {
      CleanedExactly(base, b.changes, item.id, w);
    }
  }

  lemma NotCalled(base: map<Path, Node>, b: Batch, item: Item, key: int, w: Written)
    requires !Called(base, b, item)
    ensures StageOne(base, b, item, key, w).changes == b.changes
  {}

  lemma UnderOther(base: map<Path, Node>, b: Batch, items: seq<Item>, written: seq<Written>, n: nat, key: int, id: string)
    requires n < |items| == |written| && HoldsUnder(base, b.changes, items, written, n, id) && items[n].id != id
    ensures HoldsUnder(base, StageOne(base, b, items[n], key, written[n]).changes, items, written, n + 1, id)
  {
    hide StageOne;
    hide Exactly;
    hide Reached;
    hide LeftBy;
    var changes := StageOne(base, b, items[n], key, written[n]).changes;
    forall i: nat | Fills(base, items, written, n + 1, id, i) ensures Exactly(changes, id, LeftBy(written[i])) {
      assert Fills(base, items, written, n, id, i);
      OtherExactly(base, b, items[n], key, written[n], id, LeftBy(written[i]));
    }
    if [id] in base || !Taken(items, written, id, n + 1) {
      TakenNext(items, written, id, n + 1);
      OtherExactly(base, b, items[n], key, written[n], id, map[]);
    }
  }

  lemma UnderOwn(base: map<Path, Node>, b: Batch, items: seq<Item>, written: seq<Written>, n: nat, key: int)
    requires n < |items| == |written| && WellBehaved(written[n]) && Rooted(base)
    requires HoldsUnder(base, b.changes, items, written, n, items[n].id)
    requires Called(base, b, items[n]) <==> Reached(base, items, written, n)
    ensures HoldsUnder(base, StageOne(base, b, items[n], key, written[n]).changes, items, written, n + 1, items[n].id)
  {
    hide StageOne;
    hide Exactly;
    hide LeftBy;
    hide Called;
    hide WellBehaved;
    hide Rooted;
    hide Taken;
    var id := items[n].id;
    TakenNext(items, written, id, n + 1);
    if Reached(base, items, written, n) {
      OwnExactly(base, b, items[n], key, written[n]);
      var changes := StageOne(base, b, items[n], key, written[n]).changes;
      forall i: nat | Fills(base, items, written, n + 1, id, i) ensures Exactly(changes, id, LeftBy(written[i])) {
        if i < n {
          assert Fills(base, items, written, n, id, i);
          FilledIsTaken(base, items, written, n, id, i);
        }
      }
    } else {
      NotCalled(base, b, items[n], key, written[n]);
      forall i: nat | Fills(base, items, written, n + 1, id, i) ensures Fills(base, items, written, n, id, i) {}
    }
  }

  lemma FilledIsTaken(base: map<Path, Node>, items: seq<Item>, written: seq<Written>, n: nat, id: string, i: nat)
    requires n <= |items| == |written| && Fills(base, items, written, n, id, i)
    ensures Taken(items, written, id, n)
  {}

  /** In the end each id's group holds what the one record that fills it left. */
  lemma {:induction false} BatchContents(base: map<Path, Node>, items: seq<Item>, written: seq<Written>, hash: int -> int,
                                         n: nat, id: string)
    requires n <= |items| == |written| && Rooted(base) && forall i | 0 <= i < |written| :: WellBehaved(written[i])
    ensures HoldsUnder(base, StageAll(base, items, written, hash, n).changes, items, written, n, id)
  {
    hide StageOne;
    hide HoldsUnder;
    hide Called;
    hide Reached;
    hide GroupsAre;
    if n == 0 {
      NothingUnder(base, items, written, id);
    } else {
      var b := StageAll(base, items, written, hash, n - 1);
      BatchContents(base, items, written, hash, n - 1, id);
      if items[n - 1].id != id {
        UnderOther(base, b, items, written, n - 1, KeyOf(items[n - 1], hash), id);
      } else {
        BatchRecordsAre(base, items, written, hash, n - 1);
        BatchAccounts(base, items, written, hash, n - 1);
        CalledIsReached(base, b, items, written, n - 1);
        UnderOwn(base, b, items, written, n - 1, KeyOf(items[n - 1], hash));
      }
    }
  }

  lemma NothingUnder(base: map<Path, Node>, items: seq<Item>, written: seq<Written>, id: string)
    requires |items| == |written|
    ensures HoldsUnder(base, NOTHING.changes, items, written, 0, id)
  {}

  // -- why the others were skipped -------------------------------------------------------------------

  /** The reason a record is not published; None when it is. */
  ghost function ReasonFor(base: map<Path, Node>, items: seq<Item>, written: seq<Written>, i: nat): Option<string>
    requires i < |items| == |written|
  {
    if exists j :: 0 <= j < i && items[j].id == items[i].id && Publishes(base, items, written, j)
    then Some("already staged earlier in this batch")
    else if !Reached(base, items, written, i) then Some("already in the store")
    else
      match written[i]
      case Wrote(_, _) => None
      case Failed(nodes, reason, Stuck(why, _)) =>
        Some(if nodes != map[] then reason + " (cleanup also failed: " + why + ")" else reason)
      case Failed(_, reason, Removed) => Some(reason)
  }

  /** The reasons of an id's records, in order. */
  ghost function ReasonsOf(base: map<Path, Node>, items: seq<Item>, written: seq<Written>, n: nat, id: string): seq<string>
    requires n <= |items| == |written|
  {
    if n == 0 then []
    else
      var earlier := ReasonsOf(base, items, written, n - 1, id);
      if items[n - 1].id == id && ReasonFor(base, items, written, n - 1).Some?
      then earlier + [ReasonFor(base, items, written, n - 1).value] else earlier
  }

  /** Put together with semicolons; an empty reason counts as none. */
  function Joined(reasons: seq<string>): string {
    if reasons == [] then ""
    else
      var earlier, last := Joined(reasons[..|reasons| - 1]), reasons[|reasons| - 1];
      if earlier == "" then last else earlier + "; " + last
  }

  ghost predicate SkipsAre(base: map<Path, Node>, skipped: map<string, string>, items: seq<Item>, written: seq<Written>, n: nat)
    requires n <= |items| == |written|
  {
    forall id: string ::
      var reasons := ReasonsOf(base, items, written, n, id);
      (id in skipped <==> reasons != []) && (id in skipped ==> skipped[id] == Joined(reasons))
  }

  lemma JoinedSnoc(reasons: seq<string>, reason: string)
    ensures Joined(reasons + [reason]) == if Joined(reasons) == "" then reason else Joined(reasons) + "; " + reason
  {
    assert (reasons + [reason])[..|reasons|] == reasons;
  }

  /** Being among the committed ids is having been published before. */
  lemma CommittedBefore(base: map<Path, Node>, committed: seq<string>, keep: seq<Row>, items: seq<Item>, written: seq<Written>,
                        hash: int -> int, n: nat, id: string)
    requires n <= |items| == |written|
    requires HoldsRecords(committed, keep, items, written, hash, PublishedRecords(base, items, written, n))
    ensures id in committed <==> exists j :: 0 <= j < n && items[j].id == id && Publishes(base, items, written, j)
  {
    hide Publishes;
    var records := PublishedRecords(base, items, written, n);
    if id in committed {
      var m :| 0 <= m < |committed| && committed[m] == id;
      assert Publishes(base, items, written, records[m]);
    }
    if j :| 0 <= j < n && items[j].id == id && Publishes(base, items, written, j) {
      assert j in records;
      var m :| 0 <= m < |records| && records[m] == j;
      assert committed[m] == id;
    }
  }

  /** The skip a record gets, before it is joined to earlier ones. */
  lemma OneReason(base: map<Path, Node>, b: Batch, items: seq<Item>, written: seq<Written>, n: nat, key: int)
    requires n < |items| == |written| && WellBehaved(written[n])
    requires items[n].id in b.committed <==>
               exists j :: 0 <= j < n && items[j].id == items[n].id && Publishes(base, items, written, j)
    requires Called(base, b, items[n]) <==> Reached(base, items, written, n)
    requires Reached(base, items, written, n) ==> Exactly(b.changes, items[n].id, map[])
    ensures StageOne(base, b, items[n], key, written[n]).skipped
         == match ReasonFor(base, items, written, n)
            case None => b.skipped
            case Some(reason) => RecordSkip(b.skipped, items[n].id, reason)
  {
    hide GranuleExists;
    hide RecordSkip;
    hide Staged;
    hide CleanedUp;
    hide Publishes;
    hide Exactly;
    if Reached(base, items, written, n) {
      GroupStaged(base, b.changes, items[n].id, written[n].nodes);
    }
  }

  lemma SkipsNext(base: map<Path, Node>, skipped: map<string, string>, items: seq<Item>, written: seq<Written>, n: nat)
    requires n < |items| == |written| && SkipsAre(base, skipped, items, written, n)
    ensures SkipsAre(base, match ReasonFor(base, items, written, n)
                           case None => skipped
                           case Some(reason) => RecordSkip(skipped, items[n].id, reason), items, written, n + 1)
  {
    hide ReasonFor;
    hide Joined;
    var reason := ReasonFor(base, items, written, n);
    if reason.Some? {
      JoinedSnoc(ReasonsOf(base, items, written, n, items[n].id), reason.value);
      NoReasons();
    }
  }

  lemma NoReasons()
    ensures Joined([]) == ""
  {}

  lemma ReachedEmpty(base: map<Path, Node>, changes: Changes, items: seq<Item>, written: seq<Written>, n: nat)
    requires n < |items| == |written| && HoldsUnder(base, changes, items, written, n, items[n].id)
    ensures Reached(base, items, written, n) ==> Exactly(changes, items[n].id, map[])
  {
    hide Exactly;
  }

  lemma {:induction false} BatchReasons(base: map<Path, Node>, items: seq<Item>, written: seq<Written>, hash: int -> int, n: nat)
    requires n <= |items| == |written| && Rooted(base) && forall i | 0 <= i < |written| :: WellBehaved(written[i])
    ensures SkipsAre(base, StageAll(base, items, written, hash, n).skipped, items, written, n)
  {
    hide Reached;
    hide Publishes;
    hide Accounted;
    hide Taken;
    hide Rooted;
    hide WellBehaved;
    hide StageOne;
    hide SkipsAre;
    hide ReasonFor;
    hide RecordSkip;
    hide Called;
    hide HoldsRecords;
    hide GroupsAre;
    hide Exactly;
    if n == 0 {
      NothingSkipped(base, items, written);
    } else {
      var b := StageAll(base, items, written, hash, n - 1);
      BatchReasons(base, items, written, hash, n - 1);
      BatchRecordsAre(base, items, written, hash, n - 1);
      BatchAccounts(base, items, written, hash, n - 1);
      BatchContents(base, items, written, hash, n - 1, items[n - 1].id);
      CommittedBefore(base, b.committed, b.keep, items, written, hash, n - 1, items[n - 1].id);
      CalledIsReached(base, b, items, written, n - 1);
      ReachedEmpty(base, b.changes, items, written, n - 1);
      OneReason(base, b, items, written, n - 1, KeyOf(items[n - 1], hash));
      SkipsNext(base, b.skipped, items, written, n - 1);
    }
  }

  lemma NothingSkipped(base: map<Path, Node>, items: seq<Item>, written: seq<Written>)
    requires |items| == |written|
    ensures SkipsAre(base, NOTHING.skipped, items, written, 0)
  {}

  // -- in the published snapshot ---------------------------------------------------------------------

  /** The rows of these records, in order. */
  function RowsFor(items: seq<Item>, written: seq<Written>, hash: int -> int, records: seq<nat>): seq<Row>
    requires |items| == |written| && AllPlaced(items)
    requires forall m | 0 <= m < |records| :: records[m] < |items| && written[records[m]].Wrote?
  {
    seq(|records|, m requires 0 <= m < |records| => RowOf(items[records[m]], written[records[m]], hash))
  }

  /** Every node the writer made is there, and nothing else is if the parent did not have the group. */
  ghost predicate ArraysLand(parent: map<Path, Node>, child: map<Path, Node>, id: string, nodes: map<Path, Node>) {
    && (forall p: Path | Under(id, p) && p[1..] in nodes :: p in child && child[p] == nodes[p[1..]])
    && (Rooted(parent) && [id] !in parent ==> forall p: Path | Under(id, p) :: p in child ==> p[1..] in nodes)
  }

  lemma LaidExactly(parent: map<Path, Node>, changes: Changes, child: map<Path, Node>, id: string, nodes: map<Path, Node>)
    requires LaidOver(parent, changes, child) && Exactly(changes, id, nodes)
    ensures ArraysLand(parent, child, id, nodes)
  {
    forall p: Path | Under(id, p) && p[1..] in nodes ensures p in child && child[p] == nodes[p[1..]] {
      assert p in changes;
    }
  }

  /** What a published call returns and publishes, in terms of its records. */
  ghost predicate PublishesRecords(w: World, r: Ingested, base: map<Path, Node>, items: seq<Item>, written: seq<Written>,
                                   hash: int -> int, name: string)
    requires |items| == |written| && AllPlaced(items) && r.Committed?
  {
    var records := PublishedRecords(base, items, written, |items|);
    && Sane(w) && |w.history| > 1 && r.id == |w.history| - 1
    && |r.committed| == |records| && (forall m | 0 <= m < |records| :: r.committed[m] == items[records[m]].id)
    && SkipsAre(base, r.skipped, items, written, |items|)
    && RowsAt(w, r.id, name) == RowsAt(w, r.id - 1, name) + multiset(RowsFor(items, written, hash, records))
    && (forall m | 0 <= m < |records| ::
          ArraysLand(w.history[r.id - 1].nodes, w.history[r.id].nodes, items[records[m]].id, written[records[m]].nodes))
  }

  lemma RecordFills(base: map<Path, Node>, items: seq<Item>, written: seq<Written>, n: nat, i: nat)
    requires i < n <= |items| == |written| && WellBehaved(written[i]) && Publishes(base, items, written, i)
    ensures Fills(base, items, written, n, items[i].id, i) && LeftBy(written[i]) == written[i].nodes
  {
    WroteLeaves(written[i]);
  }

  lemma RecordRows(b: Batch, items: seq<Item>, written: seq<Written>, hash: int -> int, records: seq<nat>)
    requires |items| == |written| && AllPlaced(items)
    requires HoldsRecords(b.committed, b.keep, items, written, hash, records)
    ensures b.keep == RowsFor(items, written, hash, records)
  {}

  lemma ArraysOfRecord(base: map<Path, Node>, items: seq<Item>, written: seq<Written>, hash: int -> int, i: nat,
                       parent: map<Path, Node>, child: map<Path, Node>)
    requires i < |items| == |written| && Rooted(base) && forall j | 0 <= j < |written| :: WellBehaved(written[j])
    requires Publishes(base, items, written, i)
    requires LaidOver(parent, StageAll(base, items, written, hash, |items|).changes, child)
    ensures ArraysLand(parent, child, items[i].id, written[i].nodes)
  {
    hide StageAll;
    hide Publishes;
    hide LaidOver;
    hide HoldsUnder;
    hide Fills;
    hide LeftBy;
    hide Rooted;
    hide WellBehaved;
    hide ArraysLand;
    hide Exactly;
    var changes := StageAll(base, items, written, hash, |items|).changes;
    RecordFills(base, items, written, |items|, i);
    BatchContents(base, items, written, hash, |items|, items[i].id);
    FilledExactly(base, changes, items, written, |items|, i);
    LaidExactly(parent, changes, child, items[i].id, written[i].nodes);
  }

  lemma BatchPublishes(w: World, r: Ingested, base: map<Path, Node>, items: seq<Item>, written: seq<Written>, hash: int -> int,
                       name: string)
    requires |items| == |written| && AllPlaced(items) && Rooted(base) && forall i | 0 <= i < |written| :: WellBehaved(written[i])
    requires var batch := StageAll(base, items, written, hash, |items|);
             && BatchOn(w, name, batch)
             && r.Committed? && r.id == |w.history| - 1 && r.committed == batch.committed && r.skipped == batch.skipped
    ensures PublishesRecords(w, r, base, items, written, hash, name)
  {
    hide StageAll;
    hide SkipsAre;
    hide Publishes;
    hide RowsAt;
    hide LaidOver;
    hide GroupsAre;
    hide Sane;
    hide Rooted;
    hide WellBehaved;
    hide ArraysLand;
    var batch, records := StageAll(base, items, written, hash, |items|), PublishedRecords(base, items, written, |items|);
    BatchRecordsAre(base, items, written, hash, |items|);
    BatchReasons(base, items, written, hash, |items|);
    RecordRows(batch, items, written, hash, records);
    forall m | 0 <= m < |records|
      ensures ArraysLand(w.history[r.id - 1].nodes, w.history[r.id].nodes, items[records[m]].id, written[records[m]].nodes)
    {
      ArraysOfRecord(base, items, written, hash, records[m], w.history[r.id - 1].nodes, w.history[r.id].nodes);
    }
  }

  /**
   * A call that returns has published, in order, the first record of each id whose writer
   * succeeded: its row with the hash of its footprint, and under its group the nodes its
   * writer made, each with its content; and it gives every other record's reason.
   */
  lemma RecordsLand(w: World, writer: nat, items: seq<Item>, written: seq<Written>, hash: int -> int, name: string, traffic: Traffic)
    requires Sane(w) && w.history != [] && !Used(w.store, writer) && Apart(traffic, writer)
    requires |items| == |written| && Rooted(Tip(w.history).nodes) && forall i | 0 <= i < |written| :: WellBehaved(written[i])
    ensures var (w', r) := IngestRun(w, writer, items, written, hash, name, traffic);
            && (r.Committed? ==> AllPlaced(items) && PublishesRecords(w', r, Tip(w.history).nodes, items, written, hash, name))
            && (r.BatchFailed? ==>
                  && PublishedRecords(Tip(w.history).nodes, items, written, |items|) == []
                  && SkipsAre(Tip(w.history).nodes, r.skipped, items, written, |items|))
  {
    hide IngestRun;
    hide StageAll;
    hide SkipsAre;
    hide Publishes;
    hide PublishesRecords;
    hide BatchOn;
    hide GroupsAre;
    hide Sane;
    hide Rooted;
    hide WellBehaved;
    var base := Tip(w.history).nodes;
    var (w', r) := IngestRun(w, writer, items, written, hash, name, traffic);
    IngestGrows(w, writer, items, written, hash, name, traffic);
    if r.Committed? {
      BatchPublishes(w', r, base, items, written, hash, name);
    } else {
      BatchRecordsAre(base, items, written, hash, |items|);
      BatchReasons(base, items, written, hash, |items|);
    }
  }

  lemma FilledExactly(base: map<Path, Node>, changes: Changes, items: seq<Item>, written: seq<Written>, n: nat, i: nat)
    requires i < n <= |items| == |written| && HoldsUnder(base, changes, items, written, n, items[i].id)
    requires Fills(base, items, written, n, items[i].id, i)
    ensures Exactly(changes, items[i].id, LeftBy(written[i]))
  {
    hide Exactly;
  }
}
