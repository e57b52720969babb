/** Why a validated delete may be replayed: it commutes with everything the winners did. */
module Commutation {
  import opened Options
  import opened Tables
  import opened Validation
  import opened Intents

  /**
   * The versions of one table that a list of operations leaves behind, each built on
   * the one before it with snapshot ids not used there.
   */
  ghost predicate Versions(versions: seq<Metadata>, ops: seq<Intent>, ids: seq<nat>) {
    && |versions| == |ops| + 1 && |ids| == |ops|
    && WellFormed(versions[0])
    && (forall i {:trigger ops[i]} | 0 <= i < |ops| ::
          IdsBelow(versions[i], ids[i]) && versions[i + 1] == Rebuild(versions[i], ops[i], ids[i]))
  }

  ghost function EffectAll(rows: multiset<Row>, ops: seq<Intent>): multiset<Row>
    decreases |ops|
  {
    if ops == [] then rows
    else Effect(EffectAll(rows, ops[..|ops| - 1]), ops[|ops| - 1])
  }

  lemma {:induction false} VersionWellFormed(versions: seq<Metadata>, ops: seq<Intent>, ids: seq<nat>, i: nat)
    requires Versions(versions, ops, ids) && i <= |ops|
    ensures WellFormed(versions[i])
  {
    if i > 0 {
      VersionWellFormed(versions, ops, ids, i - 1);
      RebuildExtends(versions[i - 1], ops[i - 1], ids[i - 1]);
    }
  }

  lemma VersionExtendsNext(versions: seq<Metadata>, ops: seq<Intent>, ids: seq<nat>, i: nat)
    requires Versions(versions, ops, ids) && i < |ops| && WellFormed(versions[i]) && WellFormed(versions[i + 1])
    ensures Extends(versions[i], versions[i + 1])
  {
    RebuildExtends(versions[i], ops[i], ids[i]);
  }

  lemma {:induction false} VersionExtends(versions: seq<Metadata>, ops: seq<Intent>, ids: seq<nat>, i: nat, j: nat)
    requires Versions(versions, ops, ids) && i <= j <= |ops|
    ensures WellFormed(versions[i]) && WellFormed(versions[j]) && Extends(versions[i], versions[j])
    decreases j
  {
    VersionWellFormed(versions, ops, ids, i);
    VersionWellFormed(versions, ops, ids, j);
    if i == j {
      ExtendsReflexive(versions[i]);
    } else {
      VersionExtends(versions, ops, ids, i, j - 1);
      VersionExtendsNext(versions, ops, ids, j - 1);
      ExtendsTransitive(versions[i], versions[j - 1], versions[j]);
    }
  }

  lemma {:induction false} VersionContents(versions: seq<Metadata>, ops: seq<Intent>, ids: seq<nat>, i: nat)
    requires Versions(versions, ops, ids) && i <= |ops|
    ensures Contents(versions[i]) == EffectAll(Contents(versions[0]), ops[..i])
  {
    hide Contents;
    hide Rebuild;
    hide Effect;
    hide Extends;
    hide WellFormed;
    hide IdsBelow;
    if i > 0 {
      VersionContents(versions, ops, ids, i - 1);
      RebuildContents(versions[i - 1], ops[i - 1], ids[i - 1]);
      assert ops[..i][..i - 1] == ops[..i - 1];
    }
  }

  // -- what a quiet window says about the winners' data ---------------------------------

  /** The rows an operation brings in. */
  function Data(op: Intent): seq<Row> {
    if op.AppendRows? || op.OverwriteRows? then op.data else []
  }

  ghost predicate Disjoint(data: seq<Row>, p: Predicate) {
    forall r | r in data :: !p.matches(r)
  }

  lemma {:induction false} AncestorSequence(m: Metadata, a: nat, b: nat)
    requires Ordered(m) && b in m.snapshots && Ancestor(m, a, b) && a != b
    ensures a in m.snapshots && m.snapshots[a].sequence < m.snapshots[b].sequence
    decreases m.snapshots[b].sequence
  {
    var parent := m.snapshots[b].parent.value;
    if a != parent {
      AncestorSequence(m, a, parent);
    }
  }

  /** A quiet window splits at any snapshot inside it. */
  lemma {:induction false} QuietSplit(m: Metadata, base: nat, mid: nat, tip: nat, p: Predicate)
    requires Ordered(m) && tip in m.snapshots && mid in m.snapshots
    requires Quiet(m, base, tip, p) && Ancestor(m, mid, tip) && Ancestor(m, base, mid)
    ensures Quiet(m, base, mid, p) && Quiet(m, mid, tip, p)
    decreases m.snapshots[tip].sequence
  {
    if tip != mid {
      AncestorSequence(m, mid, tip);
      if base != mid {
        AncestorSequence(m, base, mid);
      }
      QuietSplit(m, base, mid, m.snapshots[tip].parent.value, p);
    }
  }

  /** The window looks the same in the earlier metadata that already held it. */
  lemma {:induction false} QuietEarlier(m: Metadata, m': Metadata, base: nat, tip: nat, p: Predicate)
    requires WellFormed(m) && WellFormed(m') && tip in m.snapshots
    requires forall id | id in m.snapshots :: id in m'.snapshots && m'.snapshots[id] == m.snapshots[id]
    requires Quiet(m', base, tip, p)
    ensures Quiet(m, base, tip, p)
    decreases m.snapshots[tip].sequence
  {
    if tip != base {
      QuietEarlier(m, m', base, m.snapshots[tip].parent.value, p);
    }
  }

  /** The window from `base` to the metadata's own current snapshot is quiet. */
  ghost predicate QuietSince(m: Metadata, base: nat, p: Predicate) {
    Ordered(m) && m.current.Some? && m.current.value in m.snapshots && Quiet(m, base, m.current.value, p)
  }

  lemma QuietTip(m: Metadata, base: nat, p: Predicate)
    requires QuietSince(m, base, p) && m.current != Some(base)
    ensures !MayAdd(m, m.current.value, p)
  {}

  /** An append inside a quiet window brought in no matching row. */
  lemma QuietAppend(m: Metadata, data: seq<Row>, id: nat, base: nat, p: Filter)
    requires base != id && QuietSince(Append(m, data, id), base, p)
    ensures Disjoint(data, p)
  {
    var m' := Append(m, data, id);
    QuietTip(m', base, p);
    if data != [] {
      assert DataFile(data) in m'.snapshots[id].added;
      forall r | r in data ensures !p.matches(r) {
        assert r in DataFile(data).rows;
      }
    }
  }

  lemma QuietOperation(m: Metadata, op: Intent, id: nat, base: nat, p: Filter)
    requires IdsBelow(m, id) && base in m.snapshots && QuietSince(Rebuild(m, op, id), base, p)
    ensures Disjoint(Data(op), p)
  {
    match op
    case AppendRows(_, data) => QuietAppend(m, data, id, base, p);
    case OverwriteRows(_, data, q) => QuietAppend(Delete(m, q, id), data, id + 1, base, p);
    case _ =>
  }

  lemma QuietFirst(m: Metadata, next: Metadata, last: Metadata, p: Predicate)
    requires WellFormed(m) && WellFormed(next) && WellFormed(last) && m.current.Some?
    requires Extends(m, next) && Extends(next, last) && QuietSince(last, m.current.value, p)
    ensures QuietSince(next, m.current.value, p) && QuietSince(last, next.current.value, p)
  {
    var base, mid, tip := m.current.value, next.current.value, last.current.value;
    AncestorKept(next, last, base, mid);
    QuietSplit(last, base, mid, tip, p);
    QuietEarlier(next, last, base, mid, p);
  }

  /** One winner: its own data holds no match, and the rest of the window is quiet too. */
  lemma QuietStep(m: Metadata, op: Intent, next: Metadata, id: nat, last: Metadata, p: Filter)
    requires WellFormed(m) && WellFormed(next) && WellFormed(last) && m.current.Some?
    requires Extends(m, next) && Extends(next, last)
    requires next == Rebuild(m, op, id) && IdsBelow(m, id) && QuietSince(last, m.current.value, p)
    ensures Disjoint(Data(op), p)
    ensures next.current.Some? && QuietSince(last, next.current.value, p)
  {
    QuietFirst(m, next, last, p);
    QuietOperation(m, op, id, m.current.value, p);
  }

  /** If no winner's snapshot may have added a match, no winner brought one in. */
  lemma {:induction false} QuietWinners(versions: seq<Metadata>, ops: seq<Intent>, ids: seq<nat>, p: Filter, i: nat)
    requires Versions(versions, ops, ids) && versions[0].current.Some? && i <= |ops|
    requires QuietSince(versions[|ops|], versions[0].current.value, p)
    ensures versions[i].current.Some? && QuietSince(versions[|ops|], versions[i].current.value, p)
    ensures i > 0 ==> Disjoint(Data(ops[i - 1]), p)
  {
    if i > 0 {
      var m, op, next := versions[i - 1], ops[i - 1], versions[i];
      QuietWinners(versions, ops, ids, p, i - 1);
      VersionExtends(versions, ops, ids, i - 1, i);
      VersionExtends(versions, ops, ids, i, |ops|);
      QuietStep(m, op, next, ids[i - 1], versions[|ops|], p);
    }
  }

  // -- commutation ------------------------------------------------------------------------

  lemma EffectCommutes(rows: multiset<Row>, op: Intent, p: Predicate)
    requires Disjoint(Data(op), p)
    ensures Effect(Without(rows, p), op) == Without(Effect(rows, op), p)
  {
    hide Without;
    forall r: Row ensures Effect(Without(rows, p), op)[r] == Without(Effect(rows, op), p)[r] {
      assert p.matches(r) ==> multiset(Data(op))[r] == 0;
    }
  }

  lemma {:induction false} EffectAllCommutes(rows: multiset<Row>, ops: seq<Intent>, p: Predicate)
    requires forall i | 0 <= i < |ops| :: Disjoint(Data(ops[i]), p)
    ensures EffectAll(Without(rows, p), ops) == Without(EffectAll(rows, ops), p)
    decreases |ops|
  {
    if ops != [] {
      var init := ops[..|ops| - 1];
      EffectAllCommutes(rows, init, p);
      EffectCommutes(EffectAll(rows, init), ops[|ops| - 1], p);
    }
  }

  /** The winners' tip shows nothing the delete would conflict with since the version it was planned on. */
  ghost predicate Validates(planned: Metadata, tip: Metadata, p: Predicate) {
    && Ordered(tip) && planned.current.Some? && tip.current.Some? && tip.current.value in tip.snapshots
    && ConflictingAdds(tip, planned.current.value, tip.current.value, p) == []
  }

  lemma ValidatedWinners(versions: seq<Metadata>, winners: seq<Intent>, ids: seq<nat>, p: Filter)
    requires Versions(versions, winners, ids) && Validates(versions[0], versions[|winners|], p)
    ensures forall i | 0 <= i < |winners| :: Disjoint(Data(winners[i]), p)
  {
    var tip := versions[|winners|];
    NoConflictIsQuiet(tip, versions[0].current.value, tip.current.value, p);
    forall i | 0 <= i < |winners| ensures Disjoint(Data(winners[i]), p) {
      QuietWinners(versions, winners, ids, p, i + 1);
    }
  }

  /**
   * A delete that validates against the winners leaves the same rows whether it is
   * replayed after them or ran before them, on the version it was planned on.
   */
  lemma ValidatedDeleteCommutes(
    versions: seq<Metadata>, ids: seq<nat>, winners: seq<Intent>, p: Filter,
    planId: nat, after: seq<Metadata>, afterIds: seq<nat>, replayId: nat)
    requires Versions(versions, winners, ids) && Validates(versions[0], versions[|winners|], p)
    requires Versions(after, winners, afterIds) && after[0] == Delete(versions[0], p, planId)
    ensures Contents(Delete(versions[|winners|], p, replayId)) == Contents(after[|winners|])
  {
    var planned := Contents(versions[0]);
    ValidatedWinners(versions, winners, ids, p);
    EffectAllCommutes(planned, winners, p);
    assert winners[..|winners|] == winners;
    VersionContents(versions, winners, ids, |winners|);
    VersionContents(after, winners, afterIds, |winners|);
    DeleteContents(versions[|winners|], p, replayId);
    DeleteContents(versions[0], p, planId);
  }

  // -- two deletes on one file --------------------------------------------------------------

  lemma {:induction false} SurvivorKept(rows: seq<Row>, q: Predicate, r: Row)
    requires r in rows && !q.matches(r)
    ensures r in Survivors(rows, q)
  {
    if rows[0] != r {
      SurvivorKept(rows[1..], q, r);
    }
  }

  /** A surviving row of a touched file is in one of the files the delete adds. */
  lemma {:induction false} RewrittenHolds(files: seq<DataFile>, q: Predicate, f: DataFile, r: Row)
    requires f in files && Touched(f, q) && r in f.rows && !q.matches(r)
    ensures exists g | g in Rewritten(files, q) :: r in g.rows
  {
    if files[0] == f {
      SurvivorKept(f.rows, q, r);
      var g := DataFile(Survivors(f.rows, q));
      assert g in Rewritten(files, q) && r in g.rows;
    } else {
      RewrittenHolds(files[1..], q, f, r);
      var g :| g in Rewritten(files[1..], q) && r in g.rows;
      assert g in Rewritten(files, q);
    }
  }

  /** And the files the delete adds hold nothing else. */
  lemma {:induction false} RewrittenFrom(files: seq<DataFile>, q: Predicate, g: DataFile, r: Row)
    requires g in Rewritten(files, q) && r in g.rows
    ensures exists f | f in files :: Touched(f, q) && r in f.rows && !q.matches(r)
  {
    var kept := Survivors(files[0].rows, q);
    if Touched(files[0], q) && kept != [] && g == DataFile(kept) {
      SurvivorCame(files[0].rows, q, r);
    } else {
      RewrittenFrom(files[1..], q, g, r);
      var f :| f in files[1..] && Touched(f, q) && r in f.rows && !q.matches(r);
      assert f in files;
    }
  }

  lemma {:induction false} SurvivorCame(rows: seq<Row>, q: Predicate, r: Row)
    requires r in Survivors(rows, q)
    ensures r in rows && !q.matches(r)
  {
    if q.matches(rows[0]) || r != rows[0] {
      SurvivorCame(rows[1..], q, r);
    }
  }

  /** Some file the delete by `q` wrote out again cannot be ruled out for `p`. */
  predicate RewritesInto(m: Metadata, q: Predicate, p: Predicate) {
    exists g | g in Rewritten(FilesOf(m), q) :: p.mayMatch(g)
  }

  lemma DeletedTip(m: Metadata, q: Predicate, id: nat, p: Predicate)
    requires AnyTouched(FilesOf(m), q)
    ensures var deleted := Delete(m, q, id);
            && deleted.current == Some(id) && id in deleted.snapshots && deleted.snapshots[id].parent == m.current
            && (MayAdd(deleted, id, p) <==> RewritesInto(m, q, p))
  {}

  lemma RewritesIntoTouched(m: Metadata, q: Predicate, p: Predicate)
    ensures RewritesInto(m, q, p) ==> AnyTouched(FilesOf(m), q)
  {
    UntouchedIsSubBag(FilesOf(m), q);
  }

  lemma DeleteIdle(m: Metadata, q: Predicate, id: nat)
    ensures !AnyTouched(FilesOf(m), q) ==> Delete(m, q, id) == m
  {}

  lemma QuietOne(m: Metadata, base: nat, tip: nat, p: Predicate)
    requires Ordered(m) && tip in m.snapshots && base in m.snapshots
    requires m.snapshots[tip].parent == Some(base) && tip != base
    ensures Quiet(m, base, tip, p) <==> !MayAdd(m, tip, p)
  {
    hide MayAdd;
  }

  /**
   * Right after one of two deletes planned on the same version, the other is refused if and
   * only if the first wrote out again a file that may hold a match for the second.
   */
  lemma SecondDeleteRefusedIff(m: Metadata, q: Predicate, id: nat, p: Predicate)
    requires WellFormed(m) && m.current.Some? && id !in m.snapshots
    ensures var deleted := Delete(m, q, id);
            && WellFormed(deleted) && deleted.current.Some?
            && (ConflictingAdds(deleted, m.current.value, deleted.current.value, p) != [] <==> RewritesInto(m, q, p))
  {
    hide Delete;
    hide MayAdd;
    hide RewritesInto;
    hide Quiet;
    hide Between;
    hide AnyTouched;
    var deleted := Delete(m, q, id);
    DeleteExtends(m, q, id);
    DeleteIdle(m, q, id);
    RewritesIntoTouched(m, q, p);
    if AnyTouched(FilesOf(m), q) {
      DeletedTip(m, q, id, p);
      QuietOne(deleted, m.current.value, id, p);
      NoConflictIffQuiet(deleted, m.current.value, id, p);
    }
  }

  /** With statistics that rule out every file without a match, it takes a surviving row beside a deleted one. */
  lemma ExactStatistics(m: Metadata, q: Predicate, p: Filter)
    requires forall f: DataFile | p.mayMatch(f) :: exists r :: r in f.rows && p.matches(r)
    ensures RewritesInto(m, q, p) <==>
              exists f, r :: f in FilesOf(m) && Touched(f, q) && r in f.rows && p.matches(r) && !q.matches(r)
  {
    if RewritesInto(m, q, p) {
      var g :| g in Rewritten(FilesOf(m), q) && p.mayMatch(g);
      var r :| r in g.rows && p.matches(r);
      RewrittenFrom(FilesOf(m), q, g, r);
    }
    if f, r :| f in FilesOf(m) && Touched(f, q) && r in f.rows && p.matches(r) && !q.matches(r) {
      RewrittenHolds(FilesOf(m), q, f, r);
    }
  }

  /** Two deletes that both touch the only file, and both go through: nothing of it is left to write out again. */
  lemma SameFileDeletesPass(r: Row, q: Filter, p: Filter)
    requires q.matches(r) && p.matches(r)
    ensures var m := Append(NewTable("t"), [r], 0);
            var f, deleted := DataFile([r]), Delete(m, q, 1);
            && f in FilesOf(m) && Touched(f, q) && Touched(f, p)
            && m.current == Some(0) && deleted.current == Some(1) && WellFormed(deleted)
            && ConflictingAdds(deleted, 0, 1, p) == []
  {
    hide Append;
    hide Delete;
    hide ConflictingAdds;
    hide WellFormed;
    hide FilesOf;
    hide AnyTouched;
    hide Touched;
    hide Rewritten;
    hide MayAdd;
    var m := Append(NewTable("t"), [r], 0);
    OneRow(r);
    OneFile(r, q);
    OneFile(r, p);
    SecondDeleteRefusedIff(m, q, 1, p);
    DeletedTip(m, q, 1, p);
  }

  lemma OneRow(r: Row)
    ensures var m := Append(NewTable("t"), [r], 0);
            WellFormed(m) && FilesOf(m) == [DataFile([r])] && m.current == Some(0) && 1 !in m.snapshots
  {
    hide WellFormed;
    FreshWellFormed();
    AppendExtends(NewTable("t"), [r], 0);
    assert [] + [DataFile([r])] == [DataFile([r])];
  }

  lemma FreshWellFormed()
    ensures WellFormed(NewTable("t"))
  {}

  lemma OneFile(r: Row, q: Predicate)
    requires q.matches(r)
    ensures Touched(DataFile([r]), q) && AnyTouched([DataFile([r])], q) && Rewritten([DataFile([r])], q) == []
  {
    var f := DataFile([r]);
    assert [r][1..] == [] && [f][1..] == [];
    assert Survivors([r], q) == Survivors([r][1..], q);
    assert f in [f] && Touched(f, q);
  }

  /** Whatever else has landed by then, a conflict with the rewritten file stays. */
  lemma RewriteConflicts(m: Metadata, q: Predicate, id: nat, later: Metadata, p: Predicate)
    requires WellFormed(m) && m.current.Some? && id !in m.snapshots && WellFormed(later)
    requires RewritesInto(m, q, p) && WellFormed(Delete(m, q, id)) && Extends(Delete(m, q, id), later)
    ensures later.current.Some?
    ensures ConflictingAdds(later, m.current.value, later.current.value, p) != []
  {
    hide Delete;
    hide MayAdd;
    hide RewritesInto;
    var deleted := Delete(m, q, id);
    DeleteExtends(m, q, id);
    RewritesIntoTouched(m, q, p);
    DeletedTip(m, q, id, p);
    if ConflictingAdds(later, m.current.value, later.current.value, p) == [] {
      NoConflictIsQuiet(later, m.current.value, later.current.value, p);
      ExtendsTransitive(m, deleted, later);
      QuietFirst(m, deleted, later, p);
      assert id != m.current.value;
      QuietOne(deleted, m.current.value, id, p);
      assert false;
    }
  }

  /**
   * Two deletes planned on one version both touch a data file, and the second still has a
   * row to remove in it after the first: whatever else has landed by then, the replay of
   * the second is refused, because the first wrote that row out again.
   */
  lemma SameFileDeletesConflict(
    m: Metadata, q: Predicate, id: nat, later: Metadata, p: Filter, f: DataFile, r: Row)
    requires WellFormed(m) && m.current.Some? && id !in m.snapshots && WellFormed(later)
    requires f in FilesOf(m) && Touched(f, q) && r in f.rows && p.matches(r) && !q.matches(r)
    requires WellFormed(Delete(m, q, id)) && Extends(Delete(m, q, id), later)
    ensures later.current.Some?
    ensures ConflictingAdds(later, m.current.value, later.current.value, p) != []
  {
    RewrittenHolds(FilesOf(m), q, f, r);
    RewriteConflicts(m, q, id, later, p);
  }
}
