/**
 * Iceberg tables as PyIceberg leaves them in a metadata.json: data files, the
 * snapshot chain with its parent links, and the row-level effect of append,
 * copy-on-write delete and overwrite.
 */
module Tables {
  import opened Options

  /** A table row; `key` stands for the columns the store itself never inspects. */
  datatype Row = Row(id: string, arrayPath: string, key: int)

  datatype DataFile = DataFile(rows: seq<Row>)

  /** A row filter with the column-statistics test that judges whole files by it. */
  datatype Predicate = Predicate(matches: Row -> bool, mayMatch: DataFile -> bool)

  /** Statistics may over-approximate, but never miss a file that holds a matching row. */
  ghost predicate Sound(p: Predicate) {
    forall f: DataFile, r: Row :: r in f.rows && p.matches(r) ==> p.mayMatch(f)
  }

  type Filter = p: Predicate | Sound(p) witness Predicate(r => true, f => true)

  /** A uuid4, identified by who drew it, after how many rebases, and as which draw. */
  datatype Token = Token(writer: nat, epoch: nat, serial: nat)

  /** `{warehouse}/{table}/metadata/{version}-{token}.metadata.json` */
  datatype Location = Location(table: string, version: nat, token: Token)

  /** `files` is what the manifest list reaches; `added` are the entries this snapshot added. */
  datatype Snapshot = Snapshot(parent: Option<nat>, sequence: nat, added: seq<DataFile>, files: seq<DataFile>)

  datatype Metadata = Metadata(location: string, snapshots: map<nat, Snapshot>, current: Option<nat>, log: seq<Location>)

  // -- rows ------------------------------------------------------------------

  function RowsOf(files: seq<DataFile>): multiset<Row> {
    if files == [] then multiset{} else multiset(files[0].rows) + RowsOf(files[1..])
  }

  function FilesOf(m: Metadata): seq<DataFile> {
    if m.current.Some? && m.current.value in m.snapshots then m.snapshots[m.current.value].files else []
  }

  /** What a full scan of the table returns, order aside. */
  function Contents(m: Metadata): multiset<Row> {
    RowsOf(FilesOf(m))
  }

  lemma {:induction false} RowsOfConcat(a: seq<DataFile>, b: seq<DataFile>)
    ensures RowsOf(a + b) == RowsOf(a) + RowsOf(b)
  {
    if a == [] {
      assert a + b == b;
    } else {
      assert (a + b)[0] == a[0] && (a + b)[1..] == a[1..] + b;
      RowsOfConcat(a[1..], b);
    }
  }

  lemma RowsOfOne(f: DataFile)
    ensures RowsOf([f]) == multiset(f.rows)
  {
    assert [f][1..] == [];
  }

  lemma RowsOfAround(low: seq<DataFile>, f: DataFile, high: seq<DataFile>)
    ensures RowsOf(low + ([f] + high)) == RowsOf(low) + multiset(f.rows) + RowsOf(high)
  {
    RowsOfConcat(low, [f] + high);
    RowsOfConcat([f], high);
    RowsOfOne(f);
  }

  lemma BagOfAround(low: seq<DataFile>, f: DataFile, high: seq<DataFile>)
    ensures multiset(low + ([f] + high)) == multiset(low + high) + multiset{f}
  {
    assert multiset([f] + high) == multiset{f} + multiset(high);
  }

  lemma SplitAt(b: seq<DataFile>, i: nat)
    requires i < |b|
    ensures b == b[..i] + ([b[i]] + b[i + 1..])
  {}

  /** Taking one file out of a list takes its rows out of the bag. */
  lemma RowsOfPick(b: seq<DataFile>, low: seq<DataFile>, f: DataFile, high: seq<DataFile>)
    requires b == low + ([f] + high)
    ensures multiset(b) == multiset(low + high) + multiset{f}
    ensures RowsOf(b) == RowsOf(low + high) + multiset(f.rows)
  {
    RowsOfConcat(low, high);
    RowsOfAround(low, f, high);
    BagOfAround(low, f, high);
  }

  lemma CancelOne(a: multiset<DataFile>, b: multiset<DataFile>, f: DataFile)
    requires a + multiset{f} <= b + multiset{f}
    ensures a <= b
  {
    forall g: DataFile ensures a[g] <= b[g] {
      assert (a + multiset{f})[g] <= (b + multiset{f})[g];
    }
  }

  /** A smaller bag of files holds a smaller bag of rows. */
  lemma {:induction false} RowsOfMonotone(a: seq<DataFile>, b: seq<DataFile>)
    requires multiset(a) <= multiset(b)
    ensures RowsOf(a) <= RowsOf(b)
  {
    if a != [] {
      var f, tail := a[0], a[1..];
      assert f in b by { assert multiset(a)[f] > 0; }
      var i :| 0 <= i < |b| && b[i] == f;
      var rest := b[..i] + b[i + 1..];
      SplitAt(b, i);
      RowsOfPick(b, b[..i], f, b[i + 1..]);
      assert multiset(a) == multiset(tail) + multiset{f} by { assert a == [f] + tail; }
      CancelOne(multiset(tail), multiset(rest), f);
      RowsOfMonotone(tail, rest);
      BagAdd(RowsOf(tail), RowsOf(rest), multiset(f.rows));
    }
  }

  lemma BagAdd(a: multiset<Row>, b: multiset<Row>, c: multiset<Row>)
    requires a <= b
    ensures c + a <= b + c
  {}

  // -- deletes are copy-on-write ------------------------------------------------

  function Survivors(rows: seq<Row>, p: Predicate): seq<Row> {
    if rows == [] then []
    else (if p.matches(rows[0]) then [] else [rows[0]]) + Survivors(rows[1..], p)
  }

  /** Filtering the file's rows removes something. */
  predicate Touched(f: DataFile, p: Predicate) {
    |Survivors(f.rows, p)| != |f.rows|
  }

  predicate AnyTouched(files: seq<DataFile>, p: Predicate) {
    exists f | f in files :: Touched(f, p)
  }

  function Untouched(files: seq<DataFile>, p: Predicate): seq<DataFile> {
    if files == [] then []
    else (if Touched(files[0], p) then [] else [files[0]]) + Untouched(files[1..], p)
  }

  /** The surviving rows of each touched file, written out again unless none survive. */
  function Rewritten(files: seq<DataFile>, p: Predicate): seq<DataFile> {
    if files == [] then []
    else
      var rest := Rewritten(files[1..], p);
      var kept := Survivors(files[0].rows, p);
      if Touched(files[0], p) && kept != [] then [DataFile(kept)] + rest else rest
  }

  lemma {:induction false} SurvivorsAll(rows: seq<Row>, p: Predicate)
    ensures |Survivors(rows, p)| <= |rows|
    ensures |Survivors(rows, p)| == |rows| ==> Survivors(rows, p) == rows
  {
    if rows != [] {
      SurvivorsAll(rows[1..], p);
    }
  }

  lemma {:induction false} SurvivorsCount(rows: seq<Row>, p: Predicate, r: Row)
    ensures multiset(Survivors(rows, p))[r] == if p.matches(r) then 0 else multiset(rows)[r]
  {
    if rows != [] {
      SurvivorsCount(rows[1..], p, r);
      assert multiset(rows) == multiset{rows[0]} + multiset(rows[1..]) by { assert rows == [rows[0]] + rows[1..]; }
      assert multiset(Survivors(rows, p))
          == (if p.matches(rows[0]) then multiset{} else multiset{rows[0]}) + multiset(Survivors(rows[1..], p));
    }
  }

  /** One file's part of a delete: the untouched copy or the rewritten one. */
  function Head(f: DataFile, p: Predicate): (parts: (seq<DataFile>, seq<DataFile>)) {
    var kept := Survivors(f.rows, p);
    if !Touched(f, p) then ([f], []) else ([], if kept == [] then [] else [DataFile(kept)])
  }

  lemma HeadRows(f: DataFile, p: Predicate, r: Row)
    ensures RowsOf(Head(f, p).0)[r] + RowsOf(Head(f, p).1)[r] == if p.matches(r) then 0 else multiset(f.rows)[r]
  {
    SurvivorsAll(f.rows, p);
    SurvivorsCount(f.rows, p, r);
    RowsOfOne(f);
    RowsOfOne(DataFile(Survivors(f.rows, p)));
  }

  lemma HeadSplits(files: seq<DataFile>, p: Predicate)
    requires files != []
    ensures Untouched(files, p) == Head(files[0], p).0 + Untouched(files[1..], p)
    ensures Rewritten(files, p) == Head(files[0], p).1 + Rewritten(files[1..], p)
  {}

  /** A delete removes every matching row and no other. */
  lemma {:induction false} DeletedRows(files: seq<DataFile>, p: Predicate, r: Row)
    ensures RowsOf(Untouched(files, p))[r] + RowsOf(Rewritten(files, p))[r]
         == if p.matches(r) then 0 else RowsOf(files)[r]
  {
    if files != [] {
      var f, rest := files[0], files[1..];
      DeletedRows(rest, p, r);
      HeadRows(f, p, r);
      HeadSplits(files, p);
      RowsOfConcat(Head(f, p).0, Untouched(rest, p));
      RowsOfConcat(Head(f, p).1, Rewritten(rest, p));
    }
  }

  lemma {:induction false} UntouchedIsSubBag(files: seq<DataFile>, p: Predicate)
    ensures multiset(Untouched(files, p)) <= multiset(files)
    ensures !AnyTouched(files, p) ==> Untouched(files, p) == files && Rewritten(files, p) == []
  {
    if files != [] {
      UntouchedIsSubBag(files[1..], p);
      assert files == [files[0]] + files[1..];
      if !AnyTouched(files, p) {
        assert files[0] in files;
        assert forall f | f in files[1..] :: f in files;
      }
    }
  }

  /** A bag of rows with the matching ones taken out: what a delete means, with no files in sight. */
  ghost function Without(rows: multiset<Row>, p: Predicate): (left: multiset<Row>)
    ensures forall r :: left[r] == if p.matches(r) then 0 else rows[r]
    decreases |rows|
  {
    if rows == multiset{} then rows
    else
      var r :| r in rows;
      assert rows == rows[r := 0] + multiset{}[r := rows[r]];
      var rest := Without(rows[r := 0], p);
      if p.matches(r) then rest else rest[r := rows[r]]
  }

  // -- operations ------------------------------------------------------------

  function NewTable(location: string): Metadata {
    Metadata(location, map[], None, [])
  }

  function NextSequence(m: Metadata): nat {
    if m.current.Some? && m.current.value in m.snapshots then m.snapshots[m.current.value].sequence + 1 else 0
  }

  function AddSnapshot(m: Metadata, id: nat, added: seq<DataFile>, files: seq<DataFile>): Metadata {
    m.(snapshots := m.snapshots[id := Snapshot(m.current, NextSequence(m), added, files)], current := Some(id))
  }

  /** An append always makes a snapshot; an empty one adds no file to it. */
  function Append(m: Metadata, data: seq<Row>, id: nat): Metadata {
    var added := if data == [] then [] else [DataFile(data)];
    AddSnapshot(m, id, added, FilesOf(m) + added)
  }

  /** A delete that matches nothing makes no snapshot. */
  function Delete(m: Metadata, p: Predicate, id: nat): Metadata {
    var files := FilesOf(m);
    if AnyTouched(files, p)
    then AddSnapshot(m, id, Rewritten(files, p), Untouched(files, p) + Rewritten(files, p))
    else m
  }

  /** A delete followed by an append, in one metadata.json. */
  function Overwrite(m: Metadata, p: Predicate, data: seq<Row>, id: nat): Metadata {
    Append(Delete(m, p, id), data, id + 1)
  }

  lemma AppendContents(m: Metadata, data: seq<Row>, id: nat)
    ensures Contents(Append(m, data, id)) == Contents(m) + multiset(data)
  {
    var added := if data == [] then [] else [DataFile(data)];
    RowsOfConcat(FilesOf(m), added);
    assert [DataFile(data)][1..] == [];
  }

  lemma DeleteContents(m: Metadata, p: Predicate, id: nat)
    ensures Contents(Delete(m, p, id)) == Without(Contents(m), p)
  {
    var files := FilesOf(m);
    forall r: Row
      ensures Contents(Delete(m, p, id))[r] == Without(Contents(m), p)[r]
    {
      DeletedRows(files, p, r);
      RowsOfConcat(Untouched(files, p), Rewritten(files, p));
      if !AnyTouched(files, p) {
        UntouchedIsSubBag(files, p);
        assert files + [] == files;
      }
    }
  }

  // -- the snapshot chain ------------------------------------------------------

  /** Sequence numbers grow along parent links (Apache Iceberg Table Spec, "Snapshots"). */
  ghost predicate Ordered(m: Metadata) {
    forall id | id in m.snapshots ::
      var s := m.snapshots[id];
      s.parent.Some? && s.parent.value in m.snapshots ==> m.snapshots[s.parent.value].sequence < s.sequence
  }

  /** `a` is `b` or one of the snapshots below it. */
  ghost predicate Ancestor(m: Metadata, a: nat, b: nat)
    requires Ordered(m) && b in m.snapshots
    decreases m.snapshots[b].sequence
  {
    a == b ||
    (var parent := m.snapshots[b].parent;
     parent.Some? && parent.value in m.snapshots && Ancestor(m, a, parent.value))
  }

  /** The files a snapshot inherits from its parent. */
  function ParentFiles(m: Metadata, s: Snapshot): seq<DataFile> {
    if s.parent.Some? && s.parent.value in m.snapshots then m.snapshots[s.parent.value].files else []
  }

  /** What every metadata.json written here satisfies: no dangling link, no file from nowhere. */
  ghost predicate WellFormed(m: Metadata) {
    && Ordered(m)
    && (m.current.Some? ==> m.current.value in m.snapshots)
    && (forall id | id in m.snapshots ::
          var s := m.snapshots[id];
          && (s.parent.Some? ==> s.parent.value in m.snapshots)
          && multiset(s.files) <= multiset(ParentFiles(m, s) + s.added))
  }

  /** `m'` is a later version of `m`: same table, and the old tip lies on the new tip's chain. */
  ghost predicate Extends(m: Metadata, m': Metadata)
    requires WellFormed(m')
  {
    && m'.location == m.location
    && (forall id | id in m.snapshots :: id in m'.snapshots && m'.snapshots[id] == m.snapshots[id])
    && (m.current.Some? ==> m'.current.Some? && Ancestor(m', m.current.value, m'.current.value))
  }

  ghost predicate IdsBelow(m: Metadata, bound: nat) {
    forall id | id in m.snapshots :: id < bound
  }

  lemma {:induction false} AncestorTransitive(m: Metadata, a: nat, b: nat, c: nat)
    requires Ordered(m) && b in m.snapshots && c in m.snapshots
    requires Ancestor(m, a, b) && Ancestor(m, b, c)
    ensures Ancestor(m, a, c)
    decreases m.snapshots[c].sequence
  {
    if b != c {
      AncestorTransitive(m, a, b, m.snapshots[c].parent.value);
    }
  }

  /** Adding snapshots leaves the chains that were there alone. */
  lemma {:induction false} AncestorKept(m: Metadata, m': Metadata, a: nat, b: nat)
    requires WellFormed(m) && WellFormed(m') && b in m.snapshots
    requires forall id | id in m.snapshots :: id in m'.snapshots && m'.snapshots[id] == m.snapshots[id]
    requires Ancestor(m, a, b)
    ensures Ancestor(m', a, b)
    decreases m.snapshots[b].sequence
  {
    if a != b {
      AncestorKept(m, m', a, m.snapshots[b].parent.value);
    }
  }

  lemma ExtendsReflexive(m: Metadata)
    requires WellFormed(m)
    ensures Extends(m, m)
  {}

  lemma ExtendsTransitive(m0: Metadata, m1: Metadata, m2: Metadata)
    requires WellFormed(m1) && WellFormed(m2)
    requires Extends(m0, m1) && Extends(m1, m2)
    ensures Extends(m0, m2)
  {
    if m0.current.Some? {
      AncestorKept(m1, m2, m0.current.value, m1.current.value);
      AncestorTransitive(m2, m0.current.value, m1.current.value, m2.current.value);
    }
  }

  /** At most one snapshot more, numbered `id`, and nothing else about the version changed. */
  ghost predicate Added(m: Metadata, m': Metadata, id: nat) {
    m'.log == m.log && m'.snapshots.Keys <= m.snapshots.Keys + {id}
  }

  lemma AddSnapshotOrdered(m: Metadata, id: nat, added: seq<DataFile>, files: seq<DataFile>)
    requires WellFormed(m) && id !in m.snapshots
    ensures var m' := AddSnapshot(m, id, added, files);
            && Ordered(m')
            && ParentFiles(m', m'.snapshots[id]) == FilesOf(m)
            && (forall k | k in m.snapshots ::
                  m'.snapshots[k] == m.snapshots[k] && ParentFiles(m', m'.snapshots[k]) == ParentFiles(m, m.snapshots[k]))
  {}

  lemma AddSnapshotExtends(m: Metadata, id: nat, added: seq<DataFile>, files: seq<DataFile>)
    requires WellFormed(m) && id !in m.snapshots
    requires multiset(files) <= multiset(FilesOf(m) + added)
    ensures var m' := AddSnapshot(m, id, added, files); WellFormed(m') && Extends(m, m') && Added(m, m', id)
  {
    var m' := AddSnapshot(m, id, added, files);
    AddSnapshotOrdered(m, id, added, files);
    if m.current.Some? {
      assert Ancestor(m', m.current.value, m.current.value);
    }
  }

  lemma AppendExtends(m: Metadata, data: seq<Row>, id: nat)
    requires WellFormed(m) && id !in m.snapshots
    ensures var m' := Append(m, data, id); WellFormed(m') && Extends(m, m') && Added(m, m', id)
  {
    var added := if data == [] then [] else [DataFile(data)];
    AddSnapshotExtends(m, id, added, FilesOf(m) + added);
  }

  lemma DeleteExtends(m: Metadata, p: Predicate, id: nat)
    requires WellFormed(m) && id !in m.snapshots
    ensures var m' := Delete(m, p, id); WellFormed(m') && Extends(m, m') && Added(m, m', id)
  {
    var files := FilesOf(m);
    UntouchedIsSubBag(files, p);
    if AnyTouched(files, p) {
      AddSnapshotExtends(m, id, Rewritten(files, p), Untouched(files, p) + Rewritten(files, p));
    }
  }

  lemma OverwriteExtends(m: Metadata, p: Predicate, data: seq<Row>, id: nat)
    requires WellFormed(m) && id !in m.snapshots && id + 1 !in m.snapshots
    ensures var m' := Overwrite(m, p, data, id);
            WellFormed(m') && Extends(m, m') && m'.log == m.log && m'.snapshots.Keys <= m.snapshots.Keys + {id, id + 1}
  {
    var deleted := Delete(m, p, id);
    DeleteExtends(m, p, id);
    AppendExtends(deleted, data, id + 1);
    ExtendsTransitive(m, deleted, Append(deleted, data, id + 1));
  }
}
