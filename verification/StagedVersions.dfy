/**
 * What one operation writes to the warehouse and stages, without its helper functions: the
 * version's place, its history and its rows; and when it writes nothing at all.
 */
module StagedVersions {
  import opened Options
  import opened Tables
  import opened Catalogs
  import opened Errors
  import opened Icechunk
  import opened Intents
  import opened Transactions
  import opened Commits

  // -- deletes that match nothing ---------------------------------------------------------------

  lemma {:induction false} TouchedIff(rows: seq<Row>, p: Predicate)
    ensures |Survivors(rows, p)| <= |rows|
    ensures |Survivors(rows, p)| != |rows| <==> exists r | r in rows :: p.matches(r)
  {
    if rows != [] {
      TouchedIff(rows[1..], p);
      assert rows == [rows[0]] + rows[1..];
      if p.matches(rows[0]) {
        assert rows[0] in rows;
      }
      if r :| r in rows[1..] && p.matches(r) {
        assert r in rows;
      }
    }
  }

  lemma {:induction false} RowsIn(files: seq<DataFile>, r: Row)
    ensures r in RowsOf(files) <==> exists f | f in files :: r in f.rows
  {
    if files != [] {
      RowsIn(files[1..], r);
      assert files == [files[0]] + files[1..];
      if r in files[0].rows {
        assert files[0] in files;
      }
      if f :| f in files[1..] && r in f.rows {
        assert f in files;
      }
    }
  }

  /** Some data file is rewritten exactly when the table has a matching row. */
  lemma AnyTouchedIff(m: Metadata, p: Predicate)
    ensures AnyTouched(FilesOf(m), p) <==> exists r | r in Contents(m) :: p.matches(r)
  {
    var files := FilesOf(m);
    if AnyTouched(files, p) {
      var f :| f in files && Touched(f, p);
      TouchedIff(f.rows, p);
      var r :| r in f.rows && p.matches(r);
      RowsIn(files, r);
    }
    if r :| r in Contents(m) && p.matches(r) {
      RowsIn(files, r);
      var f :| f in files && r in f.rows;
      TouchedIff(f.rows, p);
    }
  }

  // -- copy-on-write, file by file ----------------------------------------------------------------

  ghost predicate Matched(f: DataFile, p: Predicate) {
    exists r | r in f.rows :: p.matches(r)
  }

  /** `g` holds, in some order, the rows of `f` that do not match; there are some. */
  ghost predicate LeftOver(f: DataFile, p: Predicate, g: DataFile) {
    g.rows != [] && forall r: Row :: multiset(g.rows)[r] == if p.matches(r) then 0 else multiset(f.rows)[r]
  }

  lemma {:induction false} FilesSplit(files: seq<DataFile>, p: Predicate, g: DataFile)
    ensures g in Untouched(files, p) <==> g in files && !Matched(g, p)
    ensures g in Rewritten(files, p) <==>
              g.rows != [] && exists f | f in files :: Matched(f, p) && g == DataFile(Survivors(f.rows, p))
  {
    if files != [] {
      FilesSplit(files[1..], p, g);
      HeadSplits(files, p);
      TouchedIff(files[0].rows, p);
      assert files == [files[0]] + files[1..];
      assert Matched(files[0], p) <==> Touched(files[0], p);
      if g in Head(files[0], p).1 {
        assert files[0] in files && Matched(files[0], p) && g == DataFile(Survivors(files[0].rows, p));
      }
    }
  }

  /**
   * A delete with something to remove makes one snapshot on the tip: files without a matching row
   * stay as they are, and what it adds are the others' remaining rows, a file for a file.
   */
  lemma DeleteFiles(m: Metadata, p: Predicate, id: nat)
    requires exists r | r in Contents(m) :: p.matches(r)
    ensures var m' := Delete(m, p, id);
            && m'.current == Some(id) && m'.snapshots.Keys == m.snapshots.Keys + {id}
            && var s := m'.snapshots[id];
            && s.parent == m.current
            && (forall g :: g in s.files <==> g in s.added || (g in FilesOf(m) && !Matched(g, p)))
            && (forall g | g in s.added :: exists f | f in FilesOf(m) :: Matched(f, p) && LeftOver(f, p, g))
            && (forall f | f in FilesOf(m) && Matched(f, p) ::
                  (exists r | r in f.rows :: !p.matches(r)) ==> exists g | g in s.added :: LeftOver(f, p, g))
  {
    var files := FilesOf(m);
    AnyTouchedIff(m, p);
    var s := Delete(m, p, id).snapshots[id];
    forall g
      ensures g in s.files <==> g in s.added || (g in files && !Matched(g, p))
    {
      FilesSplit(files, p, g);
    }
    forall g | g in s.added
      ensures exists f | f in files :: Matched(f, p) && LeftOver(f, p, g)
    {
      FilesSplit(files, p, g);
      var f :| f in files && Matched(f, p) && g == DataFile(Survivors(f.rows, p));
      SurvivorsLeftOver(f, p);
    }
    forall f | f in files && Matched(f, p) && exists r | r in f.rows :: !p.matches(r)
      ensures exists g | g in s.added :: LeftOver(f, p, g)
    {
      SurvivorsLeftOver(f, p);
      FilesSplit(files, p, DataFile(Survivors(f.rows, p)));
    }
  }

  lemma SurvivorsLeftOver(f: DataFile, p: Predicate)
    ensures Survivors(f.rows, p) != [] <==> exists r | r in f.rows :: !p.matches(r)
    ensures Survivors(f.rows, p) != [] ==> LeftOver(f, p, DataFile(Survivors(f.rows, p)))
  {
    var kept := Survivors(f.rows, p);
    forall r: Row
      ensures multiset(kept)[r] == if p.matches(r) then 0 else multiset(f.rows)[r]
    {
      SurvivorsCount(f.rows, p, r);
    }
    if kept != [] {
      assert multiset(kept)[kept[0]] > 0;
      assert kept[0] in f.rows;
    }
    if r :| r in f.rows && !p.matches(r) {
      assert multiset(kept)[r] > 0;
    }
  }

  /** An append makes one snapshot on the tip, with one file of its rows unless there are none. */
  lemma AppendFiles(m: Metadata, data: seq<Row>, id: nat)
    ensures var m' := Append(m, data, id);
            && m'.current == Some(id) && m'.snapshots.Keys == m.snapshots.Keys + {id}
            && var s := m'.snapshots[id];
            && s.parent == m.current && s.files == FilesOf(m) + s.added
            && |s.added| == (if data == [] then 0 else 1) && forall g | g in s.added :: g.rows == data
  {}

  /** Does the operation find nothing to do: its table is there already, or it deletes rows that are not? */
  ghost predicate Idle(st: Store, c: Catalog, intent: Intent)
    requires Resolves(st, CurrentPointers(c))
  {
    && intent.name in CurrentPointers(c)
    && (intent.CreateTable?
        || (intent.DeleteRows?
            && forall r | r in Contents(st.files[CurrentPointers(c)[intent.name]]) :: !intent.filter.matches(r)))
  }

  /** What writing a version leaves: one file more, at a new place, and that place staged. */
  ghost predicate WritesVersion(st: Store, c: Catalog, name: string, st': Store, c': Catalog, m: Metadata) {
    && name in c'.staged
    && var location := c'.staged[name];
    && location !in st.files && location.table == name && location.version == |m.log|
    && st'.files == st.files[location := m]
    && c'.staged.Keys == c.staged.Keys + {name}
    && (forall other | other in c.staged && other != name :: c'.staged[other] == c.staged[other])
    && c'.pointers == c.pointers && c'.writer == c.writer && c'.epoch == c.epoch
  }

  /** The version after `m`: the same table, its log extended, at most two snapshots on the old tip. */
  ghost predicate Succeeds(m: Metadata, at: Location, intent: Intent, m': Metadata)
    requires !intent.CreateTable?
  {
    && m'.location == m.location
    && m'.log == m.log + [at]
    && (forall id | id in m.snapshots :: id in m'.snapshots && m'.snapshots[id] == m.snapshots[id])
    && m'.current.Some? && m'.current.value in m'.snapshots && m'.current.value !in m.snapshots
    && (forall r: Row :: Contents(m')[r] == (if intent.Removes() && intent.filter.matches(r) then 0 else Contents(m)[r])
                                            + (if intent.DeleteRows? then 0 else multiset(intent.data)[r]))
  }

  lemma Replaces(c: Catalog, name: string, location: Location)
    ensures var c' := c.(staged := c.staged[name := location]);
            && c'.staged.Keys == c.staged.Keys + {name}
            && (forall other | other in c.staged && other != name :: c'.staged[other] == c.staged[other])
  {}

  lemma CreatesTable(st: Store, c: Catalog, intent: Intent)
    requires Valid(st, c) && intent.CreateTable? && intent.name !in CurrentPointers(c)
    ensures var a := Apply(st, c, intent);
            && a.error.None?
            && exists m ::
                 && WritesVersion(st, c, intent.name, a.store, a.catalog, m)
                 && m.location == intent.location && m.snapshots == map[] && m.current.None? && m.log == []
  {
    hide GoodStore;
    hide StagedWell;
    var m := NewTable(intent.location);
    Replaces(c, intent.name, FreshLocation(c, intent.name, m));
    assert WritesVersion(st, c, intent.name, Apply(st, c, intent).store, Apply(st, c, intent).catalog, m);
  }

  lemma EffectRows(rows: multiset<Row>, intent: Intent)
    requires !intent.CreateTable?
    ensures forall r: Row :: Effect(rows, intent)[r] == (if intent.Removes() && intent.filter.matches(r) then 0 else rows[r])
                                                       + (if intent.DeleteRows? then 0 else multiset(intent.data)[r])
  {}

  lemma RebuildSucceeds(m: Metadata, at: Location, intent: Intent, id: nat)
    requires WellFormed(m) && IdsBelow(m, id) && !intent.CreateTable? && MakesVersion(m, intent)
    ensures var rebuilt := Rebuild(m, intent, id); Succeeds(m, at, intent, rebuilt.(log := rebuilt.log + [at]))
  {
    hide Effect;
    hide Rebuild;
    hide MakesVersion;
    hide WellFormed;
    hide Ordered;
    hide IdsBelow;
    EffectRows(Contents(m), intent);
    var rebuilt := Rebuild(m, intent, id);
    RebuildContents(m, intent, id);
    RebuildExtends(m, intent, id);
    RebuildTip(m, intent, id);
    SameFiles(rebuilt, rebuilt.(log := rebuilt.log + [at]));
  }

  lemma SameFiles(m: Metadata, logged: Metadata)
    requires logged == m.(log := logged.log)
    ensures Contents(logged) == Contents(m)
  {}

  lemma RebuildTip(m: Metadata, intent: Intent, id: nat)
    requires IdsBelow(m, id) && !intent.CreateTable? && MakesVersion(m, intent)
    ensures var rebuilt := Rebuild(m, intent, id);
            rebuilt.current.Some? && rebuilt.current.value in rebuilt.snapshots && rebuilt.current.value !in m.snapshots
  {
    hide Rewritten;
    hide Survivors;
  }

  lemma BuildsVersion(st: Store, c: Catalog, intent: Intent)
    requires Valid(st, c) && !intent.CreateTable? && intent.name in CurrentPointers(c) && !Idle(st, c, intent)
    ensures var a := Apply(st, c, intent);
            && a.error.None?
            && exists m ::
                 && WritesVersion(st, c, intent.name, a.store, a.catalog, m)
                 && Succeeds(st.files[CurrentPointers(c)[intent.name]], CurrentPointers(c)[intent.name], intent, m)
  {
    hide GoodStore;
    hide StagedWell;
    hide Rebuild;
    hide Succeeds;
    var at := CurrentPointers(c)[intent.name];
    var base := st.files[at];
    AnyTouchedIff(base, if intent.Removes() then intent.filter else Predicate(r => true, f => true));
    BaseGood(st, at);
    RebuildSucceeds(base, at, intent, st.nextId);
    ApplyIsCommit(st, c, intent);
    var m := Logged(c, intent.name, Rebuild(base, intent, st.nextId));
    Replaces(c, intent.name, FreshLocation(c, intent.name, m));
    assert WritesVersion(st, c, intent.name, Apply(st, c, intent).store, Apply(st, c, intent).catalog, m);
  }

  lemma BaseGood(st: Store, at: Location)
    requires GoodStore(st) && at in st.files
    ensures WellFormed(st.files[at]) && IdsBelow(st.files[at], st.nextId)
  {}

  /**
   * Each operation by what it leaves: an error and nothing else when its table is missing;
   * nothing when there is nothing to do; or exactly one new version, staged under its name.
   */
  lemma EveryApply(st: Store, c: Catalog, intent: Intent)
    requires Valid(st, c)
    ensures var a, pointers := Apply(st, c, intent), CurrentPointers(c);
            if intent.name !in pointers && !intent.CreateTable? then a == Applied(st, c, Some(MissingTable(intent.name)))
            else if intent.name in pointers && Idle(st, c, intent) then a == Applied(st, c, None)
            else
              && a.error.None?
              && exists m ::
                   && WritesVersion(st, c, intent.name, a.store, a.catalog, m)
                   && if intent.CreateTable? then m == Metadata(intent.location, map[], None, [])
                      else Succeeds(st.files[pointers[intent.name]], pointers[intent.name], intent, m)
  {
    hide WritesVersion;
    hide Succeeds;
    if intent.name in CurrentPointers(c) && Idle(st, c, intent) {
      if intent.DeleteRows? {
        AnyTouchedIff(st.files[CurrentPointers(c)[intent.name]], intent.filter);
      }
    } else if intent.CreateTable? {
      CreatesTable(st, c, intent);
    } else if intent.name in CurrentPointers(c) {
      BuildsVersion(st, c, intent);
    }
  }

  // -- a commit with nothing to do ------------------------------------------------------------------

  lemma {:induction false} AllIdle(st: Store, c: Catalog, intents: seq<Intent>)
    requires Valid(st, c)
    requires forall i | 0 <= i < |intents| :: intents[i].name in CurrentPointers(c) && Idle(st, c, intents[i])
    ensures ApplyAll(st, c, intents) == Applied(st, c, None)
    decreases |intents|
  {
    hide Apply;
    hide Idle;
    if intents != [] {
      EveryApply(st, c, intents[0]);
      assert forall i | 0 <= i < |intents| - 1 :: intents[1..][i] == intents[i + 1];
      AllIdle(st, c, intents[1..]);
    }
  }

  /**
   * A transaction with no array changes, whose deletes match no row and whose tables are all
   * there already, is refused for making no changes, and the warehouse is as it was but for
   * what others wrote.
   */
  lemma NothingToDoIsRefused(w: World, tx: Tx, env: Env)
    requires Ready(w, tx) && ForeignTo(env, tx.catalog.writer) && tx.maxRetries >= 0
    requires tx.catalog.staged == map[] && !HasUncommittedChanges(tx.session)
    requires forall i | 0 <= i < |tx.intents| ::
               tx.intents[i].name in CurrentPointers(tx.catalog) && Idle(w.store, tx.catalog, tx.intents[i])
    ensures var run := Transactions.Committed(w, tx, env);
            run.outcome == Raised(MadeNoChanges) && run.world == LandAll(w, ArrivalsAt(env, 0))
  {
    hide Turn;
    hide Idle;
    hide LandAll;
    var noted := tx.(unmanaged := tx.catalog.staged.Keys);
    AllIdle(w.store, tx.catalog, tx.intents);
    var t := NextTurn(w, noted, 0, env);
    TurnSplits(w, noted, 0, env);
    FirstRefused(w, noted, env);
  }

  lemma FirstRefused(w: World, tx: Tx, env: Env)
    requires Ready(w, tx) && ForeignTo(env, tx.catalog.writer)
    requires AppliedWork(w, tx) == Applied(w.store, tx.catalog, None) && MakesNoChanges(tx, tx.catalog.staged)
    ensures Turn(w, tx, 0, env).outcome == Some(Raised(MadeNoChanges))
    ensures Turn(w, tx, 0, env).world == LandAll(w, ArrivalsAt(env, 0))
  {
    hide ApplyAll;
    hide Recover;
  }
}
