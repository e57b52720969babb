/** The table operations a transaction records, how they are applied, and when a replay is safe. */
module Intents {
  import opened Options
  import opened Tables
  import opened Validation
  import opened Catalogs
  import opened Errors

  datatype Intent =
    | CreateTable(name: string, location: string)
    | AppendRows(name: string, data: seq<Row>)
    | DeleteRows(name: string, filter: Filter)
    | OverwriteRows(name: string, data: seq<Row>, filter: Filter)
  {
    predicate Removes() {
      DeleteRows? || OverwriteRows?
    }
  }

  // -- one table -----------------------------------------------------------------

  /** Does the operation make a snapshot at all? */
  predicate MakesVersion(m: Metadata, intent: Intent)
    requires !intent.CreateTable?
  {
    intent.DeleteRows? ==> AnyTouched(FilesOf(m), intent.filter)
  }

  /** The table's metadata after the operation, its snapshots numbered from `id`. */
  function Rebuild(m: Metadata, intent: Intent, id: nat): Metadata {
    match intent
    case CreateTable(_, _) => m
    case AppendRows(_, data) => Append(m, data, id)
    case DeleteRows(_, p) => Delete(m, p, id)
    case OverwriteRows(_, data, p) => Overwrite(m, p, data, id)
  }

  /** What the operation means for the rows alone. */
  ghost function Effect(rows: multiset<Row>, intent: Intent): multiset<Row> {
    match intent
    case CreateTable(_, _) => rows
    case AppendRows(_, data) => rows + multiset(data)
    case DeleteRows(_, p) => Without(rows, p)
    case OverwriteRows(_, data, p) => Without(rows, p) + multiset(data)
  }

  lemma RebuildContents(m: Metadata, intent: Intent, id: nat)
    ensures Contents(Rebuild(m, intent, id)) == Effect(Contents(m), intent)
  {
    match intent
    case CreateTable(_, _) =>
    case AppendRows(_, data) => AppendContents(m, data, id);
    case DeleteRows(_, p) => DeleteContents(m, p, id);
    case OverwriteRows(_, data, p) =>
      DeleteContents(m, p, id);
      AppendContents(Delete(m, p, id), data, id + 1);
  }

  lemma BelowAfter(m: Metadata, m': Metadata, id: nat)
    requires IdsBelow(m, id) && m'.snapshots.Keys <= m.snapshots.Keys + {id, id + 1}
    ensures IdsBelow(m', id + 2)
  {
    forall k | k in m'.snapshots ensures k < id + 2 {
      assert k in m.snapshots.Keys + {id, id + 1};
    }
  }

  /** The next version of the same table, its log not yet extended. */
  ghost predicate Follows(m: Metadata, m': Metadata, id: nat) {
    WellFormed(m') && Extends(m, m') && IdsBelow(m', id + 2) && m'.log == m.log
  }

  lemma AppendFollows(m: Metadata, data: seq<Row>, id: nat)
    requires WellFormed(m) && IdsBelow(m, id)
    ensures Follows(m, Append(m, data, id), id)
  {
    AppendExtends(m, data, id);
    BelowAfter(m, Append(m, data, id), id);
  }

  lemma DeleteFollows(m: Metadata, p: Predicate, id: nat)
    requires WellFormed(m) && IdsBelow(m, id)
    ensures Follows(m, Delete(m, p, id), id)
  {
    DeleteExtends(m, p, id);
    BelowAfter(m, Delete(m, p, id), id);
  }

  lemma OverwriteFollows(m: Metadata, p: Predicate, data: seq<Row>, id: nat)
    requires WellFormed(m) && IdsBelow(m, id)
    ensures Follows(m, Overwrite(m, p, data, id), id)
  {
    OverwriteExtends(m, p, data, id);
    BelowAfter(m, Overwrite(m, p, data, id), id);
  }

  lemma RebuildExtends(m: Metadata, intent: Intent, id: nat)
    requires WellFormed(m) && IdsBelow(m, id)
    ensures Follows(m, Rebuild(m, intent, id), id)
  {
    match intent
    case CreateTable(_, _) => ExtendsReflexive(m);
    case AppendRows(_, data) => AppendFollows(m, data, id);
    case DeleteRows(_, p) => DeleteFollows(m, p, id);
    case OverwriteRows(_, data, p) => OverwriteFollows(m, p, data, id);
  }

  // -- apply -----------------------------------------------------------------------

  datatype Applied = Applied(store: Store, catalog: Catalog, error: Option<Error>)

  function Apply(st: Store, c: Catalog, intent: Intent): Applied {
    if intent.CreateTable? then
      if intent.name in CurrentPointers(c) then Applied(st, c, None)
      else
        var (st', c') := Stage(st, c, intent.name, NewTable(intent.location));
        Applied(st', c', None)
    else
      match Load(st, c, intent.name)
      case NoSuchTable => Applied(st, c, Some(MissingTable(intent.name)))
      case MissingFile => Applied(st, c, Some(MissingMetadata(intent.name)))
      case Loaded(location, m) =>
        if !MakesVersion(m, intent) then Applied(st, c, None)
        else
          var rebuilt := Rebuild(m, intent, st.nextId);
          var (st', c') := Stage(st.(nextId := st.nextId + 2), c, intent.name, rebuilt.(log := rebuilt.log + [location]));
          Applied(st', c', None)
  }

  /** Apply in order, stopping at the first error; what was staged before it stays staged. */
  function ApplyAll(st: Store, c: Catalog, intents: seq<Intent>): Applied
    decreases |intents|
  {
    if intents == [] then Applied(st, c, None)
    else
      var first := Apply(st, c, intents[0]);
      if first.error.Some? then first else ApplyAll(first.store, first.catalog, intents[1..])
  }

  /** `intent.apply(catalog)` on the catalog object. */
  method ApplyTo(catalog: IcechunkCatalog, intent: Intent) returns (error: Option<Error>)
    requires !catalog.readOnly
    modifies catalog, catalog.warehouse
    ensures Applied(catalog.warehouse.Value(), catalog.Value(), error)
         == Apply(old(catalog.warehouse.Value()), old(catalog.Value()), intent)
  {
    if intent.CreateTable? {
      if !catalog.TableExists(intent.name) {
        var _ := catalog.CreateTable(intent.name, intent.location);
      }
      return None;
    }
    var loaded := catalog.LoadTable(intent.name);
    match loaded
    case NoSuchTable => return Some(MissingTable(intent.name));
    case MissingFile => return Some(MissingMetadata(intent.name));
    case Loaded(location, m) =>
      if MakesVersion(m, intent) {
        var id := catalog.warehouse.TakeIds();
        var _ := catalog.CommitTable(intent.name, m, m.current, base => Rebuild(base, intent, id));
      }
      return None;
  }

  // -- what applying means ------------------------------------------------------------

  type TableRows = map<string, multiset<Row>>

  /** One operation on the rows of all tables; None when its table does not exist. */
  ghost function Perform(tables: TableRows, intent: Intent): Option<TableRows> {
    if intent.CreateTable? then
      Some(if intent.name in tables then tables else tables[intent.name := multiset{}])
    else if intent.name !in tables then None
    else Some(tables[intent.name := Effect(tables[intent.name], intent)])
  }

  ghost function PerformAll(tables: TableRows, intents: seq<Intent>): Option<TableRows>
    decreases |intents|
  {
    if intents == [] then Some(tables)
    else
      match Perform(tables, intents[0])
      case None => None
      case Some(next) => PerformAll(next, intents[1..])
  }

  lemma {:induction false} PerformAllAppend(tables: TableRows, intents: seq<Intent>, last: Intent)
    ensures PerformAll(tables, intents + [last])
         == match PerformAll(tables, intents) case None => None case Some(t) => Perform(t, last)
    decreases |intents|
  {
    if intents == [] {
      assert intents + [last] == [last] && [last][1..] == [];
      assert Perform(tables, last).Some? ==> PerformAll(Perform(tables, last).value, []) == Perform(tables, last);
    } else {
      assert (intents + [last])[0] == intents[0] && (intents + [last])[1..] == intents[1..] + [last];
      match Perform(tables, intents[0])
      case None =>
      case Some(next) => PerformAllAppend(next, intents[1..], last);
    }
  }

  /** What holds of the store and the catalog after any number of applied operations. */
  ghost predicate Continues(st: Store, c: Catalog, st': Store, c': Catalog) {
    && Valid(st', c')
    && GrowsBy(st, st', c.writer)
    && c'.pointers == c.pointers && c'.writer == c.writer && c'.epoch == c.epoch
    && c.staged.Keys <= c'.staged.Keys
  }

  lemma IdsBumped(st: Store, c: Catalog)
    requires Valid(st, c)
    ensures Valid(st.(nextId := st.nextId + 2), c)
  {
    var st' := st.(nextId := st.nextId + 2);
    forall name | name in c.staged ensures StagedWell(st', c, name) {
      assert StagedWell(st, c, name);
    }
  }

  /** The version `commit_table` writes for `m`, which was built on what `name` resolves to. */
  function Logged(c: Catalog, name: string, m: Metadata): Metadata
    requires name in CurrentPointers(c)
  {
    m.(log := m.log + [CurrentPointers(c)[name]])
  }

  lemma LogAdded(m: Metadata, rebuilt: Metadata, logged: Metadata)
    requires WellFormed(rebuilt) && Extends(m, rebuilt)
    requires logged == rebuilt.(log := logged.log)
    ensures WellFormed(logged) && Extends(m, logged) && Contents(logged) == Contents(rebuilt)
  {
    forall id | id in rebuilt.snapshots
      ensures ParentFiles(logged, logged.snapshots[id]) == ParentFiles(rebuilt, rebuilt.snapshots[id])
    {}
    if m.current.Some? {
      AncestorKept(rebuilt, logged, m.current.value, rebuilt.current.value);
    }
  }

  lemma CommitVersion(st: Store, c: Catalog, name: string, m: Metadata)
    requires Valid(st, c) && name in CurrentPointers(c)
    requires WellFormed(m) && IdsBelow(m, st.nextId)
    requires Extends(st.files[CurrentPointers(c)[name]], m) && m.log == st.files[CurrentPointers(c)[name]].log
    ensures var (st', c') := Stage(st, c, name, Logged(c, name, m));
            && Continues(st, c, st', c')
            && View(st', CurrentPointers(c')) == View(st, CurrentPointers(c))[name := Contents(m)]
  {
    var logged := Logged(c, name, m);
    LogAdded(st.files[CurrentPointers(c)[name]], m, logged);
    StageNextValid(st, c, name, logged);
  }

  /** The same after drawing two ids. */
  lemma CommitBumped(st: Store, c: Catalog, name: string, m: Metadata)
    requires Valid(st, c) && name in CurrentPointers(c)
    requires WellFormed(m) && IdsBelow(m, st.nextId + 2)
    requires Extends(st.files[CurrentPointers(c)[name]], m) && m.log == st.files[CurrentPointers(c)[name]].log
    ensures var (st', c') := Stage(st.(nextId := st.nextId + 2), c, name, Logged(c, name, m));
            && Continues(st, c, st', c')
            && View(st', CurrentPointers(c')) == View(st, CurrentPointers(c))[name := Contents(m)]
  {
    var bumped := st.(nextId := st.nextId + 2);
    IdsBumped(st, c);
    BumpedView(st, CurrentPointers(c));
    CommitVersion(bumped, c, name, m);
    var (st', c') := Stage(bumped, c, name, Logged(c, name, m));
    ContinuesUnbumped(st, c, st', c');
  }

  lemma BumpedView(st: Store, pointers: Pointers)
    requires Resolves(st, pointers)
    ensures View(st.(nextId := st.nextId + 2), pointers) == View(st, pointers)
  {}

  lemma ContinuesUnbumped(st: Store, c: Catalog, st': Store, c': Catalog)
    requires Continues(st.(nextId := st.nextId + 2), c, st', c')
    ensures Continues(st, c, st', c')
  {}

  lemma ApplyIsCommit(st: Store, c: Catalog, intent: Intent)
    requires !intent.CreateTable? && intent.name in CurrentPointers(c) && CurrentPointers(c)[intent.name] in st.files
    requires MakesVersion(st.files[CurrentPointers(c)[intent.name]], intent)
    ensures var m := st.files[CurrentPointers(c)[intent.name]];
            var (st', c') := Stage(st.(nextId := st.nextId + 2), c, intent.name,
                                   Logged(c, intent.name, Rebuild(m, intent, st.nextId)));
            Apply(st, c, intent) == Applied(st', c', None)
  {}

  lemma ApplyVersion(st: Store, c: Catalog, intent: Intent)
    requires Valid(st, c) && !intent.CreateTable? && intent.name in CurrentPointers(c)
    requires MakesVersion(st.files[CurrentPointers(c)[intent.name]], intent)
    ensures var a := Apply(st, c, intent);
            && a.error.None?
            && Continues(st, c, a.store, a.catalog)
            && Perform(View(st, CurrentPointers(c)), intent) == Some(View(a.store, CurrentPointers(a.catalog)))
  {
    var m := st.files[CurrentPointers(c)[intent.name]];
    RebuildContents(m, intent, st.nextId);
    RebuildExtends(m, intent, st.nextId);
    CommitBumped(st, c, intent.name, Rebuild(m, intent, st.nextId));
    ApplyIsCommit(st, c, intent);
  }

  /** An operation that makes no version changes no rows. */
  lemma NoVersionNoEffect(st: Store, c: Catalog, intent: Intent)
    requires Valid(st, c) && !intent.CreateTable? && intent.name in CurrentPointers(c)
    requires !MakesVersion(st.files[CurrentPointers(c)[intent.name]], intent)
    ensures var before := View(st, CurrentPointers(c));
            before[intent.name := Effect(before[intent.name], intent)] == before
  {
    RebuildContents(st.files[CurrentPointers(c)[intent.name]], intent, 0);
  }

  lemma ApplyCreate(st: Store, c: Catalog, intent: Intent)
    requires Valid(st, c) && intent.CreateTable?
    ensures var a := Apply(st, c, intent);
            && a.error.None?
            && Continues(st, c, a.store, a.catalog)
            && Perform(View(st, CurrentPointers(c)), intent) == Some(View(a.store, CurrentPointers(a.catalog)))
  {
    if intent.name !in CurrentPointers(c) {
      StageNewValid(st, c, intent.name, NewTable(intent.location));
      assert Contents(NewTable(intent.location)) == multiset{};
    }
  }

  /** Applying an intent does to the tables exactly what the operation means, or fails and does nothing. */
  lemma ApplyRefines(st: Store, c: Catalog, intent: Intent)
    requires Valid(st, c)
    ensures var a := Apply(st, c, intent);
            var before := View(st, CurrentPointers(c));
            && Continues(st, c, a.store, a.catalog)
            && (match Perform(before, intent)
                case None => a == Applied(st, c, Some(MissingTable(intent.name)))
                case Some(after) => a.error.None? && View(a.store, CurrentPointers(a.catalog)) == after)
  {
    if intent.CreateTable? {
      ApplyCreate(st, c, intent);
    } else if intent.name in CurrentPointers(c) {
      if MakesVersion(st.files[CurrentPointers(c)[intent.name]], intent) {
        ApplyVersion(st, c, intent);
      } else {
        NoVersionNoEffect(st, c, intent);
      }
    }
  }

  // -- a list of intents ----------------------------------------------------------------

  /** Does every operation find its table, given the names that exist at the start? */
  predicate Appliable(intents: seq<Intent>, names: set<string>) {
    intents == [] ||
    ((intents[0].CreateTable? || intents[0].name in names) && Appliable(intents[1..], names + {intents[0].name}))
  }

  /** The first operation whose table does not exist when its turn comes. */
  function FirstMissing(intents: seq<Intent>, names: set<string>): Option<nat> {
    if intents == [] then None
    else if !intents[0].CreateTable? && intents[0].name !in names then Some(0)
    else
      match FirstMissing(intents[1..], names + {intents[0].name})
      case None => None
      case Some(i) => Some(i + 1)
  }

  /** None exactly when all are appliable; otherwise no earlier operation names the missing table. */
  lemma {:induction false} FirstMissingMeans(intents: seq<Intent>, names: set<string>)
    ensures FirstMissing(intents, names).None? <==> Appliable(intents, names)
    ensures FirstMissing(intents, names).Some? ==>
              var i := FirstMissing(intents, names).value;
              && i < |intents| && !intents[i].CreateTable? && intents[i].name !in names
              && (forall j | 0 <= j < i :: intents[j].name != intents[i].name)
              && Appliable(intents[..i], names)
  {
    if intents != [] && (intents[0].CreateTable? || intents[0].name in names) {
      FirstMissingMeans(intents[1..], names + {intents[0].name});
      if FirstMissing(intents, names).Some? {
        var i := FirstMissing(intents, names).value;
        assert intents[..i][1..] == intents[1..][..i - 1];
        assert intents[1..][i - 1] == intents[i];
        forall j | 0 <= j < i ensures intents[j].name != intents[i].name {
          assert j > 0 ==> intents[1..][j - 1] == intents[j];
        }
      }
    }
  }

  lemma {:induction false} AppliableIsPerformable(tables: TableRows, intents: seq<Intent>)
    ensures Appliable(intents, tables.Keys) <==> PerformAll(tables, intents).Some?
    decreases |intents|
  {
    if intents != [] && Perform(tables, intents[0]).Some? {
      var next := Perform(tables, intents[0]).value;
      assert next.Keys == tables.Keys + {intents[0].name};
      AppliableIsPerformable(next, intents[1..]);
    }
  }

  lemma {:induction false} AppliableMonotone(intents: seq<Intent>, names: set<string>, more: set<string>)
    requires Appliable(intents, names) && names <= more
    ensures Appliable(intents, more)
  {
    if intents != [] {
      AppliableMonotone(intents[1..], names + {intents[0].name}, more + {intents[0].name});
    }
  }

  lemma ContinuesTransitive(st0: Store, c0: Catalog, st1: Store, c1: Catalog, st2: Store, c2: Catalog)
    requires Continues(st0, c0, st1, c1) && Continues(st1, c1, st2, c2)
    ensures Continues(st0, c0, st2, c2)
  {}

  lemma ApplyNames(st: Store, c: Catalog, intent: Intent)
    requires Resolves(st, CurrentPointers(c))
    ensures var a := Apply(st, c, intent);
            && (a.error.None? <==> intent.CreateTable? || intent.name in CurrentPointers(c))
            && (a.error.Some? ==> a.error.value.MissingTable?)
            && (a.error.None? ==> CurrentPointers(a.catalog).Keys == CurrentPointers(c).Keys + {intent.name})
  {
    if !intent.CreateTable? && intent.name in CurrentPointers(c) {
      if MakesVersion(st.files[CurrentPointers(c)[intent.name]], intent) {
        ApplyIsCommit(st, c, intent);
      }
    }
  }

  /** A list of intents fails exactly when some operation's table is missing, and keeps the catalog valid. */
  lemma {:induction false} ApplyAllContinues(st: Store, c: Catalog, intents: seq<Intent>)
    requires Valid(st, c)
    ensures var a := ApplyAll(st, c, intents);
            && Continues(st, c, a.store, a.catalog)
            && (a.error.None? <==> Appliable(intents, CurrentPointers(c).Keys))
            && (a.error.Some? ==> a.error.value.MissingTable?)
    decreases |intents|
  {
    if intents != [] {
      var first := Apply(st, c, intents[0]);
      ApplyRefines(st, c, intents[0]);
      ApplyNames(st, c, intents[0]);
      if first.error.None? {
        ApplyAllContinues(first.store, first.catalog, intents[1..]);
        var a := ApplyAll(first.store, first.catalog, intents[1..]);
        ContinuesTransitive(st, c, first.store, first.catalog, a.store, a.catalog);
      }
    }
  }

  /** The error a list of intents fails with. */
  function MissingError(intents: seq<Intent>, names: set<string>): Option<Error> {
    match FirstMissing(intents, names)
    case None => None
    case Some(i) => if i < |intents| then Some(MissingTable(intents[i].name)) else None
  }

  lemma ApplyError(st: Store, c: Catalog, intent: Intent)
    requires Resolves(st, CurrentPointers(c))
    ensures Apply(st, c, intent).error
         == if !intent.CreateTable? && intent.name !in CurrentPointers(c) then Some(MissingTable(intent.name)) else None
  {
    hide Rebuild;
    hide MakesVersion;
  }

  lemma MissingCons(intents: seq<Intent>, names: set<string>)
    requires intents != []
    ensures MissingError(intents, names)
         == if !intents[0].CreateTable? && intents[0].name !in names then Some(MissingTable(intents[0].name))
            else MissingError(intents[1..], names + {intents[0].name})
  {}

  /** Applying names the first table that is missing. */
  lemma {:induction false} ApplyAllError(st: Store, c: Catalog, intents: seq<Intent>)
    requires Valid(st, c)
    ensures ApplyAll(st, c, intents).error == MissingError(intents, CurrentPointers(c).Keys)
    decreases |intents|
  {
    if intents != [] {
      var first := Apply(st, c, intents[0]);
      ApplyRefines(st, c, intents[0]);
      ApplyNames(st, c, intents[0]);
      ApplyError(st, c, intents[0]);
      MissingCons(intents, CurrentPointers(c).Keys);
      hide *;
      AllErrorCons(st, c, intents);
      if first.error.None? {
        ApplyAllError(first.store, first.catalog, intents[1..]);
      }
    }
  }

  lemma AllErrorCons(st: Store, c: Catalog, intents: seq<Intent>)
    requires intents != []
    ensures var first := Apply(st, c, intents[0]);
            ApplyAll(st, c, intents).error
            == if first.error.Some? then first.error else ApplyAll(first.store, first.catalog, intents[1..]).error
  {
    hide Apply;
  }

  /** A whole list of intents refines the list of their meanings. */
  lemma {:induction false} ApplyAllRefines(st: Store, c: Catalog, intents: seq<Intent>)
    requires Valid(st, c) && ApplyAll(st, c, intents).error.None?
    ensures var a := ApplyAll(st, c, intents);
            && Valid(a.store, a.catalog)
            && PerformAll(View(st, CurrentPointers(c)), intents) == Some(View(a.store, CurrentPointers(a.catalog)))
    decreases |intents|
  {
    if intents != [] {
      var first := Apply(st, c, intents[0]);
      ApplyRefines(st, c, intents[0]);
      ApplyAllRefines(first.store, first.catalog, intents[1..]);
    }
  }

  // -- when a replay is safe ----------------------------------------------------------------

  /** Refuse a removal on the version `tip` points at unless every row it would match was in the base. */
  function ValidateRemoval(st: Store, tip: Pointers, name: string, p: Predicate, base: Option<nat>): Option<Error>
    requires GoodStore(st)
  {
    if name !in tip then None
    else if tip[name] !in st.files then Some(MissingMetadata(name))
    else
      var m := st.files[tip[name]];
      if m.current.None? then None
      else if base.None? then Some(TableConflict(name, p, [m.current.value]))
      else
        var ids := ConflictingAdds(m, base.value, m.current.value, p);
        if ids != [] then Some(TableConflict(name, p, ids)) else None
  }

  function Validate(st: Store, tip: Pointers, intent: Intent, base: Option<nat>): Option<Error>
    requires GoodStore(st)
  {
    if intent.Removes() then ValidateRemoval(st, tip, intent.name, intent.filter, base) else None
  }

  function Get(bases: map<string, Option<nat>>, name: string): Option<nat> {
    if name in bases then bases[name] else None
  }

  /** The first intent that refuses decides. */
  function ValidateAll(st: Store, tip: Pointers, intents: seq<Intent>, bases: map<string, Option<nat>>): Option<Error>
    requires GoodStore(st)
  {
    if intents == [] then None
    else
      var first := Validate(st, tip, intents[0], Get(bases, intents[0].name));
      if first.Some? then first else ValidateAll(st, tip, intents[1..], bases)
  }

  lemma {:induction false} ValidatedEach(st: Store, tip: Pointers, intents: seq<Intent>, bases: map<string, Option<nat>>, i: nat)
    requires GoodStore(st) && i < |intents| && ValidateAll(st, tip, intents, bases).None?
    ensures Validate(st, tip, intents[i], Get(bases, intents[i].name)).None?
  {
    if i > 0 {
      ValidatedEach(st, tip, intents[1..], bases, i - 1);
    }
  }

  /** Intent `i` is the first that refuses, with this error. */
  ghost predicate RefusesFirst(st: Store, tip: Pointers, intents: seq<Intent>, bases: map<string, Option<nat>>, i: nat, error: Error) {
    && GoodStore(st) && i < |intents| && intents[i].Removes()
    && ValidateRemoval(st, tip, intents[i].name, intents[i].filter, Get(bases, intents[i].name)) == Some(error)
    && (forall j | 0 <= j < i :: Validate(st, tip, intents[j], Get(bases, intents[j].name)).None?)
  }

  lemma {:induction false} SomeoneRefuses(st: Store, tip: Pointers, intents: seq<Intent>, bases: map<string, Option<nat>>)
    returns (i: nat)
    requires GoodStore(st) && ValidateAll(st, tip, intents, bases).Some?
    ensures RefusesFirst(st, tip, intents, bases, i, ValidateAll(st, tip, intents, bases).value)
  {
    hide ValidateRemoval;
    if Validate(st, tip, intents[0], Get(bases, intents[0].name)).Some? {
      i := 0;
    } else {
      var k := SomeoneRefuses(st, tip, intents[1..], bases);
      i := k + 1;
      forall j | 0 <= j < i ensures Validate(st, tip, intents[j], Get(bases, intents[j].name)).None? {
        assert j > 0 ==> intents[1..][j - 1] == intents[j];
      }
    }
  }

  /** A refusal is a conflict on that table with that filter, reporting what the window shows. */
  lemma RefusalMeans(st: Store, tip: Pointers, name: string, p: Predicate, base: Option<nat>, error: Error)
    requires GoodStore(st) && Resolves(st, tip) && ValidateRemoval(st, tip, name, p, base) == Some(error)
    ensures name in tip && st.files[tip[name]].current.Some?
    ensures var m := st.files[tip[name]];
            error == TableConflict(name, p, if base.None? then [m.current.value]
                                            else ConflictingAdds(m, base.value, m.current.value, p))
    ensures !NothingAddedSince(st, tip, name, p, base)
  {
    ValidatedIffNothingAdded(st, tip, name, p, base);
  }

  lemma {:induction false} AppendsAlwaysValidate(st: Store, tip: Pointers, intents: seq<Intent>, bases: map<string, Option<nat>>)
    requires GoodStore(st) && forall i | 0 <= i < |intents| :: !intents[i].Removes()
    ensures ValidateAll(st, tip, intents, bases).None?
  {
    if intents != [] {
      AppendsAlwaysValidate(st, tip, intents[1..], bases);
    }
  }

  /**
   * From the base snapshot (not included) to the tip of the version `pointers` resolves, no
   * snapshot added a file that may hold a match; or the table has no snapshot at all.
   */
  ghost predicate NothingAddedSince(st: Store, pointers: Pointers, name: string, p: Predicate, base: Option<nat>)
    requires Resolves(st, pointers) && name in pointers
  {
    var m := st.files[pointers[name]];
    m.current.None?
    || (base.Some? && Ordered(m) && m.current.value in m.snapshots && Quiet(m, base.value, m.current.value, p))
  }

  /** Validation accepts a removal if and only if nothing it may match was added since its base. */
  lemma ValidatedIffNothingAdded(st: Store, tip: Pointers, name: string, p: Predicate, base: Option<nat>)
    requires GoodStore(st) && Resolves(st, tip) && name in tip
    ensures ValidateRemoval(st, tip, name, p, base).None? <==> NothingAddedSince(st, tip, name, p, base)
  {
    var m := st.files[tip[name]];
    if m.current.Some? && base.Some? {
      NoConflictIffQuiet(m, base.value, m.current.value, p);
    }
  }

  /** The rows of the version a removal was planned on. */
  ghost function PlannedRows(st: Store, pointers: Pointers, name: string, base: Option<nat>): multiset<Row>
    requires Resolves(st, pointers)
  {
    if name in pointers && base.Some? && base.value in st.files[pointers[name]].snapshots
    then RowsOf(st.files[pointers[name]].snapshots[base.value].files)
    else multiset{}
  }

  /** Then every row it matches was, at least as often, in the version it was planned on. */
  lemma NothingAddedBounds(st: Store, pointers: Pointers, name: string, p: Filter, base: Option<nat>, r: Row)
    requires GoodStore(st) && Resolves(st, pointers) && name in pointers && p.matches(r)
    requires NothingAddedSince(st, pointers, name, p, base)
    ensures Contents(st.files[pointers[name]])[r] <= PlannedRows(st, pointers, name, base)[r]
  {
    var m := st.files[pointers[name]];
    if m.current.Some? {
      QuietWindow(m, base.value, m.current.value, p, r);
    }
  }
}
