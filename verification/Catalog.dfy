/**
 * A catalog whose pointers come from an Icechunk snapshot: reads resolve through
 * `pointers` overlaid with `staged`, and a table commit writes a new metadata.json
 * to the write-once warehouse and stages its location.
 */
module Catalogs {
  import opened Options
  import opened Tables

  /** The warehouse: every metadata.json ever written, and the next unused snapshot id. */
  datatype Store = Store(files: map<Location, Metadata>, nextId: nat)

  type Pointers = map<string, Location>

  /** `writer`, `epoch` and `serial` identify the uuids this catalog draws. */
  datatype Catalog = Catalog(writer: nat, epoch: nat, serial: nat, pointers: Pointers, staged: Pointers)

  datatype Loaded = Loaded(location: Location, metadata: Metadata) | NoSuchTable | MissingFile

  function CurrentPointers(c: Catalog): Pointers {
    c.pointers + c.staged
  }

  function OpenCatalog(writer: nat, pointers: Pointers): Catalog {
    Catalog(writer, 0, 0, pointers, map[])
  }

  function RebasedOnto(c: Catalog, pointers: Pointers): Catalog {
    c.(pointers := pointers, staged := map[], epoch := c.epoch + 1)
  }

  function Load(st: Store, c: Catalog, name: string): Loaded {
    var pointers := CurrentPointers(c);
    if name !in pointers then NoSuchTable
    else if pointers[name] !in st.files then MissingFile
    else Loaded(pointers[name], st.files[pointers[name]])
  }

  function FreshLocation(c: Catalog, name: string, m: Metadata): Location {
    Location(name, |m.log|, Token(c.writer, c.epoch, c.serial))
  }

  /** Write `m` at a fresh location and stage it. */
  function Stage(st: Store, c: Catalog, name: string, m: Metadata): (Store, Catalog) {
    var location := FreshLocation(c, name, m);
    (st.(files := st.files[location := m]),
     c.(staged := c.staged[name := location], serial := c.serial + 1))
  }

  // -- committing a table ----------------------------------------------------------

  datatype CommitResponse = VersionStaged | RefusedReadOnly | BaseUnreadable | RequirementFailed

  /** The version a table commit builds on. */
  function BaseVersion(st: Store, c: Catalog, name: string, table: Metadata): Option<Metadata> {
    var pointers := CurrentPointers(c);
    if name !in pointers then Some(table)
    else if pointers[name] in st.files then Some(st.files[pointers[name]]) else None
  }

  /** `expected` is the snapshot the update was prepared on. */
  function Response(st: Store, c: Catalog, readOnly: bool, name: string, table: Metadata, expected: Option<nat>): CommitResponse {
    if readOnly then RefusedReadOnly
    else
      match BaseVersion(st, c, name, table)
      case None => BaseUnreadable
      case Some(base) => if base.current != expected then RequirementFailed else VersionStaged
  }

  /** The updated base, its log extended by the location of the version it was built on. */
  function NextVersion(st: Store, c: Catalog, name: string, table: Metadata, updates: Metadata -> Metadata): Metadata
    requires BaseVersion(st, c, name, table).Some?
  {
    var updated := updates(BaseVersion(st, c, name, table).value);
    if name in CurrentPointers(c) then updated.(log := updated.log + [CurrentPointers(c)[name]]) else updated
  }

  /** The object store behind FileIO. */
  class Warehouse {
    var files: map<Location, Metadata>
    var nextId: nat

    constructor ()
      ensures Value() == Store(map[], 0)
    {
      files, nextId := map[], 0;
    }

    function Value(): Store
      reads this
    {
      Store(files, nextId)
    }

    method TakeIds() returns (id: nat)
      modifies this`nextId
      ensures id == old(nextId) && nextId == id + 2
    {
      id := nextId;
      nextId := nextId + 2;
    }
  }

  class IcechunkCatalog {
    const warehouse: Warehouse
    const writer: nat
    const readOnly: bool
    var epoch: nat
    var serial: nat
    var pointers: Pointers
    var staged: Pointers

    constructor (warehouse: Warehouse, writer: nat, pointers: Pointers, readOnly: bool)
      ensures this.warehouse == warehouse && this.writer == writer && this.readOnly == readOnly
      ensures Value() == OpenCatalog(writer, pointers)
    {
      this.warehouse, this.writer, this.readOnly := warehouse, writer, readOnly;
      this.epoch, this.serial := 0, 0;
      this.pointers, this.staged := pointers, map[];
    }

    function Value(): Catalog
      reads this
    {
      Catalog(writer, epoch, serial, pointers, staged)
    }

    predicate TableExists(name: string)
      reads this
    {
      name in CurrentPointers(Value())
    }

    /** What a name resolves to: staged first, then the base's; a name without a pointer stands for the given table. */
    function Resolved(name: string, table: Metadata): Option<Metadata>
      reads this, warehouse
    {
      if name in staged then (if staged[name] in warehouse.files then Some(warehouse.files[staged[name]]) else None)
      else if name in pointers then (if pointers[name] in warehouse.files then Some(warehouse.files[pointers[name]]) else None)
      else Some(table)
    }

    /** The location a new version of the table is built on, if there is one. */
    function Trail(name: string): seq<Location>
      reads this
    {
      if name in staged then [staged[name]] else if name in pointers then [pointers[name]] else []
    }

    method RebaseOnto(pointers: Pointers)
      modifies this
      ensures Value() == RebasedOnto(old(Value()), pointers)
    {
      this.pointers := pointers;
      staged := map[];
      epoch := epoch + 1;
    }

    /** False when the name is taken or the catalog is read-only; then nothing is written. */
    method CreateTable(name: string, location: string) returns (created: bool)
      modifies this, warehouse
      ensures created == (!readOnly && !old(TableExists(name)))
      ensures created ==> (warehouse.Value(), Value()) == Stage(old(warehouse.Value()), old(Value()), name, NewTable(location))
      ensures !created ==> warehouse.Value() == old(warehouse.Value()) && Value() == old(Value())
    {
      if readOnly || TableExists(name) {
        return false;
      }
      var m := NewTable(location);
      var target := FreshLocation(Value(), name, m);
      warehouse.files := warehouse.files[target := m];
      staged := staged[name := target];
      serial := serial + 1;
      return true;
    }

    method LoadTable(name: string) returns (r: Loaded)
      ensures r == Load(warehouse.Value(), Value(), name)
    {
      var current := pointers + staged;
      if name !in current {
        return NoSuchTable;
      }
      if current[name] !in warehouse.files {
        return MissingFile;
      }
      return Loaded(current[name], warehouse.files[current[name]]);
    }

    /**
     * Build the next version on what the name resolves to now, provided its snapshot is the
     * one the caller expects; `table` stands in only for a name without a pointer.
     */
    method CommitTable(name: string, table: Metadata, expected: Option<nat>, updates: Metadata -> Metadata)
      returns (r: CommitResponse)
      modifies this, warehouse
      ensures r == Response(old(warehouse.Value()), old(Value()), readOnly, name, table, expected)
      ensures r.RefusedReadOnly? <==> readOnly
      ensures r.BaseUnreadable? <==> !readOnly && old(Resolved(name, table)).None?
      ensures r.VersionStaged? <==>
                !readOnly && old(Resolved(name, table)).Some? && old(Resolved(name, table)).value.current == expected
      ensures r.VersionStaged? ==>
                && staged.Keys == old(staged.Keys) + {name} && pointers == old(pointers)
                && (forall other | other in old(staged) && other != name :: staged[other] == old(staged[other]))
                && staged[name] in warehouse.files && staged[name].table == name
                && var base := old(Resolved(name, table)).value;
                && updates(base) == warehouse.files[staged[name]].(log := updates(base).log)
                && warehouse.files[staged[name]].log == updates(base).log + old(Trail(name))
      ensures r.VersionStaged? ==>
                (warehouse.Value(), Value())
                == Stage(old(warehouse.Value()), old(Value()), name,
                         NextVersion(old(warehouse.Value()), old(Value()), name, table, updates))
      ensures !r.VersionStaged? ==> warehouse.Value() == old(warehouse.Value()) && Value() == old(Value())
    {
      if readOnly {
        return RefusedReadOnly;
      }
      var current := pointers + staged;
      if name in current && current[name] !in warehouse.files {
        return BaseUnreadable;
      }
      var base := if name in current then warehouse.files[current[name]] else table;
      if base.current != expected {
        return RequirementFailed;
      }
      var m := updates(base);
      if name in current {
        m := m.(log := m.log + [current[name]]);
      }
      var target := FreshLocation(Value(), name, m);
      warehouse.files := warehouse.files[target := m];
      staged := staged[name := target];
      serial := serial + 1;
      return VersionStaged;
    }
  }

  // -- validity ----------------------------------------------------------------

  /** Everything in the warehouse is a well-formed version whose location tells its depth. */
  ghost predicate GoodStore(st: Store) {
    forall loc | loc in st.files ::
      && WellFormed(st.files[loc])
      && IdsBelow(st.files[loc], st.nextId)
      && loc.version == |st.files[loc].log|
  }

  ghost predicate Resolves(st: Store, pointers: Pointers) {
    forall name | name in pointers :: pointers[name] in st.files
  }

  /** No uuid this catalog will draw has been used. */
  ghost predicate FreshFor(st: Store, c: Catalog) {
    forall loc | loc in st.files :: loc.token.writer == c.writer ==> loc.token.serial < c.serial
  }

  /** Write-once: what is there stays as it is. */
  ghost predicate Grows(st: Store, st': Store) {
    && st.nextId <= st'.nextId
    && (forall loc | loc in st.files :: loc in st'.files && st'.files[loc] == st.files[loc])
  }

  /** Whatever is new was written by `writer`. */
  ghost predicate GrowsBy(st: Store, st': Store, writer: nat) {
    && Grows(st, st')
    && (forall loc | loc in st'.files :: loc in st.files || loc.token.writer == writer)
  }

  /** Every table of `pointers` survives in `later`, at the same or a later version. */
  ghost predicate PointersExtend(st: Store, pointers: Pointers, later: Pointers)
    requires GoodStore(st) && Resolves(st, pointers) && Resolves(st, later)
  {
    forall name | name in pointers ::
      name in later && Extends(st.files[pointers[name]], st.files[later[name]])
  }

  /** The token's writer and epoch are this catalog's present ones: drawn since the last rebase. */
  predicate Own(c: Catalog, loc: Location) {
    loc.token.writer == c.writer && loc.token.epoch == c.epoch
  }

  /**
   * A staged version was drawn since the last rebase, and its metadata log is the base
   * pointer's log, then the base pointer, then locations drawn since the last rebase.
   */
  ghost predicate BuiltOnBase(st: Store, c: Catalog, name: string)
    requires name in c.staged && c.staged[name] in st.files && Resolves(st, c.pointers)
  {
    var log := st.files[c.staged[name]].log;
    var trunk := if name in c.pointers then st.files[c.pointers[name]].log + [c.pointers[name]] else [];
    && Own(c, c.staged[name])
    && trunk <= log
    && (forall i | |trunk| <= i < |log| :: Own(c, log[i]))
  }

  /** The clause of `Valid` about one staged name. */
  ghost predicate StagedWell(st: Store, c: Catalog, name: string)
    requires GoodStore(st) && name in c.staged && c.staged[name] in st.files && Resolves(st, c.pointers)
  {
    && BuiltOnBase(st, c, name)
    && (name in c.pointers ==> Extends(st.files[c.pointers[name]], st.files[c.staged[name]]))
  }

  ghost predicate Valid(st: Store, c: Catalog) {
    && GoodStore(st)
    && FreshFor(st, c)
    && Resolves(st, c.pointers)
    && Resolves(st, c.staged)
    && Resolves(st, CurrentPointers(c))
    && (forall name | name in c.staged :: StagedWell(st, c, name))
  }

  /** The rows of every table, read through a pointer map. */
  ghost function View(st: Store, pointers: Pointers): map<string, multiset<Row>>
    requires Resolves(st, pointers)
  {
    map name | name in pointers :: Contents(st.files[pointers[name]])
  }

  // -- lemmas --------------------------------------------------------------------

  lemma GrowsKeepsView(st: Store, st': Store, pointers: Pointers)
    requires Resolves(st, pointers) && Grows(st, st')
    ensures Resolves(st', pointers) && View(st', pointers) == View(st, pointers)
  {}

  lemma GrowsKeepsExtend(st: Store, st': Store, pointers: Pointers, later: Pointers)
    requires GoodStore(st) && GoodStore(st') && Grows(st, st')
    requires Resolves(st, pointers) && Resolves(st, later) && PointersExtend(st, pointers, later)
    ensures Resolves(st', pointers) && Resolves(st', later) && PointersExtend(st', pointers, later)
  {}

  lemma PointersExtendTransitive(st: Store, p0: Pointers, p1: Pointers, p2: Pointers)
    requires GoodStore(st) && Resolves(st, p0) && Resolves(st, p1) && Resolves(st, p2)
    requires PointersExtend(st, p0, p1) && PointersExtend(st, p1, p2)
    ensures PointersExtend(st, p0, p2)
  {
    forall name | name in p0
      ensures name in p2 && Extends(st.files[p0[name]], st.files[p2[name]])
    {
      ExtendsTransitive(st.files[p0[name]], st.files[p1[name]], st.files[p2[name]]);
    }
  }

  /** The overlay is a later version of the base map. */
  lemma OverlayExtends(st: Store, c: Catalog)
    requires Valid(st, c)
    ensures Resolves(st, CurrentPointers(c)) && PointersExtend(st, c.pointers, CurrentPointers(c))
  {
    forall name | name in c.pointers
      ensures Extends(st.files[c.pointers[name]], st.files[CurrentPointers(c)[name]])
    {
      assert name in c.staged ==> StagedWell(st, c, name);
      ExtendsReflexive(st.files[c.pointers[name]]);
    }
  }

  /** Another writer's files disturb nothing here. */
  lemma ValidUnderGrowth(st: Store, st': Store, c: Catalog, writer: nat)
    requires Valid(st, c) && GoodStore(st') && GrowsBy(st, st', writer) && writer != c.writer
    ensures Valid(st', c)
  {
    forall name | name in c.staged ensures StagedWell(st', c, name) {
      assert StagedWell(st, c, name);
    }
  }

  /** Adopting another pointer map leaves nothing staged. */
  lemma ValidRebased(st: Store, c: Catalog, pointers: Pointers)
    requires GoodStore(st) && FreshFor(st, c) && Resolves(st, pointers)
    ensures Valid(st, RebasedOnto(c, pointers))
  {}

  /** Staging `name` keeps everything valid once its own entry is. */
  lemma StageValid(st: Store, c: Catalog, name: string, m: Metadata)
    requires Valid(st, c) && WellFormed(m) && IdsBelow(m, st.nextId)
    requires name in c.pointers ==> Extends(st.files[c.pointers[name]], m)
    requires var (st', c') := Stage(st, c, name, m); Resolves(st', c'.pointers) && BuiltOnBase(st', c', name)
    ensures var (st', c') := Stage(st, c, name, m);
            && Valid(st', c') && GrowsBy(st, st', c.writer)
            && View(st', CurrentPointers(c')) == View(st, CurrentPointers(c))[name := Contents(m)]
  {
    var (st', c') := Stage(st, c, name, m);
    OldStagedKept(st, c, name, m);
    ViewAfterStage(st, c, name, m);
    forall other | other in c'.staged ensures StagedWell(st', c', other) {
      if other == name {
        assert st'.files[c'.staged[name]] == m;
      } else {
        assert StagedWell(st, c, other);
      }
    }
  }

  /** Staging the first version of a table that has no pointer. */
  lemma StageNewValid(st: Store, c: Catalog, name: string, m: Metadata)
    requires Valid(st, c) && name !in CurrentPointers(c)
    requires WellFormed(m) && IdsBelow(m, st.nextId) && m.log == []
    ensures var (st', c') := Stage(st, c, name, m);
            && Valid(st', c') && GrowsBy(st, st', c.writer)
            && View(st', CurrentPointers(c')) == View(st, CurrentPointers(c))[name := Contents(m)]
  {
    StageValid(st, c, name, m);
  }

  /** Staging a version built on the one the catalog resolves. */
  lemma StageNextValid(st: Store, c: Catalog, name: string, m: Metadata)
    requires Valid(st, c) && name in CurrentPointers(c)
    requires WellFormed(m) && IdsBelow(m, st.nextId)
    requires Extends(st.files[CurrentPointers(c)[name]], m)
    requires m.log == st.files[CurrentPointers(c)[name]].log + [CurrentPointers(c)[name]]
    ensures var (st', c') := Stage(st, c, name, m);
            && Valid(st', c') && GrowsBy(st, st', c.writer)
            && View(st', CurrentPointers(c')) == View(st, CurrentPointers(c))[name := Contents(m)]
  {
    if name in c.staged {
      assert StagedWell(st, c, name);
      if name in c.pointers {
        ExtendsTransitive(st.files[c.pointers[name]], st.files[c.staged[name]], m);
      }
    }
    NextBuiltOnBase(st, c, name, m);
    StageValid(st, c, name, m);
  }

  lemma NextBuiltOnBase(st: Store, c: Catalog, name: string, m: Metadata)
    requires Resolves(st, c.pointers) && name in CurrentPointers(c) && CurrentPointers(c)[name] in st.files
    requires name in c.staged ==> BuiltOnBase(st, c, name)
    requires m.log == st.files[CurrentPointers(c)[name]].log + [CurrentPointers(c)[name]]
    requires FreshLocation(c, name, m) !in st.files
    ensures var (st', c') := Stage(st, c, name, m); Resolves(st', c'.pointers) && BuiltOnBase(st', c', name)
  {}

  lemma OldStagedKept(st: Store, c: Catalog, name: string, m: Metadata)
    requires Valid(st, c) && WellFormed(m) && IdsBelow(m, st.nextId)
    ensures FreshLocation(c, name, m) !in st.files
    ensures var (st', c') := Stage(st, c, name, m);
            && GoodStore(st') && GrowsBy(st, st', c.writer) && FreshFor(st', c')
            && Resolves(st', c'.pointers) && Resolves(st', c'.staged)
            && (forall other | other in c.staged && other != name :: BuiltOnBase(st', c', other))
  {
    hide WellFormed;
    hide IdsBelow;
    hide Extends;
    var (st', c') := Stage(st, c, name, m);
    forall other | other in c.staged && other != name ensures BuiltOnBase(st', c', other) {
      assert StagedWell(st, c, other);
    }
  }

  lemma ViewAfterStage(st: Store, c: Catalog, name: string, m: Metadata)
    requires Resolves(st, CurrentPointers(c)) && FreshLocation(c, name, m) !in st.files
    ensures var (st', c') := Stage(st, c, name, m);
            && CurrentPointers(c') == CurrentPointers(c)[name := FreshLocation(c, name, m)]
            && Resolves(st', CurrentPointers(c'))
            && View(st', CurrentPointers(c')) == View(st, CurrentPointers(c))[name := Contents(m)]
  {
    hide View;
    var location := FreshLocation(c, name, m);
    ViewWith(st, Stage(st, c, name, m).0, CurrentPointers(c), name, location);
    assert c.pointers + c.staged[name := location] == (c.pointers + c.staged)[name := location];
  }

  lemma ViewWith(st: Store, st': Store, pointers: Pointers, name: string, location: Location)
    requires Resolves(st, pointers) && location in st'.files
    requires forall loc | loc in st.files :: loc in st'.files && st'.files[loc] == st.files[loc]
    ensures Resolves(st', pointers[name := location])
    ensures View(st', pointers[name := location]) == View(st, pointers)[name := Contents(st'.files[location])]
  {
    hide Contents;
    var left, right := View(st', pointers[name := location]), View(st, pointers)[name := Contents(st'.files[location])];
    assert left.Keys == right.Keys;
    forall n | n in left ensures left[n] == right[n] {}
  }
}
