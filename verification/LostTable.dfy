/**
 * A concrete run, not pinned, that loses a table. Transaction 0 conflicts with 1 and
 * reads the tip; transaction 2 then creates a table; transaction 0 rebases onto that
 * newer tip and publishes the pointers it had read.
 */
module LostTable {
  import opened Options
  import opened Tables
  import opened Catalogs
  import opened Convention
  import opened Icechunk
  import opened Intents
  import opened Transactions
  import opened Protocol
  import opened Declarations
  import opened Runs

  const TABLE: string := "t"
  const PLACE: string := "loc"
  const LOCATION := Location(TABLE, 0, Token(2, 0, 0))

  // -- the states along the run --------------------------------------------------------------

  const A_CHANGES: Changes := map[["a"] := Some(Node(1))]
  const B_CHANGES: Changes := map[["b"] := Some(Node(2))]
  const EMPTY := Store(map[], 0)

  /** A transaction on the initial snapshot with array changes only, at some point of its commit. */
  function ArrayTx(writer: nat, changes: Changes, pc: Pc): Client {
    Client(Tx(Session(0, changes, None), OpenCatalog(writer, map[]), [], map[], {}, 5), pc, 0, [], [], false)
  }

  /** 1's snapshot. */
  function FirstSnapshot(): Commit {
    Landing(INITIAL, Session(0, B_CHANGES, None), CommitMetadata(map[]))
  }

  function DeclaringSession(): Session {
    Session(1, map[], Some(Declared(NO_ATTRS, map[TABLE := TableBinding(PLACE)])))
  }

  /** 2's snapshot, which declares the table and points at it. */
  function SecondSnapshot(): Commit {
    Landing(FirstSnapshot(), DeclaringSession(), CommitMetadata(map[TABLE := LOCATION]))
  }

  /** What 0 publishes on top: its array, and the pointers it read from 1's snapshot. */
  function ThirdSnapshot(): Commit {
    Landing(SecondSnapshot(), Session(2, A_CHANGES, None), CommitMetadata(map[]))
  }

  function CreatingTx(staged: Pointers, serial: nat, ops: seq<Intent>, pc: Pc): Client {
    var c := Catalog(2, 0, serial, map[], staged);
    Client(Tx(DeclaringSession(), c, [CreateTable(TABLE, PLACE)], map[], {}, 5), pc, 1, ops, [], false)
  }

  lemma BothChange()
    ensures A_CHANGES != map[] && B_CHANGES != map[]
  {
    assert ["a"] in A_CHANGES && ["b"] in B_CHANGES;
  }

  /** A call of commit with nothing staged on the catalog. */
  lemma StartsClean(c: Client)
    requires c.tx.catalog.staged == map[] && c.ops == [] && c.startOps == [] && c.tx.unmanaged == {}
    requires c.tx.maxRetries >= 0
    ensures DoStart(c) == c.(pc := Applying(0, 0))
  {
    assert c.tx.catalog.staged.Keys == {};
  }

  lemma OpensEmpty(history: seq<Commit>, writer: nat, base: nat)
    requires base < |history| && ReadPointers(history[base]) == map[]
    ensures Opened(history, writer, base, 5)
         == Client(Tx(Session(base, map[], None), OpenCatalog(writer, map[]), [], map[], {}, 5), Idle, base, [], [], false)
  {}

  lemma Writes(w: World, writer: nat, path: Path, node: Node)
    requires Shape(w, ArrayTx(writer, map[], Idle))
    ensures Act(w, ArrayTx(writer, map[], Idle), WriteNode(writer, path, Some(node)))
         == Acted(w, ArrayTx(writer, map[path := Some(node)], Idle), false)
  {
    assert map[][path := Some(node)] == map[path := Some(node)];
  }

  /** Open a transaction on the initial snapshot and stage one array. */
  lemma Stages(s: System, writer: nat, path: Path, node: Node) returns (s': System)
    requires Reached(s) && s.world == World(EMPTY, [INITIAL]) && writer !in s.clients
    ensures Reached(s') && s'.world == s.world
    ensures s'.clients == s.clients[writer := ArrayTx(writer, map[path := Some(node)], Idle)]
  {
    hide Step;
    hide Act;
    s' := Opens(s, writer, 0);
    OpensEmpty([INITIAL], writer, 0);
    Writes(s.world, writer, path, node);
    s' := Moves(s', s.world, writer, ArrayTx(writer, map[], Idle), WriteNode(writer, path, Some(node)));
  }

  /** 0 and 1 stage an array on the same base; 1 publishes. */
  lemma FirstPublishes() returns (s: System)
    ensures At(s, World(EMPTY, [INITIAL, FirstSnapshot()]), 0, ArrayTx(0, A_CHANGES, Idle))
    ensures 2 !in s.clients
  {
    hide Step;
    hide Act;
    hide Landing;
    hide DoStart;
    s := Begun();
    s := Stages(s, 0, ["a"], Node(1));
    s := Stages(s, 1, ["b"], Node(2));
    StartsClean(s.clients[1]);
    s := Starts(s, s.world, 1, s.clients[1]);
    BothChange();
    s := LandsNow(s, s.world, 1, s.clients[1]);
  }

  lemma ReadsTip(w: World)
    requires w == World(EMPTY, [INITIAL, FirstSnapshot()])
    ensures Act(w, ArrayTx(0, A_CHANGES, Pc.Conflicted(0)), ReadTip(0)) == Acted(w, ArrayTx(0, A_CHANGES, Adopting(0, 1)), false)
  {
    hide Landing;
  }

  /** 0 conflicts and reads the tip. */
  lemma ZeroConflicts() returns (s: System)
    ensures At(s, World(EMPTY, [INITIAL, FirstSnapshot()]), 0, ArrayTx(0, A_CHANGES, Adopting(0, 1)))
    ensures 2 !in s.clients
  {
    hide Step;
    hide Act;
    hide Landing;
    hide DoStart;
    s := FirstPublishes();
    StartsClean(s.clients[0]);
    s := Starts(s, s.world, 0, s.clients[0]);
    BothChange();
    s := Conflicts(s, s.world, 0, s.clients[0]);
    ReadsTip(s.world);
    s := Moves(s, s.world, 0, s.clients[0], ReadTip(0));
  }

  lemma Declaring(w: World)
    requires w == World(EMPTY, [INITIAL, FirstSnapshot()])
    ensures ReadPointers(FirstSnapshot()) == map[]
    ensures var begun := Client(Tx(Session(1, map[], None), OpenCatalog(2, map[]), [], map[], {}, 5), Idle, 1, [], [], false);
            Shape(w, begun) && Act(w, begun, Create(2, TABLE, PLACE)) == Acted(w, CreatingTx(map[], 0, [], Idle), false)
  {}

  /** 2 opens on that tip and plans to create a table. */
  lemma TwoPrepares() returns (s: System)
    ensures At(s, World(EMPTY, [INITIAL, FirstSnapshot()]), 0, ArrayTx(0, A_CHANGES, Adopting(0, 1)))
    ensures At(s, World(EMPTY, [INITIAL, FirstSnapshot()]), 2, CreatingTx(map[], 0, [], Idle))
  {
    hide Step;
    hide Act;
    hide Landing;
    s := ZeroConflicts();
    Declaring(s.world);
    OpensEmpty(s.world.history, 2, 1);
    s := Opens(s, 2, 1);
    s := Moves(s, s.world, 2, s.clients[2], Create(2, TABLE, PLACE));
  }

  const CREATED := Store(map[LOCATION := NewTable(PLACE)], 0)

  lemma Creates(history: seq<Commit>)
    ensures DoApply(World(EMPTY, history), CreatingTx(map[], 0, [], Applying(0, 0)))
         == Acted(World(CREATED, history), CreatingTx(map[TABLE := LOCATION], 1, [CreateTable(TABLE, PLACE)], Applying(0, 1)), false)
  {
    var a := DoApply(World(EMPTY, history), CreatingTx(map[], 0, [], Applying(0, 0)));
    assert a.client.tx.catalog.staged == map[TABLE := LOCATION];
    assert a.world.store.files == map[LOCATION := NewTable(PLACE)];
  }

  lemma TwoApplies() returns (s: System)
    ensures At(s, World(CREATED, [INITIAL, FirstSnapshot()]), 0, ArrayTx(0, A_CHANGES, Adopting(0, 1)))
    ensures At(s, World(CREATED, [INITIAL, FirstSnapshot()]), 2,
               CreatingTx(map[TABLE := LOCATION], 1, [CreateTable(TABLE, PLACE)], Applying(0, 1)))
  {
    hide Step;
    hide Act;
    hide Landing;
    hide DoStart;
    hide DoApply;
    s := TwoPrepares();
    StartsClean(s.clients[2]);
    s := Starts(s, s.world, 2, s.clients[2]);
    Creates(s.world.history);
    s := Applies(s, s.world, 2, s.clients[2]);
  }

  lemma TwoPublishes() returns (s: System)
    ensures At(s, World(CREATED, [INITIAL, FirstSnapshot(), SecondSnapshot()]), 0, ArrayTx(0, A_CHANGES, Adopting(0, 1)))
  {
    hide Step;
    hide Act;
    hide Landing;
    s := TwoApplies();
    assert CurrentPointers(s.clients[2].tx.catalog) == map[TABLE := LOCATION];
    s := LandsNow(s, s.world, 2, s.clients[2]);
  }

  /** A recovery with no intents and no attributes adopts whatever pointers it is given. */
  lemma Adopts(w: World, c: Client)
    requires Shape(w, c) && c.pc.Adopting? && c.tx.intents == [] && c.tx.unmanaged == {} && c.tx.catalog.staged == map[]
    requires c.tx.session.attrs.None? && ReadPointers(w.history[c.pc.read]) == map[]
    ensures var c' := Act(w, c, FinishRecover(0, true)).client;
            && Act(w, c, FinishRecover(0, true)).world == w
            && c'.pc == Applying(c.pc.attempt + 1, 0) && c'.tx.session == c.tx.session.(base := |w.history| - 1)
            && CurrentPointers(c'.tx.catalog) == map[] && c'.tx.intents == []
  {}

  lemma ZeroRebases() returns (s: System)
    ensures Reached(s) && s.world == World(CREATED, [INITIAL, FirstSnapshot(), SecondSnapshot()]) && 0 in s.clients
    ensures s.clients[0].pc == Applying(1, 0) && s.clients[0].tx.session == Session(2, A_CHANGES, None)
    ensures CurrentPointers(s.clients[0].tx.catalog) == map[] && s.clients[0].tx.intents == []
  {
    hide Step;
    hide Act;
    hide Landing;
    s := TwoPublishes();
    NoPointers();
    Adopts(s.world, s.clients[0]);
    s := Moves(s, s.world, 0, s.clients[0], FinishRecover(0, true));
  }

  lemma NoPointers()
    ensures ReadPointers(FirstSnapshot()) == map[]
  {}

  lemma EndsMalformed(st: Store)
    requires LOCATION in st.files
    ensures ResolveTable(st, SecondSnapshot(), TABLE).Table?
    ensures ResolveTable(st, ThirdSnapshot(), TABLE).Malformed?
  {
    DeclareBindings(NO_ATTRS, map[TABLE := TableBinding(PLACE)]);
  }

  /**
   * Some run ends with a table that one snapshot has and the next one has lost: the
   * tip declares it, points nowhere, and a reader reports the store as malformed.
   */
  lemma UnpinnedRunLosesTable() returns (s: System)
    ensures Reached(s)
    ensures s.world.history == [INITIAL, FirstSnapshot(), SecondSnapshot(), ThirdSnapshot()]
    ensures ResolveTable(s.world.store, s.world.history[2], TABLE).Table?
    ensures ResolveTable(s.world.store, s.world.history[3], TABLE).Malformed?
  {
    hide Step;
    hide Act;
    hide Landing;
    hide ResolveTable;
    s := ZeroRebases();
    BothChange();
    s := LandsNow(s, s.world, 0, s.clients[0]);
    EndsMalformed(s.world.store);
  }
}
