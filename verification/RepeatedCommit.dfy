/**
 * The one way a failed `commit` can be published twice. A transaction plans an append to a
 * table that exists and one to a table that does not; `commit` raises with the first append
 * staged on a base that is still the tip. The caller creates the missing table on the catalog
 * and commits again: both appends are applied on top of the staged one.
 */
module RepeatedCommit {
  import opened Options
  import opened Tables
  import opened Catalogs
  import opened Convention
  import opened Icechunk
  import opened Intents
  import opened Transactions
  import opened Protocol
  import opened Invariants
  import opened Replay
  import opened SystemInvariant
  import opened Runs

  const A: string := "a"
  const B: string := "b"
  const PLACE: string := "loc"
  const ROW := Row("r", "/r", 0)
  const OTHER := Row("s", "/s", 0)
  const PLAN := [AppendRows(A, [ROW]), AppendRows(B, [OTHER])]

  /** Reached by a pinned run, as every event here but none is a recovery. */
  ghost predicate Stands(s: System) {
    Reached(s) && Inv(s)
  }

  lemma Next(s: System, writer: nat, e: Event) returns (s': System)
    requires Stands(s) && writer in s.clients && e.writer == writer && !e.Open? && !e.FinishRecover?
    ensures Shape(s.world, s.clients[writer]) && Stands(s')
    ensures s'.world == Act(s.world, s.clients[writer], e).world
    ensures s'.clients == s.clients[writer := Act(s.world, s.clients[writer], e).client]
    ensures s'.log == if Act(s.world, s.clients[writer], e).published then s.log + [Publication(writer, s.clients[writer])] else s.log
    ensures GrowsBy(s.world.store, s'.world.store, writer)
  {
    hide Act;
    Known(s, writer);
    BasicShape(s.world, writer, s.clients[writer]);
    TrackedActs(s.world, writer, s.clients[writer], e);
    StepKeeps(s, e);
    ReachedNext(s, e);
    s' := Step(s, e);
  }

  lemma Known(s: System, writer: nat)
    requires Stands(s) && writer in s.clients
    ensures Sane(s.world) && Basic(s.world, writer, s.clients[writer]) && Refines(s.world, s.clients[writer])
    ensures Resolves(s.world.store, CurrentPointers(s.clients[writer].tx.catalog))
  {
    assert ClientInv(s.world, writer, s.clients[writer]);
  }

  lemma Enter(s: System, writer: nat, base: nat) returns (s': System)
    requires Stands(s) && writer !in s.clients && !Used(s.world.store, writer) && base < |s.world.history|
    ensures Stands(s') && s'.world == s.world && s'.log == s.log
    ensures s'.clients == s.clients[writer := Opened(s.world.history, writer, base, 5)]
  {
    hide Act;
    hide Reached;
    StepKeeps(s, Open(writer, base, 5));
    ReachedNext(s, Open(writer, base, 5));
    s' := Step(s, Open(writer, base, 5));
  }

  lemma IntentApplied(w: World, c: Client)
    requires Resolves(w.store, CurrentPointers(c.tx.catalog)) && c.pc.Applying? && c.pc.next < |c.tx.intents|
    requires c.tx.intents[c.pc.next].CreateTable? || c.tx.intents[c.pc.next].name in Names(c)
    ensures var c' := DoApply(w, c).client;
            && DoApply(w, c).world.history == w.history && !DoApply(w, c).published
            && c' == c.(tx := c.tx.(catalog := c'.tx.catalog), ops := c.ops + [c.tx.intents[c.pc.next]], pc := c.pc.(next := c.pc.next + 1))
            && Names(c') == Names(c) + {c.tx.intents[c.pc.next].name}
            && c'.tx.catalog.pointers == c.tx.catalog.pointers
            && c.tx.catalog.staged.Keys <= c'.tx.catalog.staged.Keys
            && (c.tx.intents[c.pc.next].AppendRows? ==> c'.tx.catalog.staged != map[])
  {
    hide Apply;
    ApplyNames(w.store, c.tx.catalog, c.tx.intents[c.pc.next]);
    ApplyStages(w.store, c.tx.catalog, c.tx.intents[c.pc.next]);
    if c.tx.intents[c.pc.next].AppendRows? {
      ApplyIsCommit(w.store, c.tx.catalog, c.tx.intents[c.pc.next]);
      assert c.tx.intents[c.pc.next].name in DoApply(w, c).client.tx.catalog.staged;
    }
  }

  /** One intent that finds its table. */
  lemma AppliesNext(s: System, writer: nat) returns (s': System)
    requires Stands(s) && writer in s.clients
    requires var c := s.clients[writer];
             && c.pc.Applying? && c.pc.next < |c.tx.intents|
             && (c.tx.intents[c.pc.next].CreateTable? || c.tx.intents[c.pc.next].name in Names(c))
    ensures Stands(s') && s'.world.history == s.world.history && s'.log == s.log
    ensures GrowsBy(s.world.store, s'.world.store, writer)
    ensures writer in s'.clients && s'.clients == s.clients[writer := s'.clients[writer]]
    ensures var c, c' := s.clients[writer], s'.clients[writer];
            && c' == c.(tx := c.tx.(catalog := c'.tx.catalog), ops := c.ops + [c.tx.intents[c.pc.next]], pc := c.pc.(next := c.pc.next + 1))
            && Names(c') == Names(c) + {c.tx.intents[c.pc.next].name}
            && c'.tx.catalog.pointers == c.tx.catalog.pointers
            && c.tx.catalog.staged.Keys <= c'.tx.catalog.staged.Keys
            && (c.tx.intents[c.pc.next].AppendRows? ==> c'.tx.catalog.staged != map[])
  {
    hide Act;
    hide DoApply;
    hide Stands;
    hide Inv;
    hide GrowsBy;
    hide Shape;
    Known(s, writer);
    s' := Next(s, writer, ApplyNext(writer));
    ActTakes(s.world, s.clients[writer], ApplyNext(writer));
    IntentApplied(s.world, s.clients[writer]);
  }

  /** Publishing staged versions on the tip: the new snapshot shows what the transaction's overlay showed. */
  lemma PublishesNow(s: System, writer: nat) returns (s': System)
    requires Stands(s) && writer in s.clients
    requires var c := s.clients[writer];
             c.pc.Applying? && c.pc.next == |c.tx.intents| && Fresh(s.world, c) && c.tx.catalog.staged != map[]
    ensures Stands(s') && s'.world.store == s.world.store && |s'.world.history| == |s.world.history| + 1
    ensures s.world.history <= s'.world.history && s'.clients.Keys == s.clients.Keys
    ensures ReadPointers(Tip(s'.world.history)) == CurrentPointers(s.clients[writer].tx.catalog)
    ensures s'.log == s.log + [Publication(writer, s.clients[writer])]
  {
    hide Act;
    hide Stands;
    hide Inv;
    hide DoPublish;
    hide GrowsBy;
    hide Landing;
    hide Shape;
    var c := s.clients[writer];
    Known(s, writer);
    s' := Next(s, writer, Publish(writer));
    ActTakes(s.world, c, Publish(writer));
    FreshLands(s.world, c);
    PublishedCommit(s.world, writer, c);
  }

  lemma FreshLands(w: World, c: Client)
    requires w.history != [] && c.pc.Applying? && Fresh(w, c) && c.tx.catalog.staged != map[]
    ensures DoPublish(w, c).published
  {
    hide Landing;
  }

  lemma StartsCommit(s: System, writer: nat) returns (s': System)
    requires Stands(s) && writer in s.clients && s.clients[writer].pc.Idle?
    ensures Stands(s') && s'.world == s.world && s'.log == s.log
    ensures s'.clients == s.clients[writer := DoStart(s.clients[writer])]
  {
    hide Act;
    hide DoStart;
    s' := Next(s, writer, StartCommit(writer));
    ActTakes(s.world, s.clients[writer], StartCommit(writer));
  }

  // -- the run ---------------------------------------------------------------------------------

  /** The tip has the table, still empty. */
  ghost predicate HasEmptyTable(s: System) {
    && Stands(s) && |s.world.history| == 2 && |s.log| == 1 && s.clients.Keys == {0} && !Used(s.world.store, 1)
    && Sane(s.world)
    && View(s.world.store, ReadPointers(s.world.history[1])) == map[A := multiset{}]
  }

  lemma PlansCreate(w: World, c: Client)
    requires Shape(w, c) && c.pc.Idle? && c.tx.intents == []
    ensures var a := Act(w, c, Create(0, A, PLACE));
            && a.world == w && !a.published
            && a.client == c.(tx := c.tx.(intents := [CreateTable(A, PLACE)], session := a.client.tx.session))
            && a.client.tx.session.base == c.tx.session.base
  {
    hide Declared;
  }

  lemma Creating() returns (s: System)
    ensures Stands(s) && s.world == World(Store(map[], 0), [INITIAL]) && s.clients.Keys == {0} && s.log == []
    ensures var c := s.clients[0];
            && c.pc == Applying(0, 0) && c.tx.intents == [CreateTable(A, PLACE)] && c.tx.session.base == 0
            && c.tx.catalog == OpenCatalog(0, map[]) && c.ops == []
  {
    hide Act;
    hide Inv;
    hide Shape;
    hide GrowsBy;
    s := Begun();
    InitialInv();
    s := Enter(s, 0, 0);
    var begun := s;
    s := Next(s, 0, Create(0, A, PLACE));
    PlansCreate(begun.world, begun.clients[0]);
    s := StartsCommit(s, 0);
  }

  lemma TableCreated() returns (s: System)
    ensures HasEmptyTable(s)
  {
    hide Apply;
    hide DoApply;
    hide Landing;
    hide GoodStore;
    hide PerformAll;
    hide Stands;
    hide Inv;
    s := Creating();
    assert CurrentPointers(s.clients[0].tx.catalog) == map[];
    s := AppliesNext(s, 0);
    var c := s.clients[0];
    CreatedView(s, c);
    s := PublishesNow(s, 0);
    StandsSane(s);
  }

  lemma StandsSane(s: System)
    requires Stands(s)
    ensures Sane(s.world)
  {}

  lemma CreatedView(s: System, c: Client)
    requires Stands(s) && 0 in s.clients && s.clients[0] == c && c.ops == [] + [CreateTable(A, PLACE)]
    requires c.tx.catalog.pointers == map[] && Names(c) == {A}
    ensures Resolves(s.world.store, CurrentPointers(c.tx.catalog))
    ensures View(s.world.store, CurrentPointers(c.tx.catalog)) == map[A := multiset{}]
    ensures c.tx.catalog.staged != map[]
  {
    Known(s, 0);
    assert View(s.world.store, map[]) == map[];
    OneCreate();
    assert CurrentPointers(c.tx.catalog).Keys == {A};
    assert A in c.tx.catalog.staged;
  }

  lemma OneCreate()
    ensures PerformAll(map[], [] + [CreateTable(A, PLACE)]) == Some(map[A := multiset{}])
  {
    var none: TableRows := map[];
    assert ([] + [CreateTable(A, PLACE)])[1..] == [];
    assert none[A := multiset{}] == map[A := multiset{}];
  }

  lemma PlansAppend(w: World, c: Client, intent: Intent)
    requires Shape(w, c) && c.pc.Idle? && intent.AppendRows?
    ensures Act(w, c, Plan(1, intent)) == Acted(w, c.(tx := c.tx.(intents := c.tx.intents + [intent])), false)
  {}

  /** The second transaction in this run, seen between calls of `commit`. */
  ghost predicate Planned(s: System) {
    && Stands(s) && |s.world.history| == 2 && |s.log| == 1 && 1 in s.clients && Sane(s.world)
    && View(s.world.store, ReadPointers(s.world.history[1])) == map[A := multiset{}]
    && var c := s.clients[1];
    && c.tx.intents == PLAN && c.tx.session.base == 1 && c.tx.maxRetries == 5
    && c.tx.catalog.pointers == ReadPointers(s.world.history[1])
  }

  lemma BothPlanned() returns (s: System)
    ensures Planned(s) && s.clients[1].pc.Idle? && s.clients[1].tx.catalog.staged == map[]
  {
    hide Act;
    hide Inv;
    hide Shape;
    hide GrowsBy;
    hide Stands;
    hide View;
    s := TableCreated();
    s := Enter(s, 1, 1);
    var begun := s;
    s := Next(begun, 1, Plan(1, PLAN[0]));
    PlansAppend(begun.world, begun.clients[1], PLAN[0]);
    var one := s;
    s := Next(one, 1, Plan(1, PLAN[1]));
    PlansAppend(one.world, one.clients[1], PLAN[1]);
  }

  lemma IntentFails(w: World, c: Client)
    requires c.pc.Applying? && c.pc.next < |c.tx.intents|
    requires !c.tx.intents[c.pc.next].CreateTable? && c.tx.intents[c.pc.next].name !in Names(c)
    ensures DoApply(w, c) == Acted(w, c.(pc := Idle), false)
  {}

  lemma TableNames(s: System)
    requires Planned(s)
    ensures s.clients[1].tx.catalog.pointers.Keys == {A}
    ensures s.clients[1].tx.catalog.staged == map[] ==> Names(s.clients[1]) == {A}
  {
    hide Stands;
    hide Contents;
    assert View(s.world.store, ReadPointers(s.world.history[1])).Keys == {A};
  }

  /** The files of the base read the same while the transaction works. */
  lemma StillPlanned(s: System, s': System)
    requires Planned(s) && Stands(s') && Sane(s'.world) && s'.world.history == s.world.history && s'.log == s.log
    requires Grows(s.world.store, s'.world.store) && 1 in s'.clients
    requires var c, c' := s.clients[1], s'.clients[1];
             c'.tx.intents == c.tx.intents && c'.tx.session == c.tx.session && c'.tx.maxRetries == c.tx.maxRetries
             && c'.tx.catalog.pointers == c.tx.catalog.pointers
    ensures Planned(s')
  {
    hide Stands;
    hide View;
    GrowsKeepsView(s.world.store, s'.world.store, ReadPointers(s.world.history[1]));
  }

  /** A first `commit` has applied the first append. */
  lemma FirstApplied() returns (s: System)
    ensures Planned(s) && Names(s.clients[1]) == {A} && s.clients[1].tx.catalog.staged != map[]
    ensures s.clients[1].ops == [PLAN[0]] && s.clients[1].pc == Applying(0, 1)
  {
    hide Act;
    hide Inv;
    hide Shape;
    hide Stands;
    hide View;
    hide Apply;
    hide DoApply;
    hide Basic;
    hide Refines;
    hide Sane;
    var before := BothPlanned();
    TableNames(before);
    s := StartsCommit(before, 1);
    s := AppliesNext(s, 1);
    Known(s, 1);
    StillPlanned(before, s);
  }

  /** It has raised: the first append is staged, the second found no table. */
  lemma FirstCommitRaises() returns (s: System)
    ensures Planned(s) && s.clients[1].pc.Idle? && Names(s.clients[1]) == {A} && s.clients[1].tx.catalog.staged != map[]
    ensures s.clients[1].ops == [PLAN[0]]
  {
    hide Act;
    hide Inv;
    hide Shape;
    hide Stands;
    hide View;
    hide Apply;
    hide DoApply;
    hide Basic;
    hide Refines;
    hide Sane;
    var applied := FirstApplied();
    Known(applied, 1);
    s := Next(applied, 1, ApplyNext(1));
    ActTakes(applied.world, applied.clients[1], ApplyNext(1));
    IntentFails(applied.world, applied.clients[1]);
    Known(s, 1);
    StillPlanned(applied, s);
  }

  lemma DirectCreates(w: World, c: Client)
    requires Resolves(w.store, CurrentPointers(c.tx.catalog))
    ensures var a := DoDirect(w, c, CreateTable(B, PLACE));
            && a.world.history == w.history && !a.published
            && a.client == c.(tx := c.tx.(catalog := a.client.tx.catalog), direct := true, ops := c.ops + [CreateTable(B, PLACE)])
            && Names(a.client) == Names(c) + {B}
            && a.client.tx.catalog.pointers == c.tx.catalog.pointers
            && c.tx.catalog.staged.Keys <= a.client.tx.catalog.staged.Keys
  {
    hide Apply;
    ApplyNames(w.store, c.tx.catalog, CreateTable(B, PLACE));
    ApplyStages(w.store, c.tx.catalog, CreateTable(B, PLACE));
  }

  /** The caller creates the missing table on the catalog. */
  lemma TableAdded() returns (s: System)
    ensures Planned(s) && s.clients[1].pc.Idle? && Names(s.clients[1]) == {A, B} && s.clients[1].tx.catalog.staged != map[]
    ensures s.clients[1].ops == [PLAN[0], CreateTable(B, PLACE)]
  {
    hide Act;
    hide Inv;
    hide Shape;
    hide Stands;
    hide View;
    hide Apply;
    hide DoApply;
    hide Basic;
    hide Refines;
    hide Sane;
    hide DoDirect;
    var before := FirstCommitRaises();
    Known(before, 1);
    s := Next(before, 1, Direct(1, CreateTable(B, PLACE)));
    ActTakes(before.world, before.clients[1], Direct(1, CreateTable(B, PLACE)));
    DirectCreates(before.world, before.clients[1]);
    NonEmpty(before.clients[1].tx.catalog.staged, s.clients[1].tx.catalog.staged);
    Known(s, 1);
    StillPlanned(before, s);
  }

  lemma NonEmpty(staged: Pointers, more: Pointers)
    requires staged != map[] && staged.Keys <= more.Keys
    ensures more != map[]
  {
    assert staged == map[] <==> staged.Keys == {};
    assert more == map[] <==> more.Keys == {};
  }

  const PERFORMED := [PLAN[0], CreateTable(B, PLACE)] + PLAN

  /** `commit` again: the first intent is applied on top of what was staged. */
  lemma AppliesAgain() returns (s: System)
    ensures Planned(s) && s.clients[1].pc == Applying(0, 1) && s.clients[1].tx.catalog.staged != map[]
    ensures Names(s.clients[1]) == {A, B} && s.clients[1].ops == [PLAN[0], CreateTable(B, PLACE), PLAN[0]]
  {
    hide Act;
    hide Inv;
    hide Shape;
    hide Stands;
    hide View;
    hide Apply;
    hide DoApply;
    hide Basic;
    hide Refines;
    hide Sane;
    var before := TableAdded();
    s := StartsCommit(before, 1);
    s := AppliesNext(s, 1);
    Known(s, 1);
    StillPlanned(before, s);
  }

  /** And so is the second. */
  lemma SecondCommitApplies() returns (s: System)
    ensures Planned(s) && s.clients[1].pc == Applying(0, 2) && s.clients[1].tx.catalog.staged != map[]
    ensures s.clients[1].ops == PERFORMED
  {
    hide Act;
    hide Inv;
    hide Shape;
    hide Stands;
    hide View;
    hide Apply;
    hide DoApply;
    hide Basic;
    hide Refines;
    hide Sane;
    var before := AppliesAgain();
    s := AppliesNext(before, 1);
    Known(s, 1);
    StillPlanned(before, s);
  }

  lemma PerformAppend(tables: TableRows, name: string, row: Row)
    requires name in tables
    ensures Perform(tables, AppendRows(name, [row])) == Some(tables[name := tables[name] + multiset{row}])
  {
    assert multiset([row]) == multiset{row};
  }

  /** Performed on the empty table, that appends the row twice. */
  lemma PerformedTwice()
    ensures var start: TableRows := map[A := multiset{}];
            var end := PerformAll(start, PERFORMED);
            end.Some? && A in end.value && end.value[A] == multiset{ROW, ROW}
  {
    hide PerformAll;
    var t0: TableRows := map[A := multiset{}];
    var t1: TableRows := t0[A := t0[A] + multiset{ROW}];
    var t2: TableRows := t1[B := multiset{}];
    var t3: TableRows := t2[A := t2[A] + multiset{ROW}];
    var t4: TableRows := t3[B := t3[B] + multiset{OTHER}];
    PerformAppend(t0, A, ROW);
    PerformAppend(t2, A, ROW);
    PerformAppend(t3, B, OTHER);
    FourSteps(t0, t1, t2, t3, t4);
  }

  lemma FourSteps(t0: TableRows, t1: TableRows, t2: TableRows, t3: TableRows, t4: TableRows)
    requires Perform(t0, PERFORMED[0]) == Some(t1) && Perform(t1, PERFORMED[1]) == Some(t2)
    requires Perform(t2, PERFORMED[2]) == Some(t3) && Perform(t3, PERFORMED[3]) == Some(t4)
    ensures PerformAll(t0, PERFORMED) == Some(t4)
  {
    hide Perform;
    var p := PERFORMED;
    assert p[1..][1..] == p[2..] && p[2..][1..] == p[3..] && p[3..][1..] == p[4..] == [];
    assert PerformAll(t4, p[4..]) == Some(t4);
    assert PerformAll(t3, p[3..]) == Some(t4);
    assert PerformAll(t2, p[2..]) == Some(t4);
    assert PerformAll(t1, p[1..]) == Some(t4);
  }

  /**
   * Some run publishes an intent twice: the transaction recorded one append to the table, and
   * its snapshot holds the appended row two times.
   */
  lemma AppendPublishedTwice() returns (s: System)
    ensures Reached(s) && |s.world.history| == 3 && |s.log| == 2
    ensures s.log[1].writer == 1 && s.log[1].client.tx.intents == PLAN
    ensures Sane(s.world)
    ensures var before, after := ReadPointers(s.world.history[1]), ReadPointers(s.world.history[2]);
            && View(s.world.store, before) == map[A := multiset{}]
            && A in View(s.world.store, after) && View(s.world.store, after)[A] == multiset{ROW, ROW}
  {
    hide Act;
    hide Inv;
    hide Shape;
    hide View;
    hide Valid;
    hide PerformAll;
    var before := SecondCommitApplies();
    Known(before, 1);
    PerformedTwice();
    s := PublishesNow(before, 1);
    StandsSane(s);
  }
}
