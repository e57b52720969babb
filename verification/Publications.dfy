/**
 * What each publication of any run holds, however its recoveries were overtaken: the
 * transaction's work, once and in order, on the tables of the snapshot whose pointers it
 * read; and exactly when that loses a table version of the snapshot it landed on.
 */
module Publications {
  import opened Options
  import opened Tables
  import opened Catalogs
  import opened Icechunk
  import opened Intents
  import opened Transactions
  import opened Protocol
  import opened Invariants
  import opened AnyRun
  import opened Abandoned
  import opened Replay
  import opened Bookkeeping
  import opened Leftovers

  /** A table version and every version it was built on, oldest first. */
  function Chain(st: Store, loc: Location): seq<Location>
    requires loc in st.files
  {
    st.files[loc].log + [loc]
  }

  /** No table is lost, and each table's later version was built on the earlier one. */
  ghost predicate KeepsTables(st: Store, pointers: Pointers, later: Pointers)
    requires Resolves(st, pointers) && Resolves(st, later)
  {
    forall name | name in pointers :: name in later && Chain(st, pointers[name]) <= Chain(st, later[name])
  }

  lemma KeepsGrow(st: Store, st': Store, pointers: Pointers, later: Pointers)
    requires Grows(st, st') && Resolves(st, pointers) && Resolves(st, later)
    ensures Resolves(st', pointers) && Resolves(st', later)
    ensures KeepsTables(st', pointers, later) <==> KeepsTables(st, pointers, later)
  {
    forall name | name in pointers ensures Chain(st', pointers[name]) == Chain(st, pointers[name]) {}
    forall name | name in later ensures Chain(st', later[name]) == Chain(st, later[name]) {}
  }

  lemma KeepsTransitive(st: Store, p0: Pointers, p1: Pointers, p2: Pointers)
    requires Resolves(st, p0) && Resolves(st, p1) && Resolves(st, p2)
    requires KeepsTables(st, p0, p1) && KeepsTables(st, p1, p2)
    ensures KeepsTables(st, p0, p2)
  {}

  lemma OverlayKeeps(st: Store, c: Catalog)
    requires Valid(st, c)
    ensures KeepsTables(st, c.pointers, CurrentPointers(c))
  {
    forall name | name in c.pointers
      ensures Chain(st, c.pointers[name]) <= Chain(st, CurrentPointers(c)[name])
    {
      assert name in c.staged ==> StagedWell(st, c, name);
    }
  }

  /** No version on the chain was drawn by this catalog since its last rebase. */
  ghost predicate NoneOwn(chain: seq<Location>, c: Catalog) {
    forall i | 0 <= i < |chain| :: !Own(c, chain[i])
  }

  /** A version staged here continues a foreign chain only if that chain is the base's. */
  lemma ForeignPrefix(st: Store, c: Catalog, name: string, chain: seq<Location>)
    requires Valid(st, c) && name in CurrentPointers(c) && chain != [] && NoneOwn(chain, c)
    requires chain <= Chain(st, CurrentPointers(c)[name])
    ensures name in c.pointers && chain <= Chain(st, c.pointers[name])
  {
    if name in c.staged {
      assert StagedWell(st, c, name);
      var log := st.files[c.staged[name]].log;
      var trunk := if name in c.pointers then Chain(st, c.pointers[name]) else [];
      var whole := Chain(st, c.staged[name]);
      assert forall i | |trunk| <= i < |whole| :: Own(c, whole[i]);
      assert chain[|chain| - 1] == whole[|chain| - 1];
      assert |chain| <= |trunk|;
      assert chain <= trunk;
    }
  }

  /** What is staged on some pointers keeps a foreign snapshot's tables exactly when those pointers keep them. */
  lemma OverlayKeepsIff(st: Store, c: Catalog, tip: Pointers)
    requires Valid(st, c) && Resolves(st, tip)
    requires forall name | name in tip :: NoneOwn(Chain(st, tip[name]), c)
    ensures KeepsTables(st, tip, CurrentPointers(c)) <==> KeepsTables(st, tip, c.pointers)
  {
    OverlayKeeps(st, c);
    if KeepsTables(st, tip, CurrentPointers(c)) {
      forall name | name in tip ensures name in c.pointers && Chain(st, tip[name]) <= Chain(st, c.pointers[name]) {
        ForeignPrefix(st, c, name, Chain(st, tip[name]));
      }
    }
    if KeepsTables(st, tip, c.pointers) {
      KeepsTransitive(st, tip, c.pointers, CurrentPointers(c));
    }
  }

  lemma TipIsForeign(s: System, writer: nat, c: Catalog)
    requires Sane(s.world) && FinalInv(s) && writer in s.clients && !s.clients[writer].pc.Done? && c.writer == writer
    requires Resolves(s.world.store, ReadPointers(Tip(s.world.history)))
    ensures forall name | name in ReadPointers(Tip(s.world.history)) ::
              NoneOwn(Chain(s.world.store, ReadPointers(Tip(s.world.history))[name]), c)
  {
    var pointers := ReadPointers(Tip(s.world.history));
    assert AllFinal(s.world.store, s.clients, pointers);
    forall name | name in pointers ensures NoneOwn(Chain(s.world.store, pointers[name]), c) {
      assert FinalVersion(s.world.store, s.clients, pointers[name]);
    }
  }

  // -- the overlay shows the operations, in every run ------------------------------------------

  ghost predicate Backed(w: World, writer: nat, c: Client) {
    Sane(w) && Tracked(w, writer, c) && Refines(w, c)
  }

  ghost predicate AllRefine(s: System) {
    Orderly(s) && forall writer | writer in s.clients :: Backed(s.world, writer, s.clients[writer])
  }

  lemma RefinesLater(w: World, w': World, other: nat, writer: nat, c: Client)
    requires Sane(w) && Tracked(w, writer, c) && Refines(w, c)
    requires Sane(w') && Tracked(w', writer, c) && Grows(w.store, w'.store)
    ensures Refines(w', c)
  {
    hide PerformAll;
    GrowsKeepsView(w.store, w'.store, c.tx.catalog.pointers);
    GrowsKeepsView(w.store, w'.store, CurrentPointers(c.tx.catalog));
  }

  lemma RefinesAfter(s: System, e: Event, writer: nat)
    requires AllRefine(s) && Orderly(Step(s, e)) && writer in Step(s, e).clients
    ensures Backed(Step(s, e).world, writer, Step(s, e).clients[writer])
  {
    hide Act;
    hide Tracked;
    hide Refines;
    hide Sane;
    StepOrderly(s, e);
    if e.writer == writer && e.Open? && writer !in s.clients {
      OpenedRefines(Step(s, e).world, writer, Step(s, e).clients[writer]);
    } else if e.writer == writer && !e.Open? && Shape(s.world, s.clients[writer]) {
      RefinesActs(s.world, writer, s.clients[writer], e);
    } else {
      RefinesLater(s.world, Step(s, e).world, e.writer, writer, s.clients[writer]);
    }
  }

  lemma OpenedRefines(w: World, writer: nat, c: Client)
    requires Sane(w) && Tracked(w, writer, c) && c.tx.catalog.staged == map[] && c.ops == []
    ensures Refines(w, c)
  {
    NothingStaged(w, c);
  }

  // -- what a publication records -----------------------------------------------------------------

  /**
   * Snapshot `k + 1` shows the published operations performed on the snapshot the pointers
   * were read from, has the array changes laid over its parent, and keeps its parent's
   * tables if and only if the snapshot that was read has them.
   */
  ghost predicate PublishesOnRead(w: World, k: nat, c: Client) {
    && Sane(w) && k + 1 < |w.history| && c.origin <= k
    && var read, parent, child := w.history[c.origin], w.history[k], w.history[k + 1];
    && PerformAll(View(w.store, ReadPointers(read)), c.ops) == Some(View(w.store, ReadPointers(child)))
    && c.ops == c.startOps + c.tx.intents
    && (!c.direct || c.tx.unmanaged == {} ==> c.ops == c.tx.intents)
    && (Attempt(c) > 0 ==> c.tx.unmanaged == {})
    && Lands(parent, c.tx.session, ReadPointers(child), child)
    && (KeepsTables(w.store, ReadPointers(parent), ReadPointers(child))
        <==> KeepsTables(w.store, ReadPointers(parent), ReadPointers(read)))
  }

  ghost predicate Recorded(s: System) {
    |s.log| + 1 == |s.world.history| && forall k | 0 <= k < |s.log| :: PublishesOnRead(s.world, k, s.log[k].client)
  }

  lemma PublishesOnReadLater(w: World, w': World, k: nat, c: Client)
    requires PublishesOnRead(w, k, c) && Sane(w') && Grows(w.store, w'.store) && w.history <= w'.history
    ensures PublishesOnRead(w', k, c)
  {
    hide PerformAll;
    hide Landing;
    hide KeepsTables;
    hide View;
    var read, parent, child := ReadPointers(w.history[c.origin]), ReadPointers(w.history[k]), ReadPointers(w.history[k + 1]);
    GrowsKeepsView(w.store, w'.store, read);
    GrowsKeepsView(w.store, w'.store, child);
    KeepsGrow(w.store, w'.store, parent, child);
    KeepsGrow(w.store, w'.store, parent, read);
  }

  /** Unless the catalog was changed directly, what is published is the intents alone. */
  lemma OnlyIntents(w: World, c: Client)
    requires w.history != [] && c.pc.Applying? && c.pc.next == |c.tx.intents| && Accounts(c) && Blocked(w, c)
    requires Fresh(w, c)
    ensures c.ops == c.startOps + c.tx.intents
    ensures !c.direct || c.tx.unmanaged == {} ==> c.ops == c.tx.intents
    ensures Attempt(c) > 0 ==> c.tx.unmanaged == {}
  {
    assert c.tx.intents[..|c.tx.intents|] == c.tx.intents;
    assert Appliable(c.tx.intents[|c.tx.intents|..], Names(c));
    if c.startOps == [] {
      assert [] + c.tx.intents == c.tx.intents;
    }
  }

  lemma NewRecord(s: System, e: Event)
    requires AllRefine(s) && FinalInv(s) && Publishes(s, e) && Sane(Step(s, e).world)
    requires Accounts(s.clients[e.writer]) && Blocked(s.world, s.clients[e.writer])
    ensures |Step(s, e).world.history| == |s.world.history| + 1
    ensures PublishesOnRead(Step(s, e).world, |s.world.history| - 1, s.clients[e.writer])
  {
    hide Tracked;
    hide Refines;
    hide Accounts;
    hide Blocked;
    hide FinalInv;
    hide DoPublish;
    hide PublishesOnRead;
    hide NoneOwn;
    var c := s.clients[e.writer];
    assert Backed(s.world, e.writer, c);
    OnlyPublishingMovesTheBranch(s.world, c, e);
    TrackedWriter(s.world, e.writer, c);
    TipIsForeign(s, e.writer, c.tx.catalog);
    PublishRecords(s.world, e.writer, c, Step(s, e).world);
  }

  lemma TrackedWriter(w: World, writer: nat, c: Client)
    requires Tracked(w, writer, c)
    ensures c.tx.catalog.writer == writer && Valid(w.store, c.tx.catalog)
  {}

  lemma PublishRecords(w: World, writer: nat, c: Client, w': World)
    requires Backed(w, writer, c) && Accounts(c) && Blocked(w, c) && Sane(w')
    requires c.pc.Applying? && c.pc.next == |c.tx.intents| && DoPublish(w, c).published && w' == DoPublish(w, c).world
    requires forall name | name in ReadPointers(Tip(w.history)) ::
               NoneOwn(Chain(w.store, ReadPointers(Tip(w.history))[name]), c.tx.catalog)
    ensures |w'.history| == |w.history| + 1 && PublishesOnRead(w', |w.history| - 1, c)
  {
    hide DoPublish;
    hide Refines;
    hide Accounts;
    hide Blocked;
    hide PublishesOnRead;
    hide NoneOwn;
    hide KeepsTables;
    hide Landing;
    TrackedCommit(w, writer, c);
    OnlyIntents(w, c);
    OverlayKeepsIff(w.store, c.tx.catalog, ReadPointers(Tip(w.history)));
    RecordLanded(w, c, w');
  }

  lemma RecordLanded(w: World, c: Client, w': World)
    requires Sane(w) && Sane(w') && w'.store == w.store
    requires c.origin < |w.history| && c.tx.catalog.pointers == ReadPointers(w.history[c.origin])
    requires Resolves(w.store, CurrentPointers(c.tx.catalog)) && Refines(w, c)
    requires w'.history == w.history + [Landing(Tip(w.history), c.tx.session, CommitMetadata(CurrentPointers(c.tx.catalog)))]
    requires c.ops == c.startOps + c.tx.intents && (!c.direct || c.tx.unmanaged == {} ==> c.ops == c.tx.intents)
    requires Attempt(c) > 0 ==> c.tx.unmanaged == {}
    requires KeepsTables(w.store, ReadPointers(Tip(w.history)), CurrentPointers(c.tx.catalog))
             <==> KeepsTables(w.store, ReadPointers(Tip(w.history)), c.tx.catalog.pointers)
    ensures PublishesOnRead(w', |w.history| - 1, c)
  {
    hide PerformAll;
    hide View;
    hide KeepsTables;
    hide Overlay;
    assert w'.history[|w.history| - 1] == Tip(w.history) && w'.history[c.origin] == w.history[c.origin];
    LandingLands(Tip(w.history), c.tx.session, CurrentPointers(c.tx.catalog));
  }

  lemma StepRecorded(s: System, e: Event)
    requires AllRefine(s) && FinalInv(s) && Recorded(s) && Orderly(Step(s, e))
    requires forall writer | writer in s.clients :: Accounts(s.clients[writer]) && Blocked(s.world, s.clients[writer])
    ensures Recorded(Step(s, e))
  {
    hide Step;
    hide PublishesOnRead;
    hide Backed;
    hide Tracked;
    hide Accounts;
    hide Blocked;
    hide FinalInv;
    var s' := Step(s, e);
    StepOrderly(s, e);
    if Publishes(s, e) {
      StepPublishes(s, e);
      NewRecord(s, e);
    } else {
      StepPublishesNothing(s, e);
    }
    forall k | 0 <= k < |s'.log| ensures PublishesOnRead(s'.world, k, s'.log[k].client) {
      if k < |s.log| {
        PublishesOnReadLater(s.world, s'.world, k, s.log[k].client);
      }
    }
  }

  lemma {:induction false} AlwaysRefines(events: seq<Event>)
    ensures AllRefine(RunOf(events))
  {
    hide Step;
    hide Orderly;
    hide Backed;
    AlwaysOrderly(events);
    if events == [] {
      assert RunOf(events) == INITIAL_SYSTEM;
    } else {
      var s, e := RunOf(events[..|events| - 1]), events[|events| - 1];
      AlwaysRefines(events[..|events| - 1]);
      forall writer | writer in RunOf(events).clients
        ensures Backed(RunOf(events).world, writer, RunOf(events).clients[writer])
      {
        RefinesAfter(s, e, writer);
      }
    }
  }

  lemma {:induction false} AlwaysRecorded(events: seq<Event>)
    ensures Recorded(RunOf(events))
  {
    hide Step;
    hide PublishesOnRead;
    hide AllRefine;
    hide FinalInv;
    hide Accounts;
    hide Blocked;
    if events == [] {
      assert RunOf(events) == INITIAL_SYSTEM;
    } else {
      var before := events[..|events| - 1];
      AlwaysRecorded(before);
      AlwaysRefines(before);
      AlwaysAccounted(before);
      AlwaysFound(before);
      RunFinal(before);
      AlwaysOrderly(events);
      StepRecorded(RunOf(before), events[|events| - 1]);
    }
  }

  /**
   * Every publication of every run, whoever lands inside a recovery: the intents once each,
   * in order, on the snapshot that was read; and the parent's table versions are kept if
   * and only if that snapshot has them, at the same or a later version.
   */
  lemma EveryPublication(events: seq<Event>, k: nat)
    requires k < |RunOf(events).log|
    ensures PublishesOnRead(RunOf(events).world, k, RunOf(events).log[k].client)
  {
    hide Step;
    hide PublishesOnRead;
    AlwaysRecorded(events);
  }
}
