/** The invariant of the whole system: every client's invariants, and the branch's own. */
module SystemInvariant {
  import opened Tables
  import opened Catalogs
  import opened Icechunk
  import opened Transactions
  import opened Protocol
  import opened Invariants
  import opened AnyRun
  import opened Replay
  import opened Isolation
  import opened Declarations

  ghost predicate ClientInv(w: World, writer: nat, c: Client)
    requires Sane(w)
  {
    && Basic(w, writer, c)
    && Refines(w, c)
    && Books(c)
    && Blocked(w, c)
    && Iso(w, c)
    && SessionDeclares(w, c)
  }

  ghost predicate WorldInv(w: World) {
    Lineage(w) && AllDeclare(w.history) && w.history[0] == INITIAL
  }

  ghost predicate Inv(s: System) {
    && WorldInv(s.world)
    && (forall writer | writer in s.clients :: ClientInv(s.world, writer, s.clients[writer]))
  }

  // -- the branch ------------------------------------------------------------------------

  /** New files change nothing about the snapshots that are there. */
  lemma LineageGrows(w: World, w': World)
    requires Lineage(w) && Sane(w') && Grows(w.store, w'.store) && w'.history == w.history
    ensures Lineage(w')
  {
    forall i, j | 0 <= i <= j < |w.history|
      ensures PointersExtend(w'.store, ReadPointers(w.history[i]), ReadPointers(w.history[j]))
    {
      GrowsKeepsExtend(w.store, w'.store, ReadPointers(w.history[i]), ReadPointers(w.history[j]));
    }
  }

  lemma SelfExtend(st: Store, pointers: Pointers)
    requires GoodStore(st) && Resolves(st, pointers)
    ensures PointersExtend(st, pointers, pointers)
  {
    forall name | name in pointers ensures Extends(st.files[pointers[name]], st.files[pointers[name]]) {
      ExtendsReflexive(st.files[pointers[name]]);
    }
  }

  lemma LineageAdd(w: World, snapshot: Commit, i: nat)
    requires Lineage(w) && i <= |w.history|
    requires Resolves(w.store, ReadPointers(snapshot))
    requires PointersExtend(w.store, ReadPointers(Tip(w.history)), ReadPointers(snapshot))
    ensures Resolves(w.store, ReadPointers((w.history + [snapshot])[i]))
    ensures PointersExtend(w.store, ReadPointers((w.history + [snapshot])[i]), ReadPointers(snapshot))
  {
    if i == |w.history| {
      SelfExtend(w.store, ReadPointers(snapshot));
    } else {
      PointersExtendTransitive(w.store, ReadPointers(w.history[i]), ReadPointers(Tip(w.history)), ReadPointers(snapshot));
    }
  }

  lemma LineageAfter(w: World, snapshot: Commit)
    requires Lineage(w) && Resolves(w.store, ReadPointers(snapshot))
    requires PointersExtend(w.store, ReadPointers(Tip(w.history)), ReadPointers(snapshot))
    ensures Lineage(World(w.store, w.history + [snapshot]))
  {
    var history := w.history + [snapshot];
    forall i, j | 0 <= i <= j < |history|
      ensures Resolves(w.store, ReadPointers(history[i])) && Resolves(w.store, ReadPointers(history[j]))
      ensures PointersExtend(w.store, ReadPointers(history[i]), ReadPointers(history[j]))
    {
      if j == |w.history| {
        LineageAdd(w, snapshot, i);
      } else {
        assert history[i] == w.history[i] && history[j] == w.history[j];
        assert PointersExtend(w.store, ReadPointers(w.history[i]), ReadPointers(w.history[j]));
      }
    }
    assert forall i | 0 <= i < |history| :: Resolves(w.store, ReadPointers(history[i]));
  }

  /** A snapshot published on the tip extends every earlier one. */
  lemma LineagePublish(w: World, writer: nat, c: Client)
    requires Lineage(w) && Basic(w, writer, c) && c.pc.Applying? && DoPublish(w, c).published
    ensures Lineage(DoPublish(w, c).world)
  {
    hide DoPublish;
    hide Valid;
    hide Overlay;
    hide PointersExtend;
    PublishedCommit(w, writer, c);
    OverlayExtends(w.store, c.tx.catalog);
    var snapshot := Landing(Tip(w.history), c.tx.session, CommitMetadata(CurrentPointers(c.tx.catalog)));
    assert DoPublish(w, c).world == World(w.store, w.history + [snapshot]);
    assert ReadPointers(snapshot) == CurrentPointers(c.tx.catalog);
    assert ReadPointers(Tip(w.history)) == c.tx.catalog.pointers;
    LineageAfter(w, snapshot);
  }

  lemma WorldActs(w: World, writer: nat, c: Client, e: Event)
    requires WorldInv(w) && ClientInv(w, writer, c) && Shape(w, c)
    requires e.FinishRecover? && c.pc.Adopting? ==> ReadsLatest(w, c)
    ensures WorldInv(Act(w, c, e).world)
  {
    BasicActs(w, writer, c, e);
    OnlyPublishingMovesTheBranch(w, c, e);
    var a := Act(w, c, e);
    if a.published {
      LineagePublish(w, writer, c);
      DeclaresPublish(w, writer, c);
    } else {
      LineageGrows(w, a.world);
    }
  }

  // -- one step -----------------------------------------------------------------------------

  lemma OwnStep(w: World, writer: nat, c: Client, e: Event)
    requires WorldInv(w) && ClientInv(w, writer, c) && Shape(w, c)
    requires e.FinishRecover? && c.pc.Adopting? ==> ReadsLatest(w, c)
    ensures var a := Act(w, c, e); Evolves(w, a.world, writer) && Sane(a.world) && ClientInv(a.world, writer, a.client)
  {
    BasicActs(w, writer, c, e);
    RefinesActs(w, writer, c, e);
    BooksActs(w, writer, c, e);
    IsoActs(w, writer, c, e);
    DeclaresActs(w, writer, c, e);
  }

  lemma OtherStep(w: World, w': World, other: nat, writer: nat, c: Client)
    requires Sane(w) && Sane(w') && ClientInv(w, writer, c) && Evolves(w, w', other) && other != writer
    ensures ClientInv(w', writer, c)
  {
    BasicStable(w, w', other, writer, c);
    ReplayStable(w, w', other, writer, c);
    IsoStable(w, w', other, writer, c);
  }

  lemma OpenedInv(w: World, writer: nat, base: nat, maxRetries: int)
    requires WorldInv(w) && base < |w.history| && !Used(w.store, writer)
    ensures ClientInv(w, writer, Opened(w.history, writer, base, maxRetries))
  {
    NothingStaged(w, Opened(w.history, writer, base, maxRetries));
  }

  lemma OpenKeeps(s: System, e: Event)
    requires Inv(s) && e.Open?
    ensures Inv(Step(s, e))
  {
    if e.writer !in s.clients && !Used(s.world.store, e.writer) && e.base < |s.world.history| {
      OpenedInv(s.world, e.writer, e.base, e.maxRetries);
      InvWith(s, s.world, e.writer, Opened(s.world.history, e.writer, e.base, e.maxRetries), s.log);
    }
  }

  /** One client changed, the others kept. */
  lemma InvWith(s: System, w: World, writer: nat, c: Client, log: seq<Publication>)
    requires WorldInv(w) && ClientInv(w, writer, c)
    requires forall other | other in s.clients && other != writer :: ClientInv(w, other, s.clients[other])
    ensures Inv(System(w, s.clients[writer := c], log))
  {
    var clients := s.clients[writer := c];
    forall other | other in clients ensures ClientInv(w, other, clients[other]) {
      if other != writer {
        assert clients[other] == s.clients[other];
      }
    }
  }

  lemma ActKeeps(s: System, e: Event)
    requires Inv(s) && PinnedAt(s, e) && e.writer in s.clients && Shape(s.world, s.clients[e.writer])
    ensures var a := Act(s.world, s.clients[e.writer], e);
            && WorldInv(a.world) && Evolves(s.world, a.world, e.writer)
            && ClientInv(a.world, e.writer, a.client)
            && (forall writer | writer in s.clients && writer != e.writer :: ClientInv(a.world, writer, s.clients[writer]))
  {
    var c := s.clients[e.writer];
    OwnStep(s.world, e.writer, c, e);
    WorldActs(s.world, e.writer, c, e);
    forall writer | writer in s.clients && writer != e.writer
      ensures ClientInv(Act(s.world, c, e).world, writer, s.clients[writer])
    {
      OtherStep(s.world, Act(s.world, c, e).world, e.writer, writer, s.clients[writer]);
    }
  }

  /** Every step keeps the invariant, as long as rebases go to a snapshot with the pointers that were read. */
  lemma StepKeeps(s: System, e: Event)
    requires Inv(s) && PinnedAt(s, e)
    ensures Inv(Step(s, e))
  {
    hide Act;
    if e.Open? {
      OpenKeeps(s, e);
    } else if e.writer in s.clients {
      BasicShape(s.world, e.writer, s.clients[e.writer]);
      ActKeeps(s, e);
      var a := Act(s.world, s.clients[e.writer], e);
      InvWith(s, a.world, e.writer, a.client, Step(s, e).log);
    }
  }

  lemma InitialInv()
    ensures Inv(INITIAL_SYSTEM)
  {}

  /** The invariant holds in every state any interleaving reaches. */
  lemma {:induction false} Reachable(events: seq<Event>)
    requires Pinned(events)
    ensures Inv(RunOf(events))
  {
    if events == [] {
      InitialInv();
    } else {
      Reachable(events[..|events| - 1]);
      StepKeeps(RunOf(events[..|events| - 1]), events[|events| - 1]);
    }
  }

  /** Files and snapshots are only ever added. */
  lemma StepGrows(s: System, e: Event)
    requires Inv(s) && PinnedAt(s, e)
    ensures Grows(s.world.store, Step(s, e).world.store) && s.world.history <= Step(s, e).world.history
  {
    if !e.Open? && e.writer in s.clients {
      BasicShape(s.world, e.writer, s.clients[e.writer]);
      BasicActs(s.world, e.writer, s.clients[e.writer], e);
    }
  }
}
