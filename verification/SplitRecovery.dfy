/**
 * Why recovery has to be atomic. Nothing in the code ties the tip whose pointers
 * `_recover` reads to the tip its rebase reaches; this is what happens when another
 * commit lands in between, and exactly when it does no harm.
 */
module SplitRecovery {
  import opened Options
  import opened Tables
  import opened Catalogs
  import opened Icechunk
  import opened Intents
  import opened Transactions
  import opened Protocol
  import opened Invariants
  import opened AnyRun
  import opened SystemInvariant
  import opened Abandoned
  import opened Publications

  // -- in pinned runs every snapshot keeps its parent's tables ---------------------------

  lemma PublishKeeps(w: World, writer: nat, c: Client, w': World)
    requires Sane(w) && Basic(w, writer, c) && c.pc.Applying? && DoPublish(w, c).published
    requires w' == DoPublish(w, c).world && Sane(w')
    ensures |w'.history| == |w.history| + 1 && LastKept(w')
  {
    hide DoPublish;
    hide Valid;
    hide Landing;
    hide GoodStore;
    PublishedCommit(w, writer, c);
    OverlayKeeps(w.store, c.tx.catalog);
  }

  ghost predicate LastKept(w: World) {
    && Sane(w) && |w.history| > 1
    && KeepsTables(w.store, ReadPointers(w.history[|w.history| - 2]), ReadPointers(w.history[|w.history| - 1]))
  }

  lemma StepKeepsTables(s: System, e: Event)
    requires Inv(s) && Publishes(s, e) && Sane(Step(s, e).world)
    ensures |Step(s, e).world.history| == |s.world.history| + 1 && LastKept(Step(s, e).world)
  {
    assert ClientInv(s.world, e.writer, s.clients[e.writer]);
    OnlyPublishingMovesTheBranch(s.world, s.clients[e.writer], e);
    PublishKeeps(s.world, e.writer, s.clients[e.writer], Step(s, e).world);
  }

  lemma {:induction false} ParentKept(events: seq<Event>, k: nat)
    requires Pinned(events) && k + 1 < |RunOf(events).world.history|
    ensures var w := RunOf(events).world;
            && Resolves(w.store, ReadPointers(w.history[k])) && Resolves(w.store, ReadPointers(w.history[k + 1]))
            && KeepsTables(w.store, ReadPointers(w.history[k]), ReadPointers(w.history[k + 1]))
  {
    if events != [] {
      var before, e := events[..|events| - 1], events[|events| - 1];
      var s := RunOf(before);
      Reachable(before);
      StepGrows(s, e);
      if k + 1 < |s.world.history| {
        ParentKept(before, k);
        KeepsGrow(s.world.store, RunOf(events).world.store, ReadPointers(s.world.history[k]), ReadPointers(s.world.history[k + 1]));
      } else if Publishes(s, e) {
        Reachable(events);
        StepKeepsTables(s, e);
      } else {
        StepPublishesNothing(s, e);
      }
    }
  }

  ghost predicate Chained(w: World) {
    && Sane(w)
    && (forall k | 0 < k < |w.history| :: KeepsTables(w.store, ReadPointers(w.history[k - 1]), ReadPointers(w.history[k])))
  }

  lemma RunChained(events: seq<Event>)
    requires Pinned(events)
    ensures Chained(RunOf(events).world)
  {
    hide KeepsTables;
    hide Step;
    AlwaysOrderly(events);
    var w := RunOf(events).world;
    forall k | 0 < k < |w.history|
      ensures KeepsTables(w.store, ReadPointers(w.history[k - 1]), ReadPointers(w.history[k]))
    {
      ParentKept(events, k - 1);
    }
  }

  /** Each table's version was built on its version in every earlier snapshot. */
  lemma {:induction false} EarlierKept(w: World, i: nat, j: nat)
    requires Chained(w) && i <= j < |w.history|
    ensures KeepsTables(w.store, ReadPointers(w.history[i]), ReadPointers(w.history[j]))
    decreases j
  {
    if i < j {
      EarlierKept(w, i, j - 1);
      KeepsTransitive(w.store, ReadPointers(w.history[i]), ReadPointers(w.history[j - 1]), ReadPointers(w.history[j]));
    }
  }

  lemma TipKeepsEarlier(w: World, i: nat)
    requires Chained(w) && i < |w.history|
    ensures KeepsTables(w.store, ReadPointers(w.history[i]), ReadPointers(Tip(w.history)))
  {
    EarlierKept(w, i, |w.history| - 1);
  }

  /** In every run the branch keeps all table versions exactly when each publication read a snapshot that has its parent's. */
  lemma BranchKeepsTablesIff(events: seq<Event>)
    ensures var s := RunOf(events);
            && Sane(s.world) && |s.log| + 1 == |s.world.history|
            && (forall k | 0 <= k < |s.log| :: s.log[k].client.origin <= k)
            && (Chained(s.world) <==>
                  forall k | 0 <= k < |s.log| ::
                    KeepsTables(s.world.store, ReadPointers(s.world.history[k]),
                                ReadPointers(s.world.history[s.log[k].client.origin])))
  {
    hide Step;
    hide KeepsTables;
    hide PerformAll;
    hide View;
    hide Landing;
    AlwaysOrderly(events);
    var s := RunOf(events);
    forall k | 0 <= k < |s.log| ensures PublishesOnRead(s.world, k, s.log[k].client) {
      EveryPublication(events, k);
    }
    if Chained(s.world) {
      forall k | 0 <= k < |s.log|
        ensures KeepsTables(s.world.store, ReadPointers(s.world.history[k]), ReadPointers(s.world.history[s.log[k].client.origin]))
      {
        assert PublishesOnRead(s.world, k, s.log[k].client);
        assert KeepsTables(s.world.store, ReadPointers(s.world.history[k + 1 - 1]), ReadPointers(s.world.history[k + 1]));
      }
    }
    if forall k | 0 <= k < |s.log| ::
         KeepsTables(s.world.store, ReadPointers(s.world.history[k]), ReadPointers(s.world.history[s.log[k].client.origin])) {
      forall k | 0 < k < |s.world.history|
        ensures KeepsTables(s.world.store, ReadPointers(s.world.history[k - 1]), ReadPointers(s.world.history[k]))
      {
        assert PublishesOnRead(s.world, k - 1, s.log[k - 1].client);
      }
    }
  }

  // -- a split recovery ---------------------------------------------------------------------

  lemma SameEnd(st: Store, a: Location, b: Location)
    requires a in st.files && b in st.files && Chain(st, a) <= Chain(st, b) <= Chain(st, a)
    ensures a == b
  {
    assert Chain(st, a)[|Chain(st, a)| - 1] == a;
    assert Chain(st, b)[|Chain(st, b)| - 1] == b;
  }

  /** Two snapshots that keep each other's tables have the same pointers. */
  lemma KeepsBoth(st: Store, pointers: Pointers, later: Pointers)
    requires Resolves(st, pointers) && Resolves(st, later)
    requires KeepsTables(st, pointers, later) && KeepsTables(st, later, pointers)
    ensures pointers == later
  {
    forall name | name in pointers ensures name in later && pointers[name] == later[name] {
      SameEnd(st, pointers[name], later[name]);
    }
    assert pointers.Keys == later.Keys;
  }

  /** The transaction after a recovery that succeeded, with all its intents applied again. */
  function Replayed(w: World, c: Client): Applied {
    ApplyAll(w.store, c.tx.catalog, c.tx.intents)
  }

  lemma AdoptedWhat(w: World, c: Client, solvable: bool)
    requires Shape(w, c) && c.pc.Adopting? && DoFinish(w, c, solvable).pc.Applying?
    ensures var c' := DoFinish(w, c, solvable);
            && c'.tx.catalog == RebasedOnto(c.tx.catalog, ReadPointers(w.history[c.pc.read]))
            && c'.tx.intents == c.tx.intents && c'.tx.session.base == |w.history| - 1
            && c'.pc == Applying(c.pc.attempt + 1, 0) && Orphaned(c.tx) == {}
  {}

  lemma AdoptedValid(w: World, writer: nat, c: Client, solvable: bool)
    requires Sane(w) && Tracked(w, writer, c) && Shape(w, c) && c.pc.Adopting? && DoFinish(w, c, solvable).pc.Applying?
    ensures var c' := DoFinish(w, c, solvable);
            && Valid(w.store, c'.tx.catalog) && c'.tx.catalog.writer == writer
            && c'.tx.catalog.pointers == CurrentPointers(c'.tx.catalog) == ReadPointers(w.history[c.pc.read])
            && c'.tx.intents == c.tx.intents && c'.tx.session.base == |w.history| - 1
            && c'.pc == Applying(c.pc.attempt + 1, 0) && c.tx.unmanaged == {}
  {
    hide DoFinish;
    AdoptedWhat(w, c, solvable);
    ValidRebased(w.store, c.tx.catalog, ReadPointers(w.history[c.pc.read]));
    assert c.tx.unmanaged <= Orphaned(c.tx);
    assert DoFinish(w, c, solvable).tx.catalog.staged == map[];
  }

  lemma RetryPublishes(history: seq<Commit>, tx: Tx, attempt: nat)
    requires history != [] && attempt > 0 && tx.session.base == |history| - 1
    ensures TryPublish(history, tx, attempt)
         == Published(history + [Landing(Tip(history), tx.session, CommitMetadata(CurrentPointers(tx.catalog)))])
  {}

  /**
   * What becomes of a transaction that recovers from the snapshot it read and then tries
   * again before anyone else lands: it publishes if and only if its intents find their
   * tables in the snapshot it read; the new snapshot shows them performed on that one's
   * tables, whatever its parent holds; and it keeps its parent's tables if and only if the
   * snapshot it read has them.
   */
  ghost predicate ReplaysWhatItRead(w: World, read: Pointers, c: Client)
    requires w.history != [] && Resolves(w.store, read) && c.pc.Applying?
  {
    var a := Replayed(w, c);
    var tip, child := ReadPointers(Tip(w.history)), CurrentPointers(a.catalog);
    && (a.error.None? <==> Appliable(c.tx.intents, read.Keys))
    && (a.error.None? ==>
          && Resolves(w.store, tip) && Resolves(a.store, tip) && Resolves(a.store, child)
          && TryPublish(w.history, c.tx.(catalog := a.catalog), c.pc.attempt)
             == Published(w.history + [Landing(Tip(w.history), c.tx.session, CommitMetadata(child))])
          && PerformAll(View(w.store, read), c.tx.intents) == Some(View(a.store, child))
          && (KeepsTables(a.store, tip, child) <==> KeepsTables(w.store, tip, read)))
  }

  lemma ReplayOutcome(w: World, read: Pointers, c: Client)
    requires Sane(w) && Valid(w.store, c.tx.catalog) && c.tx.catalog.pointers == CurrentPointers(c.tx.catalog) == read
    requires Resolves(w.store, read) && c.pc.Applying? && c.pc.attempt > 0 && c.tx.session.base == |w.history| - 1
    requires forall name | name in ReadPointers(Tip(w.history)) ::
               NoneOwn(Chain(w.store, ReadPointers(Tip(w.history))[name]), c.tx.catalog)
    ensures ReplaysWhatItRead(w, read, c)
  {
    hide ApplyAll;
    hide PerformAll;
    hide Landing;
    hide KeepsTables;
    hide TryPublish;
    hide Valid;
    var a := Replayed(w, c);
    ApplyAllContinues(w.store, c.tx.catalog, c.tx.intents);
    if a.error.None? {
      ApplyAllRefines(w.store, c.tx.catalog, c.tx.intents);
      RetryPublishes(w.history, c.tx.(catalog := a.catalog), c.pc.attempt);
      ReplayKeepsIff(w, c.tx.catalog, a, ReadPointers(Tip(w.history)));
    }
  }

  lemma ReplayKeepsIff(w: World, c: Catalog, a: Applied, tip: Pointers)
    requires Continues(w.store, c, a.store, a.catalog) && Resolves(w.store, tip) && Resolves(w.store, c.pointers)
    requires forall name | name in tip :: NoneOwn(Chain(w.store, tip[name]), c)
    ensures Resolves(a.store, tip) && Resolves(a.store, CurrentPointers(a.catalog))
    ensures KeepsTables(a.store, tip, CurrentPointers(a.catalog)) <==> KeepsTables(w.store, tip, c.pointers)
  {
    hide KeepsTables;
    KeepsGrow(w.store, a.store, tip, c.pointers);
    forall name | name in tip ensures NoneOwn(Chain(a.store, tip[name]), a.catalog) {
      assert Chain(a.store, tip[name]) == Chain(w.store, tip[name]);
    }
    OverlayKeepsIff(a.store, a.catalog, tip);
  }

  /** If the recovery succeeds, it replays what was read. */
  ghost predicate RecoversFromRead(w: World, c: Client, solvable: bool) {
    && Sane(w) && Shape(w, c) && c.pc.Adopting?
    && (DoFinish(w, c, solvable).pc.Applying? ==>
          ReplaysWhatItRead(w, ReadPointers(w.history[c.pc.read]), DoFinish(w, c, solvable)))
  }

  lemma SplitReplay(s: System, writer: nat, solvable: bool)
    requires Orderly(s) && FinalInv(s) && writer in s.clients && s.clients[writer].pc.Adopting?
    ensures RecoversFromRead(s.world, s.clients[writer], solvable)
  {
    hide DoFinish;
    hide ReplaysWhatItRead;
    hide FinalInv;
    var w, c := s.world, s.clients[writer];
    TrackedShape(w, writer, c);
    var c' := DoFinish(w, c, solvable);
    if c'.pc.Applying? {
      AdoptedValid(w, writer, c, solvable);
      TipIsForeign(s, writer, c'.tx.catalog);
      ReplayOutcome(w, ReadPointers(w.history[c.pc.read]), c');
    }
  }

  /**
   * Between reading the tip and rebasing, any number of commits may land, and others may
   * have done so in earlier recoveries. A recovery that succeeds then replays what it read,
   * and loses no table version of its parent exactly when the snapshot it read has them all.
   */
  lemma SplitRecoveryKeepsTablesIff(events: seq<Event>, writer: nat, solvable: bool)
    requires writer in RunOf(events).clients && RunOf(events).clients[writer].pc.Adopting?
    ensures RecoversFromRead(RunOf(events).world, RunOf(events).clients[writer], solvable)
  {
    hide Step;
    AlwaysOrderly(events);
    RunFinal(events);
    SplitReplay(RunOf(events), writer, solvable);
  }

  /** Where no earlier recovery was overtaken by a moved pointer, that is when the two have the same pointers. */
  lemma FirstSplitIff(events: seq<Event>, writer: nat)
    requires Pinned(events) && writer in RunOf(events).clients && RunOf(events).clients[writer].pc.Adopting?
    ensures var w, c := RunOf(events).world, RunOf(events).clients[writer];
            && Sane(w) && c.pc.read < |w.history|
            && (KeepsTables(w.store, ReadPointers(Tip(w.history)), ReadPointers(w.history[c.pc.read])) <==> ReadsLatest(w, c))
  {
    hide Step;
    AlwaysOrderly(events);
    RunChained(events);
    var w, c := RunOf(events).world, RunOf(events).clients[writer];
    var read, tip := ReadPointers(w.history[c.pc.read]), ReadPointers(Tip(w.history));
    TrackedShape(w, writer, c);
    TipKeepsEarlier(w, c.pc.read);
    if KeepsTables(w.store, tip, read) {
      KeepsBoth(w.store, read, tip);
    }
    if read == tip {
      assert KeepsTables(w.store, tip, tip);
    }
  }
}
