/**
 * What readers of the branch may rely on, over every pinned run: each published
 * snapshot is its parent with one transaction's work applied exactly once, removals
 * are snapshot isolated, and nothing published ever changes or depends on an
 * abandoned attempt.
 */
module Guarantees {
  import opened Options
  import opened Catalogs
  import opened Icechunk
  import opened Intents
  import opened Transactions
  import opened Protocol
  import opened Invariants
  import opened AnyRun
  import opened Replay
  import opened Isolation
  import opened SystemInvariant

  // -- the log of publications ---------------------------------------------------------------

  /** Removals of a publication against the pointers of its parent snapshot. */
  ghost predicate RemovalsIsolated(st: Store, parent: Pointers, c: Client)
    requires Resolves(st, parent)
  {
    forall i | 0 <= i < |c.tx.intents| ::
      var intent := c.tx.intents[i];
      intent.Removes() && intent.name in parent ==>
        NothingAddedSince(st, parent, intent.name, intent.filter, Get(c.tx.bases, intent.name))
  }

  /** Snapshot `k + 1` is snapshot `k` with one publication's table work and array changes. */
  ghost predicate Records(w: World, k: nat, c: Client)
    requires Sane(w) && k + 1 < |w.history|
  {
    var parent, child := w.history[k], w.history[k + 1];
    && PerformAll(View(w.store, ReadPointers(parent)), c.ops) == Some(View(w.store, ReadPointers(child)))
    && Lands(parent, c.tx.session, ReadPointers(child), child)
    && c.ops == c.startOps + c.tx.intents
    && (!c.direct ==> c.ops == c.tx.intents)
    && (Attempt(c) > 0 ==> c.tx.unmanaged == {})
    && (c.tx.unmanaged == {} ==> c.ops == c.tx.intents && RemovalsIsolated(w.store, ReadPointers(parent), c))
  }

  ghost predicate LogEntry(s: System, k: nat)
    requires Sane(s.world) && k < |s.log| && |s.log| + 1 == |s.world.history|
  {
    && Records(s.world, k, s.log[k].client)
    && s.log[k].writer in s.clients
    && s.clients[s.log[k].writer].pc == Done(k + 1)
  }

  ghost predicate LogInv(s: System)
    requires Sane(s.world)
  {
    && |s.log| + 1 == |s.world.history|
    && (forall k | 0 <= k < |s.log| :: LogEntry(s, k))
  }

  lemma RemovalsGrow(st: Store, st': Store, parent: Pointers, c: Client)
    requires Resolves(st, parent) && Grows(st, st') && RemovalsIsolated(st, parent, c)
    ensures Resolves(st', parent) && RemovalsIsolated(st', parent, c)
  {}

  lemma RecordsStable(w: World, w': World, k: nat, c: Client)
    requires Sane(w) && Sane(w') && Grows(w.store, w'.store) && w.history <= w'.history
    requires k + 1 < |w.history| && Records(w, k, c)
    ensures Records(w', k, c)
  {
    GrowsKeepsView(w.store, w'.store, ReadPointers(w.history[k]));
    GrowsKeepsView(w.store, w'.store, ReadPointers(w.history[k + 1]));
    if c.tx.unmanaged == {} {
      RemovalsGrow(w.store, w'.store, ReadPointers(w.history[k]), c);
    }
  }

  lemma IsolatedNow(w: World, writer: nat, c: Client)
    requires Sane(w) && Basic(w, writer, c) && Iso(w, c) && Fresh(w, c) && InCommit(c) && c.tx.unmanaged == {}
    ensures RemovalsIsolated(w.store, c.tx.catalog.pointers, c)
  {
    forall i | 0 <= i < |c.tx.intents|
      ensures c.tx.intents[i].Removes() && c.tx.intents[i].name in c.tx.catalog.pointers ==>
                NothingAddedSince(w.store, c.tx.catalog.pointers, c.tx.intents[i].name, c.tx.intents[i].filter,
                             Get(c.tx.bases, c.tx.intents[i].name))
    {
      assert RemovalIsolated(w, c, i);
    }
  }

  /** What publication publishes, before looking at the snapshot it makes. */
  lemma Publishable(w: World, writer: nat, c: Client)
    requires WorldInv(w) && ClientInv(w, writer, c)
    requires c.pc.Applying? && c.pc.next == |c.tx.intents| && DoPublish(w, c).published
    ensures c.ops == c.startOps + c.tx.intents && (!c.direct ==> c.ops == c.tx.intents)
    ensures Attempt(c) > 0 ==> c.tx.unmanaged == {}
    ensures c.tx.unmanaged == {} ==> c.ops == c.tx.intents && RemovalsIsolated(w.store, c.tx.catalog.pointers, c)
  {
    PublishedCommit(w, writer, c);
    PublishedOps(w, writer, c);
    if c.tx.unmanaged == {} {
      AllApplied(w, writer, c);
      IsolatedNow(w, writer, c);
    }
  }

  lemma RecordsNew(w: World, writer: nat, c: Client)
    requires WorldInv(w) && ClientInv(w, writer, c)
    requires c.pc.Applying? && c.pc.next == |c.tx.intents| && DoPublish(w, c).published
    requires Sane(DoPublish(w, c).world)
    ensures |DoPublish(w, c).world.history| == |w.history| + 1
    ensures Records(DoPublish(w, c).world, |w.history| - 1, c)
  {
    Publishable(w, writer, c);
    RecordsPublish(w, writer, c, DoPublish(w, c).world);
  }

  lemma RecordsPublish(w: World, writer: nat, c: Client, w': World)
    requires Sane(w) && Basic(w, writer, c) && Refines(w, c) && Sane(w')
    requires c.pc.Applying? && DoPublish(w, c).published && w' == DoPublish(w, c).world
    requires c.ops == c.startOps + c.tx.intents && (!c.direct ==> c.ops == c.tx.intents)
    requires Attempt(c) > 0 ==> c.tx.unmanaged == {}
    requires c.tx.unmanaged == {} ==> c.ops == c.tx.intents && RemovalsIsolated(w.store, c.tx.catalog.pointers, c)
    ensures |w'.history| == |w.history| + 1 && Records(w', |w.history| - 1, c)
  {
    PublishedCommit(w, writer, c);
    RecordsLanding(w, w', c);
  }

  lemma RecordsLanding(w: World, w': World, c: Client)
    requires Sane(w) && Sane(w') && w'.store == w.store
    requires c.tx.catalog.pointers == ReadPointers(Tip(w.history)) && Resolves(w.store, CurrentPointers(c.tx.catalog))
    requires w'.history == w.history + [Landing(Tip(w.history), c.tx.session, CommitMetadata(CurrentPointers(c.tx.catalog)))]
    requires Refines(w, c) && c.ops == c.startOps + c.tx.intents && (!c.direct ==> c.ops == c.tx.intents)
    requires Attempt(c) > 0 ==> c.tx.unmanaged == {}
    requires c.tx.unmanaged == {} ==> c.ops == c.tx.intents && RemovalsIsolated(w.store, c.tx.catalog.pointers, c)
    ensures Records(w', |w.history| - 1, c)
  {
    assert w'.history[|w.history| - 1] == Tip(w.history);
    LandingLands(Tip(w.history), c.tx.session, CurrentPointers(c.tx.catalog));
  }

  lemma OldEntry(s: System, e: Event, k: nat)
    requires Inv(s) && LogInv(s) && PinnedAt(s, e) && k < |s.log|
    requires Sane(Step(s, e).world) && |Step(s, e).log| + 1 == |Step(s, e).world.history|
    requires s.log <= Step(s, e).log
    ensures LogEntry(Step(s, e), k)
  {
    StepGrows(s, e);
    assert LogEntry(s, k);
    RecordsStable(s.world, Step(s, e).world, k, s.log[k].client);
    DoneRemains(s, e, s.log[k].writer);
  }

  lemma NewEntry(s: System, e: Event)
    requires Inv(s) && LogInv(s) && PinnedAt(s, e) && Publishes(s, e)
    requires Sane(Step(s, e).world) && |Step(s, e).log| + 1 == |Step(s, e).world.history|
    requires Step(s, e).log == s.log + [Publication(e.writer, s.clients[e.writer])]
    requires e.writer in Step(s, e).clients && Step(s, e).clients[e.writer].pc == Done(|s.world.history|)
    ensures LogEntry(Step(s, e), |s.log|)
  {
    OnlyPublishingMovesTheBranch(s.world, s.clients[e.writer], e);
    RecordsNew(s.world, e.writer, s.clients[e.writer]);
  }

  lemma LogFrom(s: System, n: nat)
    requires Sane(s.world) && |s.log| + 1 == |s.world.history| && n <= |s.log| <= n + 1
    requires forall k | 0 <= k < n :: LogEntry(s, k)
    requires |s.log| == n + 1 ==> LogEntry(s, n)
    ensures LogInv(s)
  {}

  lemma OldEntries(s: System, e: Event)
    requires Inv(s) && LogInv(s) && PinnedAt(s, e)
    requires Sane(Step(s, e).world) && |Step(s, e).log| + 1 == |Step(s, e).world.history|
    requires s.log <= Step(s, e).log
    ensures forall k | 0 <= k < |s.log| :: LogEntry(Step(s, e), k)
  {
    forall k | 0 <= k < |s.log| ensures LogEntry(Step(s, e), k) {
      OldEntry(s, e, k);
    }
  }

  lemma LogKeeps(s: System, e: Event)
    requires Inv(s) && PinnedAt(s, e) && LogInv(s) && Inv(Step(s, e))
    ensures LogInv(Step(s, e))
  {
    if Publishes(s, e) {
      assert ClientInv(s.world, e.writer, s.clients[e.writer]);
      StepPublishes(s, e);
      OldEntries(s, e);
      NewEntry(s, e);
    } else {
      StepPublishesNothing(s, e);
      OldEntries(s, e);
    }
    LogFrom(Step(s, e), |s.log|);
  }

  /** Everything that holds in every state a pinned run reaches. */
  ghost predicate FullInv(s: System) {
    Inv(s) && LogInv(s)
  }

  lemma {:induction false} RunInv(events: seq<Event>)
    requires Pinned(events)
    ensures FullInv(RunOf(events))
  {
    if events == [] {
      InitialInv();
    } else {
      RunInv(events[..|events| - 1]);
      var s, e := RunOf(events[..|events| - 1]), events[|events| - 1];
      StepKeeps(s, e);
      LogKeeps(s, e);
    }
  }
}
