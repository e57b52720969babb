/**
 * What every run keeps of a transaction's own books: what is staged, what was captured, and
 * what a failed `commit` leaves behind. No recovery needs to be pinned for any of it.
 */
module Bookkeeping {
  import opened Options
  import opened Catalogs
  import opened Errors
  import opened Icechunk
  import opened Intents
  import opened Transactions
  import opened Protocol
  import opened Invariants
  import opened AnyRun
  import opened Replay
  import opened Isolation

  // -- the account of what is staged --------------------------------------------------------

  lemma AccountsStart(c: Client)
    requires c.pc.Idle?
    ensures Accounts(DoStart(c))
  {
    assert c.tx.intents[..0] == [];
    assert DoStart(c).startOps + [] == DoStart(c).startOps;
  }

  lemma AccountsApply(w: World, c: Client)
    requires Resolves(w.store, CurrentPointers(c.tx.catalog)) && c.pc.Applying? && c.pc.next < |c.tx.intents| && Accounts(c)
    ensures Accounts(DoApply(w, c).client)
  {
    hide Apply;
    var i := c.pc.next;
    ApplyStages(w.store, c.tx.catalog, c.tx.intents[i]);
    CoveredSnoc(c.tx.intents, i);
    assert c.startOps + c.tx.intents[..i] + [c.tx.intents[i]] == c.startOps + c.tx.intents[..i + 1];
  }

  lemma AccountsPublish(w: World, writer: nat, c: Client)
    requires Sane(w) && Tracked(w, writer, c) && c.pc.Applying? && c.pc.next == |c.tx.intents| && Accounts(c)
    ensures Accounts(DoPublish(w, c).client)
  {
    hide DoPublish;
    hide Valid;
    if DoPublish(w, c).published { TrackedCommit(w, writer, c); } else { PublishFails(w, c); }
  }

  lemma AccountsFinish(w: World, c: Client, solvable: bool)
    requires Shape(w, c) && c.pc.Adopting?
    ensures Accounts(DoFinish(w, c, solvable))
  {
    hide DoFinish;
    FinishKeeps(w, c, solvable);
    assert c.tx.unmanaged <= Orphaned(c.tx);
    assert c.tx.intents[..0] == [];
  }

  lemma AccountsTakes(w: World, writer: nat, c: Client, e: Event, a: Acted)
    requires Sane(w) && Tracked(w, writer, c) && Shape(w, c) && Accounts(c) && Takes(w, c, e, a)
    ensures Accounts(a.client)
  {
    hide DoApply;
    hide DoPublish;
    hide DoFinish;
    hide Apply;
    hide Covered;
    match e
    case Direct(_, _) =>
    case StartCommit(_) => AccountsStart(c);
    case ApplyNext(_) => AccountsApply(w, c);
    case Publish(_) => AccountsPublish(w, writer, c);
    case FinishRecover(_, solvable) => AccountsFinish(w, c, solvable);
  }

  lemma AccountsActs(w: World, writer: nat, c: Client, e: Event)
    requires Sane(w) && Tracked(w, writer, c) && Shape(w, c) && Accounts(c)
    ensures Accounts(Act(w, c, e).client)
  {
    hide Act;
    hide Takes;
    hide Tracked;
    hide Covered;
    if Enabled(c, e) {
      ActTakes(w, c, e);
      AccountsTakes(w, writer, c, e, Act(w, c, e));
    } else {
      ActElsewhere(w, c, e);
    }
  }

  /** A publication happens with every intent applied and the account in order. */
  ghost predicate Whole(c: Client) {
    c.pc.Applying? && c.pc.next == |c.tx.intents| && Accounts(c)
  }

  ghost predicate Accounted(s: System) {
    && Orderly(s)
    && (forall writer | writer in s.clients :: Accounts(s.clients[writer]))
    && (forall k | 0 <= k < |s.log| :: Whole(s.log[k].client))
  }

  lemma AccountsAfter(s: System, e: Event, writer: nat)
    requires Accounted(s) && writer in Step(s, e).clients
    ensures Accounts(Step(s, e).clients[writer])
  {
    hide Act;
    hide Tracked;
    hide Accounts;
    if e.writer == writer && e.Open? && writer !in s.clients {
      NothingRecorded(Step(s, e).clients[writer]);
    } else if e.writer == writer && !e.Open? && Shape(s.world, s.clients[writer]) {
      AccountsActs(s.world, writer, s.clients[writer], e);
    }
  }

  lemma NothingRecorded(c: Client)
    requires c.pc.Idle?
    ensures Accounts(c)
  {}

  lemma WholeAfter(s: System, e: Event)
    requires Accounted(s)
    ensures forall k | 0 <= k < |Step(s, e).log| :: Whole(Step(s, e).log[k].client)
  {
    hide Step;
    hide Tracked;
    hide Accounts;
    if Publishes(s, e) {
      StepPublishes(s, e);
      OnlyPublishingMovesTheBranch(s.world, s.clients[e.writer], e);
    } else {
      StepPublishesNothing(s, e);
    }
  }

  lemma StepAccounted(s: System, e: Event)
    requires Accounted(s)
    ensures Accounted(Step(s, e))
  {
    hide Step;
    hide Accounts;
    hide Whole;
    StepOrderly(s, e);
    WholeAfter(s, e);
    forall writer | writer in Step(s, e).clients ensures Accounts(Step(s, e).clients[writer]) {
      AccountsAfter(s, e, writer);
    }
  }

  lemma {:induction false} AlwaysAccounted(events: seq<Event>)
    ensures Accounted(RunOf(events))
  {
    hide Step;
    AlwaysOrderly(events);
    if events == [] {
      assert RunOf(events) == INITIAL_SYSTEM;
    } else {
      AlwaysAccounted(events[..|events| - 1]);
      StepAccounted(RunOf(events[..|events| - 1]), events[|events| - 1]);
    }
  }

  // -- nothing dropped silently ---------------------------------------------------------------

  /** Work staged outside the intents is published on the first attempt or refused: it never survives a recovery. */
  lemma DirectWorkPublishedFirst(events: seq<Event>, k: nat)
    requires k < |RunOf(events).log|
    ensures var c := RunOf(events).log[k].client;
            && c.ops == c.startOps + c.tx.intents
            && (c.tx.unmanaged != {} ==> Attempt(c) == 0)
            && (c.tx.unmanaged == {} ==> c.startOps == [] && c.ops == c.tx.intents)
  {
    hide Step;
    AlwaysAccounted(events);
    assert Whole(RunOf(events).log[k].client);
    var c := RunOf(events).log[k].client;
    if c.tx.unmanaged == {} {
      assert |c.startOps + c.tx.intents| == |c.tx.intents|;
    }
  }

  /** Recovering from the tip that was read is refused as unreplayable if and only if something unmanaged is staged. */
  ghost predicate RefusesUnmanaged(w: World, c: Client) {
    && GoodStore(w.store) && c.pc.Adopting? && c.pc.read < |w.history|
    && var error := AdoptTip(w.store, c.tx, ReadPointers(w.history[c.pc.read])).error;
    && (error.Some? && error.value.Unreplayable? <==> c.tx.unmanaged != {})
    && (c.tx.unmanaged != {} ==> error == Some(Unreplayable(c.tx.unmanaged)))
  }

  /** A recovering transaction is refused as unreplayable exactly when something was staged outside the intents. */
  lemma RecoveryRefusesExactly(events: seq<Event>, writer: nat)
    requires writer in RunOf(events).clients && RunOf(events).clients[writer].pc.Adopting?
    ensures RefusesUnmanaged(RunOf(events).world, RunOf(events).clients[writer])
  {
    hide Step;
    AlwaysAccounted(events);
    var s := RunOf(events);
    TrackedShape(s.world, writer, s.clients[writer]);
    UnreplayableExactly(s.world, s.clients[writer]);
  }

  // -- captures --------------------------------------------------------------------------------

  /** What a removal captures when it is planned on an untouched catalog: the table's snapshot at the base. */
  lemma PlanCaptures(events: seq<Event>, e: Event)
    requires e.Plan? && e.intent.Removes()
    requires var s := RunOf(events);
             && e.writer in s.clients && s.clients[e.writer].pc.Idle?
             && s.clients[e.writer].tx.catalog.staged == map[] && e.intent.name !in s.clients[e.writer].tx.bases
    ensures var s, s' := RunOf(events), Step(RunOf(events), e);
            && e.writer in s'.clients && e.intent.name in s'.clients[e.writer].tx.bases
            && s.clients[e.writer].origin < |s.world.history|
            && s'.clients[e.writer].tx.bases[e.intent.name]
               == CaptureOf(s.world.store, ReadPointers(s.world.history[s.clients[e.writer].origin]), e.intent.name)
  {
    hide Step;
    AlwaysOrderly(events);
    var s := RunOf(events);
    StepCaptures(s, e);
  }

  lemma StepCaptures(s: System, e: Event)
    requires e.Plan? && e.intent.Removes() && e.writer in s.clients
    requires Sane(s.world) && Tracked(s.world, e.writer, s.clients[e.writer])
    requires var c := s.clients[e.writer];
             c.pc.Idle? && c.tx.catalog.staged == map[] && e.intent.name !in c.tx.bases
    ensures var s', c := Step(s, e), s.clients[e.writer];
            && e.writer in s'.clients && e.intent.name in s'.clients[e.writer].tx.bases
            && c.origin < |s.world.history|
            && s'.clients[e.writer].tx.bases[e.intent.name]
               == CaptureOf(s.world.store, ReadPointers(s.world.history[c.origin]), e.intent.name)
  {
    TrackedShape(s.world, e.writer, s.clients[e.writer]);
    CaptureBases(s.world, s.clients[e.writer], e.intent.name);
  }

  /** A capture is taken once: no later step, retry or conflict moves it. */
  lemma CaptureSticks(events: seq<Event>, e: Event, writer: nat, name: string)
    requires writer in RunOf(events).clients && name in RunOf(events).clients[writer].tx.bases
    ensures var s, s' := RunOf(events), Step(RunOf(events), e);
            && writer in s'.clients && name in s'.clients[writer].tx.bases
            && s'.clients[writer].tx.bases[name] == s.clients[writer].tx.bases[name]
  {
    hide Step;
    var s := RunOf(events);
    AlwaysOrderly(events);
    assert Tracked(s.world, writer, s.clients[writer]);
    StepKeepsCapture(s, e, writer, name);
  }

  lemma StepKeepsCapture(s: System, e: Event, writer: nat, name: string)
    requires writer in s.clients && Valid(s.world.store, s.clients[writer].tx.catalog)
    requires name in s.clients[writer].tx.bases
    ensures writer in Step(s, e).clients && name in Step(s, e).clients[writer].tx.bases
    ensures Step(s, e).clients[writer].tx.bases[name] == s.clients[writer].tx.bases[name]
  {
    if e.writer == writer && !e.Open? && Shape(s.world, s.clients[writer]) {
      ActKeepsCapture(s.world, s.clients[writer], e, name);
    }
  }

  lemma ActKeepsCapture(w: World, c: Client, e: Event, name: string)
    requires Shape(w, c) && Valid(w.store, c.tx.catalog) && name in c.tx.bases
    ensures var bases := Act(w, c, e).client.tx.bases; name in bases && bases[name] == c.tx.bases[name]
  {
    if e.Plan? && c.pc.Idle? && e.intent.Removes() {
      CaptureBases(w, c, e.intent.name);
    }
  }

  // -- committing again ---------------------------------------------------------------------------

  /** Versions of a failed attempt are staged on a base that is no longer the tip. */
  ghost predicate Stranded(w: World, c: Client) {
    && Active(c) && c.tx.catalog.staged != map[] && c.tx.session.base < |w.history| - 1
    && (InCommit(c) ==> c.tx.unmanaged != {})
  }

  lemma StagedNames(staged: Pointers)
    ensures staged == map[] <==> staged.Keys == {}
  {}

  lemma StagedStays(w: World, c: Client, intent: Intent)
    requires Resolves(w.store, CurrentPointers(c.tx.catalog)) && c.tx.catalog.staged != map[]
    ensures Apply(w.store, c.tx.catalog, intent).catalog.staged != map[]
  {
    ApplyStages(w.store, c.tx.catalog, intent);
    StagedNames(c.tx.catalog.staged);
    StagedNames(Apply(w.store, c.tx.catalog, intent).catalog.staged);
  }

  lemma UnmanagedRefused(w: World, c: Client, solvable: bool)
    requires Shape(w, c) && c.pc.Adopting? && c.tx.unmanaged != {}
    ensures DoFinish(w, c, solvable) == c.(pc := Idle)
  {
    assert c.tx.unmanaged <= Orphaned(c.tx);
    assert Orphaned(c.tx) != {};
  }

  lemma StaleNeverLands(w: World, c: Client)
    requires w.history != [] && c.pc.Applying? && !Fresh(w, c)
    ensures !DoPublish(w, c).published
  {
    hide Landing;
  }

  lemma StrandedTakes(w: World, writer: nat, c: Client, e: Event, a: Acted)
    requires Sane(w) && Tracked(w, writer, c) && Shape(w, c) && Stranded(w, c) && Takes(w, c, e, a)
    ensures w.history <= a.world.history ==> Stranded(a.world, a.client)
  {
    hide DoPublish;
    hide DoFinish;
    hide Apply;
    match e
    case Direct(_, intent) => StagedStays(w, c, intent);
    case StartCommit(_) => StagedNames(c.tx.catalog.staged);
    case ApplyNext(_) => StagedStays(w, c, c.tx.intents[c.pc.next]);
    case Publish(_) =>
      StaleNeverLands(w, c);
      PublishFails(w, c);
    case FinishRecover(_, solvable) => UnmanagedRefused(w, c, solvable);
  }

  lemma StrandedActs(w: World, writer: nat, c: Client, e: Event)
    requires Sane(w) && Tracked(w, writer, c) && Shape(w, c) && Stranded(w, c)
    ensures Stranded(Act(w, c, e).world, Act(w, c, e).client)
  {
    hide Act;
    hide Takes;
    TrackedActs(w, writer, c, e);
    if Enabled(c, e) {
      ActTakes(w, c, e);
      StrandedTakes(w, writer, c, e, Act(w, c, e));
    } else {
      ActElsewhere(w, c, e);
    }
  }

  lemma StrandedStays(s: System, e: Event, writer: nat)
    requires Orderly(s) && writer in s.clients && Stranded(s.world, s.clients[writer])
    ensures writer in Step(s, e).clients && Stranded(Step(s, e).world, Step(s, e).clients[writer])
  {
    hide Act;
    hide Tracked;
    StepOrderly(s, e);
    if e.writer == writer && !e.Open? && Shape(s.world, s.clients[writer]) {
      StrandedActs(s.world, writer, s.clients[writer], e);
    }
  }

  /**
   * Versions staged on a stale base are never published: not by calling `commit` again, not
   * after any direct change to the catalog, and whatever the other transactions do.
   */
  lemma {:induction false} StrandedForever(events: seq<Event>, more: seq<Event>, writer: nat)
    requires writer in RunOf(events).clients && Stranded(RunOf(events).world, RunOf(events).clients[writer])
    ensures writer in RunOf(events + more).clients
    ensures Stranded(RunOf(events + more).world, RunOf(events + more).clients[writer])
    decreases |more|
  {
    hide Step;
    hide Orderly;
    hide Stranded;
    if more == [] {
      assert events + more == events;
    } else {
      var all := events + more;
      var before := events + more[..|more| - 1];
      assert all[..|all| - 1] == before && all[|all| - 1] == more[|more| - 1];
      StrandedForever(events, more[..|more| - 1], writer);
      AlwaysOrderly(before);
      StrandedStays(RunOf(before), more[|more| - 1], writer);
    }
  }

  lemma GivenUpIsStranded(w: World, writer: nat, c: Client, e: Event, a: Acted)
    requires Sane(w) && Tracked(w, writer, c) && Shape(w, c) && Takes(w, c, e, a) && (e.Publish? || e.FinishRecover?)
    requires a.client.pc.Idle? && a.client.tx.catalog.staged != map[]
    ensures Stranded(a.world, a.client)
  {
    hide DoPublish;
    hide DoFinish;
    hide Valid;
    if e.Publish? {
      if a.published { TrackedCommit(w, writer, c); } else { PublishFails(w, c); RefusedIsEmpty(w, c); }
    } else {
      FinishKeeps(w, c, e.solvable);
      RebasedIsEmpty(w, c, e.solvable);
    }
  }

  lemma RefusedIsEmpty(w: World, c: Client)
    requires w.history != [] && c.pc.Applying? && DoPublish(w, c).client.pc.Idle?
    ensures c.tx.catalog.staged == map[] || !Fresh(w, c)
  {
    hide Landing;
  }

  lemma RebasedIsEmpty(w: World, c: Client, solvable: bool)
    requires Shape(w, c) && c.pc.Adopting?
    ensures DoFinish(w, c, solvable).tx.catalog == c.tx.catalog || DoFinish(w, c, solvable).tx.catalog.staged == map[]
  {
    hide ValidateAll;
  }

  /**
   * A `commit` that raises at its compare-and-swap or in its recovery, and leaves versions
   * staged, has stranded them. (One that raises while applying has not: see `RepeatedCommit`.)
   */
  lemma RaisingStrands(events: seq<Event>, e: Event)
    requires (e.Publish? || e.FinishRecover?) && e.writer in RunOf(events).clients && Enabled(RunOf(events).clients[e.writer], e)
    requires var c := Step(RunOf(events), e).clients;
             e.writer in c && c[e.writer].pc.Idle? && c[e.writer].tx.catalog.staged != map[]
    ensures Stranded(Step(RunOf(events), e).world, Step(RunOf(events), e).clients[e.writer])
  {
    AlwaysOrderly(events);
    RaisedNow(RunOf(events), e);
  }

  lemma RaisedNow(s: System, e: Event)
    requires Orderly(s) && (e.Publish? || e.FinishRecover?) && e.writer in s.clients && Enabled(s.clients[e.writer], e)
    requires var c := Step(s, e).clients[e.writer]; c.pc.Idle? && c.tx.catalog.staged != map[]
    ensures Stranded(Step(s, e).world, Step(s, e).clients[e.writer])
  {
    hide Act;
    hide Takes;
    hide Stranded;
    hide Enabled;
    var c := s.clients[e.writer];
    TrackedShape(s.world, e.writer, c);
    ActTakes(s.world, c, e);
    GivenUpIsStranded(s.world, e.writer, c, e, Act(s.world, c, e));
  }
}
