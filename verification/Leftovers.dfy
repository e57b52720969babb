/**
 * Calling `commit` again after it raised, on a base that is still the tip: what is left
 * staged is blocked for good, unless the catalog is changed directly. In any run.
 */
module Leftovers {
  import opened Catalogs
  import opened Intents
  import opened Transactions
  import opened Protocol
  import opened Invariants
  import opened AnyRun
  import opened Replay
  import opened Bookkeeping

  // -- what blocks it ---------------------------------------------------------------------------

  /** The intents applied in this attempt all found their tables. */
  ghost predicate Found(c: Client) {
    InCommit(c) ==> Progress(c) <= |c.tx.intents| && Covered(c.tx.intents[..Progress(c)]) <= Names(c)
  }

  lemma NoneFound(c: Client)
    requires c.pc.Applying? && c.pc.next == 0
    ensures Found(c)
  {
    assert c.tx.intents[..0] == [];
  }

  lemma FoundApply(w: World, c: Client)
    requires Resolves(w.store, CurrentPointers(c.tx.catalog)) && c.pc.Applying? && c.pc.next < |c.tx.intents|
    requires Found(c) && Blocked(w, c)
    ensures Found(DoApply(w, c).client) && Blocked(DoApply(w, c).world, DoApply(w, c).client)
  {
    hide Apply;
    var i := c.pc.next;
    ApplyNames(w.store, c.tx.catalog, c.tx.intents[i]);
    if Apply(w.store, c.tx.catalog, c.tx.intents[i]).error.None? {
      CoveredSnoc(c.tx.intents, i);
      BlockedApplied(w, c);
    } else {
      ApplyFailsClean(w.store, c.tx.catalog, c.tx.intents[i]);
      FailsAgain(c.tx.intents, Names(c), i);
    }
  }

  lemma FoundPublish(w: World, writer: nat, c: Client)
    requires Sane(w) && Tracked(w, writer, c) && c.pc.Applying? && c.pc.next == |c.tx.intents| && Found(c)
    ensures Found(DoPublish(w, c).client) && Blocked(DoPublish(w, c).world, DoPublish(w, c).client)
  {
    hide DoPublish;
    hide Valid;
    if DoPublish(w, c).published {
      TrackedCommit(w, writer, c);
    } else {
      PublishFails(w, c);
      if DoPublish(w, c).client.pc.Idle? {
        RefusedIsEmpty(w, c);
      }
    }
  }

  lemma FoundFinish(w: World, writer: nat, c: Client, solvable: bool)
    requires Sane(w) && Tracked(w, writer, c) && Shape(w, c) && c.pc.Adopting?
    ensures Found(DoFinish(w, c, solvable)) && Blocked(w, DoFinish(w, c, solvable))
  {
    hide DoFinish;
    hide Valid;
    FinishKeeps(w, c, solvable);
    RebasedIsEmpty(w, c, solvable);
    assert c.tx.unmanaged <= Orphaned(c.tx);
    if DoFinish(w, c, solvable).pc.Applying? {
      NoneFound(DoFinish(w, c, solvable));
    }
  }

  lemma FoundStart(w: World, c: Client)
    requires c.pc.Idle? && Blocked(w, c)
    ensures Found(DoStart(c)) && Blocked(w, DoStart(c))
  {
    assert c.tx.intents[..0] == [] && c.tx.intents[0..] == c.tx.intents;
    StagedNames(c.tx.catalog.staged);
  }

  lemma FoundPlan(w: World, c: Client, e: Event)
    requires Shape(w, c) && c.pc.Idle? && Blocked(w, c) && (e.Create? || e.Plan?)
    ensures Found(Act(w, c, e).client) && Blocked(Act(w, c, e).world, Act(w, c, e).client)
  {
    if e.Create? {
      BlockedMoreIntents(w, c, Act(w, c, e).client, CreateTable(e.name, e.location));
    } else if !e.intent.CreateTable? && Act(w, c, e).client.tx.intents != c.tx.intents {
      BlockedMoreIntents(w, c, Act(w, c, e).client, e.intent);
    }
  }

  lemma FoundElsewhere(w: World, c: Client, e: Event)
    requires Shape(w, c) && Found(c) && Blocked(w, c)
    requires !Enabled(c, e) || e.Direct?
    requires (e.Create? || e.Plan?) ==> !c.pc.Idle?
    ensures Found(Act(w, c, e).client) && Blocked(Act(w, c, e).world, Act(w, c, e).client)
  {
    hide Apply;
    hide DoApply;
    hide DoPublish;
    hide DoFinish;
  }

  lemma FoundTakes(w: World, writer: nat, c: Client, e: Event, a: Acted)
    requires Sane(w) && Tracked(w, writer, c) && Shape(w, c) && Found(c) && Blocked(w, c)
    requires Takes(w, c, e, a) && !e.Direct?
    ensures Found(a.client) && Blocked(a.world, a.client)
  {
    hide DoApply;
    hide DoPublish;
    hide DoFinish;
    hide DoStart;
    hide Found;
    hide Blocked;
    match e
    case StartCommit(_) => FoundStart(w, c);
    case ApplyNext(_) => FoundApply(w, c);
    case Publish(_) => FoundPublish(w, writer, c);
    case FinishRecover(_, solvable) => FoundFinish(w, writer, c, solvable);
  }

  lemma FoundActs(w: World, writer: nat, c: Client, e: Event)
    requires Sane(w) && Tracked(w, writer, c) && Shape(w, c) && Found(c) && Blocked(w, c)
    ensures Found(Act(w, c, e).client) && Blocked(Act(w, c, e).world, Act(w, c, e).client)
  {
    hide Act;
    hide Takes;
    hide Tracked;
    hide Found;
    hide Blocked;
    if (e.Create? || e.Plan?) && c.pc.Idle? {
      FoundPlan(w, c, e);
    } else if Enabled(c, e) && !e.Direct? {
      ActTakes(w, c, e);
      FoundTakes(w, writer, c, e, Act(w, c, e));
    } else {
      FoundElsewhere(w, c, e);
    }
  }

  lemma BlockedLater(w: World, w': World, c: Client)
    requires Blocked(w, c) && c.tx.session.base < |w.history| && w.history <= w'.history
    ensures Blocked(w', c)
  {}

  ghost predicate AllFound(s: System) {
    forall writer | writer in s.clients :: Found(s.clients[writer]) && Blocked(s.world, s.clients[writer])
  }

  lemma FoundAfter(s: System, e: Event, writer: nat)
    requires Orderly(s) && AllFound(s) && writer in Step(s, e).clients
    ensures Found(Step(s, e).clients[writer]) && Blocked(Step(s, e).world, Step(s, e).clients[writer])
  {
    hide Act;
    hide Tracked;
    hide Found;
    hide Blocked;
    StepOrderly(s, e);
    if e.writer == writer && e.Open? && writer !in s.clients {
      NothingLeft(Step(s, e).world, Step(s, e).clients[writer]);
    } else if e.writer == writer && !e.Open? && Shape(s.world, s.clients[writer]) {
      FoundActs(s.world, writer, s.clients[writer], e);
    } else {
      BaseKnown(s, writer);
      BlockedLater(s.world, Step(s, e).world, s.clients[writer]);
    }
  }

  lemma NothingLeft(w: World, c: Client)
    requires c.pc.Idle? && c.tx.catalog.staged == map[]
    ensures Found(c) && Blocked(w, c)
  {}

  lemma BaseKnown(s: System, writer: nat)
    requires Orderly(s) && writer in s.clients
    ensures s.clients[writer].tx.session.base < |s.world.history|
  {}

  lemma {:induction false} AlwaysFound(events: seq<Event>)
    ensures AllFound(RunOf(events))
  {
    hide Step;
    hide Orderly;
    hide Found;
    hide Blocked;
    if events == [] {
      assert RunOf(events) == INITIAL_SYSTEM;
    } else {
      var s, e := RunOf(events[..|events| - 1]), events[|events| - 1];
      AlwaysFound(events[..|events| - 1]);
      AlwaysOrderly(events[..|events| - 1]);
      forall writer | writer in RunOf(events).clients
        ensures Found(RunOf(events).clients[writer]) && Blocked(RunOf(events).world, RunOf(events).clients[writer])
      {
        FoundAfter(s, e, writer);
      }
    }
  }

  // -- committing again --------------------------------------------------------------------------

  /** A failed attempt's versions are still staged, and will count as not reproducible. */
  ghost predicate Leftover(c: Client) {
    !c.direct ==> Active(c) && c.tx.catalog.staged != map[] && (InCommit(c) ==> c.tx.unmanaged != {})
  }

  lemma LeftoverConflicts(w: World, c: Client)
    requires w.history != [] && Blocked(w, c) && !c.direct
    requires c.pc.Applying? && c.pc.next == |c.tx.intents| && c.tx.unmanaged != {}
    ensures !DoPublish(w, c).published && DoPublish(w, c).client == c.(pc := DoPublish(w, c).client.pc)
    ensures !DoPublish(w, c).client.pc.Done?
  {
    assert c.tx.intents[c.pc.next..] == [];
  }

  lemma LeftoverTakes(w: World, c: Client, e: Event, a: Acted)
    requires Shape(w, c) && Resolves(w.store, CurrentPointers(c.tx.catalog)) && Blocked(w, c)
    requires Leftover(c) && !c.direct && Takes(w, c, e, a) && !e.Direct?
    ensures Leftover(a.client)
  {
    hide Blocked;
    match e
    case StartCommit(_) => StagedNames(c.tx.catalog.staged);
    case ApplyNext(_) => StagedStays(w, c, c.tx.intents[c.pc.next]);
    case Publish(_) => LeftoverConflicts(w, c);
    case FinishRecover(_, solvable) => UnmanagedRefused(w, c, solvable);
  }

  lemma LeftoverElsewhere(w: World, c: Client, e: Event)
    requires Shape(w, c) && Leftover(c) && (c.direct || e.Direct? || !Enabled(c, e))
    ensures Leftover(Act(w, c, e).client)
  {
    hide Apply;
    hide TryPublish;
    hide AdoptTip;
  }

  lemma LeftoverActs(w: World, c: Client, e: Event)
    requires Shape(w, c) && Resolves(w.store, CurrentPointers(c.tx.catalog)) && Blocked(w, c) && Leftover(c)
    ensures Leftover(Act(w, c, e).client)
  {
    hide Act;
    hide Blocked;
    hide Takes;
    if c.direct || e.Direct? || !Enabled(c, e) {
      LeftoverElsewhere(w, c, e);
    } else {
      ActTakes(w, c, e);
      LeftoverTakes(w, c, e, Act(w, c, e));
    }
  }

  lemma LeftoverStays(s: System, e: Event, writer: nat)
    requires Orderly(s) && AllFound(s) && writer in s.clients && Leftover(s.clients[writer])
    ensures writer in Step(s, e).clients && Leftover(Step(s, e).clients[writer])
  {
    hide Act;
    hide Leftover;
    hide Blocked;
    if e.writer == writer && !e.Open? && Shape(s.world, s.clients[writer]) {
      LeftoverActs(s.world, s.clients[writer], e);
    }
  }

  /**
   * After a `commit` that raised and left versions staged, no later `commit` of the same
   * transaction publishes anything, unless the catalog is changed directly in between.
   */
  lemma {:induction false} LeftoversNeverPublish(events: seq<Event>, more: seq<Event>, writer: nat)
    requires writer in RunOf(events).clients && Leftover(RunOf(events).clients[writer])
    ensures var s := RunOf(events + more);
            writer in s.clients && (!s.clients[writer].direct ==> !s.clients[writer].pc.Done?)
    ensures Leftover(RunOf(events + more).clients[writer])
    decreases |more|
  {
    hide Step;
    hide Orderly;
    hide AllFound;
    if more == [] {
      assert events + more == events;
    } else {
      var all := events + more;
      var before := events + more[..|more| - 1];
      assert all[..|all| - 1] == before && all[|all| - 1] == more[|more| - 1];
      LeftoversNeverPublish(events, more[..|more| - 1], writer);
      AlwaysOrderly(before);
      AlwaysFound(before);
      LeftoverStays(RunOf(before), more[|more| - 1], writer);
    }
  }
}
