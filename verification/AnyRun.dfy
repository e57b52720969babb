/**
 * What holds of every run, whatever its recoveries rebase onto: the branch grows by whole
 * publications, no transaction publishes twice, and nothing published ever changes.
 */
module AnyRun {
  import opened Catalogs
  import opened Icechunk
  import opened Intents
  import opened Transactions
  import opened Protocol
  import opened Invariants

  // -- one step ---------------------------------------------------------------------------

  /** Only publishing touches the branch, and only by adding one snapshot. */
  lemma OnlyPublishingMovesTheBranch(w: World, c: Client, e: Event)
    requires Shape(w, c)
    ensures var a := Act(w, c, e);
            && (a.published ==> e.Publish? && c.pc.Applying? && c.pc.next == |c.tx.intents| && a == DoPublish(w, c))
            && (!a.published ==> a.world.history == w.history)
  {
    hide Apply;
    hide Landing;
    hide DoFinish;
  }

  /** A transaction that has published never acts again. */
  lemma DoneStays(w: World, c: Client, e: Event)
    requires Shape(w, c) && c.pc.Done?
    ensures Act(w, c, e) == Acted(w, c, false)
  {}

  lemma DoneRemains(s: System, e: Event, writer: nat)
    requires writer in s.clients && s.clients[writer].pc.Done?
    ensures writer in Step(s, e).clients && Step(s, e).clients[writer] == s.clients[writer]
  {
    if e.writer == writer && Shape(s.world, s.clients[writer]) {
      DoneStays(s.world, s.clients[writer], e);
    }
  }

  ghost predicate Publishes(s: System, e: Event) {
    !e.Open? && e.writer in s.clients && Shape(s.world, s.clients[e.writer])
    && Act(s.world, s.clients[e.writer], e).published
  }

  lemma PublishEffect(w: World, writer: nat, c: Client, e: Event)
    requires Sane(w) && Tracked(w, writer, c) && Shape(w, c) && Act(w, c, e).published
    ensures |Act(w, c, e).world.history| == |w.history| + 1
    ensures Act(w, c, e).client.pc == Done(|w.history|)
  {
    hide Act;
    hide DoPublish;
    OnlyPublishingMovesTheBranch(w, c, e);
    TrackedCommit(w, writer, c);
  }

  /** A step that publishes adds one snapshot and its log entry. */
  lemma StepPublishes(s: System, e: Event)
    requires Publishes(s, e) && Sane(s.world) && Tracked(s.world, e.writer, s.clients[e.writer])
    ensures Step(s, e).log == s.log + [Publication(e.writer, s.clients[e.writer])]
    ensures |Step(s, e).world.history| == |s.world.history| + 1
    ensures e.writer in Step(s, e).clients && Step(s, e).clients[e.writer].pc == Done(|s.world.history|)
  {
    hide Act;
    PublishEffect(s.world, e.writer, s.clients[e.writer], e);
  }

  /** Any other step leaves the branch exactly as it was: a failed commit publishes nothing. */
  lemma StepPublishesNothing(s: System, e: Event)
    requires !Publishes(s, e)
    ensures Step(s, e).log == s.log && Step(s, e).world.history == s.world.history
  {
    hide Act;
    if !e.Open? && e.writer in s.clients && Shape(s.world, s.clients[e.writer]) {
      OnlyPublishingMovesTheBranch(s.world, s.clients[e.writer], e);
    }
  }

  // -- the invariant -------------------------------------------------------------------------

  /** The `k`-th publication made snapshot `k + 1` and ended its transaction. */
  ghost predicate Owned(s: System, k: nat)
    requires k < |s.log|
  {
    s.log[k].writer in s.clients && s.clients[s.log[k].writer].pc == Done(k + 1)
  }

  ghost predicate Orderly(s: System) {
    && Sane(s.world)
    && |s.log| + 1 == |s.world.history|
    && (forall k | 0 <= k < |s.log| :: Owned(s, k))
    && (forall writer | writer in s.clients :: Tracked(s.world, writer, s.clients[writer]))
  }

  lemma OpenedTracked(w: World, writer: nat, base: nat, maxRetries: int)
    requires Sane(w) && base < |w.history| && !Used(w.store, writer)
    ensures Tracked(w, writer, Opened(w.history, writer, base, maxRetries))
  {
    var c := OpenCatalog(writer, ReadPointers(w.history[base]));
    assert CurrentPointers(c) == c.pointers;
  }

  lemma OpenOrderly(s: System, e: Event)
    requires Orderly(s) && e.Open?
    ensures Orderly(Step(s, e)) && Step(s, e).world == s.world
  {
    hide Tracked;
    if e.writer !in s.clients && !Used(s.world.store, e.writer) && e.base < |s.world.history| {
      OpenedTracked(s.world, e.writer, e.base, e.maxRetries);
      forall k | 0 <= k < |s.log| ensures Owned(Step(s, e), k) {
        assert Owned(s, k);
      }
    }
  }

  /** One client acted, the others watched. */
  lemma TrackedAfter(s: System, w: World, writer: nat, c: Client)
    requires Orderly(s) && writer in s.clients && Sane(w) && Tracked(w, writer, c) && Evolves(s.world, w, writer)
    ensures var clients := s.clients[writer := c]; forall other | other in clients :: Tracked(w, other, clients[other])
  {
    hide Tracked;
    hide Evolves;
    var clients := s.clients[writer := c];
    forall other | other in clients ensures Tracked(w, other, clients[other]) {
      if other != writer {
        TrackedStable(s.world, w, writer, other, s.clients[other]);
      }
    }
  }

  lemma OwnedAfter(s: System, e: Event)
    requires Orderly(s) && (Publishes(s, e) ==> Tracked(s.world, e.writer, s.clients[e.writer]))
    ensures |Step(s, e).log| + 1 == |Step(s, e).world.history|
    ensures forall k | 0 <= k < |Step(s, e).log| :: Owned(Step(s, e), k)
  {
    hide Step;
    hide Tracked;
    if Publishes(s, e) { StepPublishes(s, e); } else { StepPublishesNothing(s, e); }
    forall k | 0 <= k < |Step(s, e).log| ensures Owned(Step(s, e), k) {
      if k < |s.log| {
        assert Owned(s, k);
        DoneRemains(s, e, s.log[k].writer);
      }
    }
  }

  lemma StepOrderly(s: System, e: Event)
    requires Orderly(s)
    ensures Orderly(Step(s, e))
    ensures Grows(s.world.store, Step(s, e).world.store) && s.world.history <= Step(s, e).world.history
  {
    hide Act;
    hide Tracked;
    hide Owned;
    OwnedAfter(s, e);
    if e.Open? {
      OpenOrderly(s, e);
    } else if e.writer in s.clients {
      var c := s.clients[e.writer];
      TrackedShape(s.world, e.writer, c);
      TrackedActs(s.world, e.writer, c, e);
      TrackedAfter(s, Act(s.world, c, e).world, e.writer, Act(s.world, c, e).client);
    }
  }

  lemma {:induction false} AlwaysOrderly(events: seq<Event>)
    ensures Orderly(RunOf(events))
  {
    hide Step;
    if events == [] {
      assert RunOf(events) == INITIAL_SYSTEM;
    } else {
      AlwaysOrderly(events[..|events| - 1]);
      StepOrderly(RunOf(events[..|events| - 1]), events[|events| - 1]);
    }
  }

  // -- what readers may rely on -----------------------------------------------------------------

  /** No transaction publishes twice, whether `commit` is called once or again after a failure. */
  lemma PublishesOnce(events: seq<Event>, i: nat, j: nat)
    requires i < j < |RunOf(events).log|
    ensures RunOf(events).log[i].writer != RunOf(events).log[j].writer
  {
    hide Step;
    AlwaysOrderly(events);
    assert Owned(RunOf(events), i) && Owned(RunOf(events), j);
  }

  /** A step leaves the branch as it was, or adds one whole publication to it. */
  ghost predicate WholePublication(s: System, e: Event, s': System) {
    || (s'.world.history == s.world.history && s'.log == s.log)
    || (&& s.world.history != [] && |s'.world.history| == |s.world.history| + 1 && s.world.history <= s'.world.history
        && e.Publish? && e.writer in s.clients
        && s'.log == s.log + [Publication(e.writer, s.clients[e.writer])]
        && Tip(s'.world.history)
           == Landing(Tip(s.world.history), s.clients[e.writer].tx.session,
                      CommitMetadata(CurrentPointers(s.clients[e.writer].tx.catalog))))
  }

  lemma PublishesWhole(s: System, e: Event)
    requires Orderly(s) && Publishes(s, e)
    ensures WholePublication(s, e, Step(s, e))
  {
    hide DoPublish;
    hide Landing;
    assert Tracked(s.world, e.writer, s.clients[e.writer]);
    OnlyPublishingMovesTheBranch(s.world, s.clients[e.writer], e);
    TrackedCommit(s.world, e.writer, s.clients[e.writer]);
  }

  /** Arrays, attributes and pointers are published together, or nothing is. */
  lemma BranchMovesByPublication(events: seq<Event>, e: Event)
    ensures WholePublication(RunOf(events), e, Step(RunOf(events), e))
  {
    hide Step;
    AlwaysOrderly(events);
    if Publishes(RunOf(events), e) {
      PublishesWhole(RunOf(events), e);
    } else {
      StepPublishesNothing(RunOf(events), e);
    }
  }

  lemma {:induction false} RunGrows(events: seq<Event>, more: seq<Event>)
    ensures var s, s' := RunOf(events), RunOf(events + more);
            Grows(s.world.store, s'.world.store) && s.world.history <= s'.world.history
    decreases |more|
  {
    hide Step;
    hide Orderly;
    if more == [] {
      assert events + more == events;
    } else {
      var all := events + more;
      var before := events + more[..|more| - 1];
      assert all[..|all| - 1] == before && all[|all| - 1] == more[|more| - 1];
      RunGrows(events, more[..|more| - 1]);
      AlwaysOrderly(before);
      StepOrderly(RunOf(before), more[|more| - 1]);
    }
  }

  /** Snapshot `k` is still there, and reads as it did. */
  ghost predicate ReadsOn(w: World, w': World, k: nat) {
    && k < |w.history| && k < |w'.history| && w'.history[k] == w.history[k]
    && Resolves(w.store, ReadPointers(w.history[k])) && Resolves(w'.store, ReadPointers(w.history[k]))
    && View(w'.store, ReadPointers(w.history[k])) == View(w.store, ReadPointers(w.history[k]))
  }

  /** Whatever happens next, every existing snapshot still reads the same arrays, attributes and rows. */
  lemma TimeTravel(events: seq<Event>, more: seq<Event>, k: nat)
    requires k < |RunOf(events).world.history|
    ensures ReadsOn(RunOf(events).world, RunOf(events + more).world, k)
  {
    hide Step;
    AlwaysOrderly(events);
    RunGrows(events, more);
    var s, s' := RunOf(events), RunOf(events + more);
    GrowsKeepsView(s.world.store, s'.world.store, ReadPointers(s.world.history[k]));
  }
}
