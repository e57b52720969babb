/** Metadata written by an attempt that was given up never becomes part of a published version. */
module Abandoned {
  import opened Tables
  import opened Catalogs
  import opened Icechunk
  import opened Protocol
  import opened Invariants
  import opened AnyRun

  /** The location was drawn by a transaction that published, in the attempt that did. */
  ghost predicate Final(clients: map<nat, Client>, loc: Location) {
    && loc.token.writer in clients
    && clients[loc.token.writer].pc.Done?
    && clients[loc.token.writer].tx.catalog.epoch == loc.token.epoch
  }

  /** So was every version in its metadata log. */
  ghost predicate FinalVersion(st: Store, clients: map<nat, Client>, loc: Location) {
    && loc in st.files
    && Final(clients, loc)
    && (forall i | 0 <= i < |st.files[loc].log| :: Final(clients, st.files[loc].log[i]))
  }

  ghost predicate AllFinal(st: Store, clients: map<nat, Client>, pointers: Pointers) {
    forall name | name in pointers :: FinalVersion(st, clients, pointers[name])
  }

  ghost predicate FinalInv(s: System) {
    forall k | 0 <= k < |s.world.history| :: AllFinal(s.world.store, s.clients, ReadPointers(s.world.history[k]))
  }

  /** Finished transactions stay as they finished. */
  ghost predicate KeepsDone(clients: map<nat, Client>, clients': map<nat, Client>) {
    forall writer | writer in clients && clients[writer].pc.Done? ::
      writer in clients' && clients'[writer] == clients[writer]
  }

  lemma AllFinalStable(st: Store, st': Store, clients: map<nat, Client>, clients': map<nat, Client>, pointers: Pointers)
    requires Grows(st, st') && KeepsDone(clients, clients') && AllFinal(st, clients, pointers)
    ensures AllFinal(st', clients', pointers)
  {
    forall name | name in pointers ensures FinalVersion(st', clients', pointers[name]) {
      assert FinalVersion(st, clients, pointers[name]);
    }
  }

  /** What is staged at publication was drawn in this attempt, on top of what the base had published. */
  lemma StagedIsFinal(st: Store, clients: map<nat, Client>, c: Client, name: string)
    requires Valid(st, c.tx.catalog) && name in c.tx.catalog.staged
    requires AllFinal(st, clients, c.tx.catalog.pointers)
    requires c.tx.catalog.writer in clients && clients[c.tx.catalog.writer].pc.Done?
    requires clients[c.tx.catalog.writer].tx.catalog.epoch == c.tx.catalog.epoch
    ensures FinalVersion(st, clients, c.tx.catalog.staged[name])
  {
    assert StagedWell(st, c.tx.catalog, name);
    var log := st.files[c.tx.catalog.staged[name]].log;
    if name in c.tx.catalog.pointers {
      var loc := c.tx.catalog.pointers[name];
      assert FinalVersion(st, clients, loc);
      forall i | 0 <= i < |log| ensures Final(clients, log[i]) {
        if i < |st.files[loc].log| {
          assert log[i] == st.files[loc].log[i];
        }
      }
    }
  }

  lemma PublishedIsFinal(st: Store, clients: map<nat, Client>, c: Client)
    requires Valid(st, c.tx.catalog)
    requires AllFinal(st, clients, c.tx.catalog.pointers)
    requires c.tx.catalog.writer in clients && clients[c.tx.catalog.writer].pc.Done?
    requires clients[c.tx.catalog.writer].tx.catalog.epoch == c.tx.catalog.epoch
    ensures AllFinal(st, clients, CurrentPointers(c.tx.catalog))
  {
    forall name | name in CurrentPointers(c.tx.catalog)
      ensures FinalVersion(st, clients, CurrentPointers(c.tx.catalog)[name])
    {
      if name in c.tx.catalog.staged {
        StagedIsFinal(st, clients, c, name);
      }
    }
  }

  lemma StepKeepsDone(s: System, e: Event)
    ensures KeepsDone(s.clients, Step(s, e).clients)
  {
    hide Step;
    forall writer | writer in s.clients && s.clients[writer].pc.Done?
      ensures writer in Step(s, e).clients && Step(s, e).clients[writer] == s.clients[writer]
    {
      DoneRemains(s, e, writer);
    }
  }

  lemma OldFinals(s: System, e: Event)
    requires Orderly(s) && FinalInv(s)
    ensures s.world.history <= Step(s, e).world.history
    ensures forall k | 0 <= k < |s.world.history| ::
              AllFinal(Step(s, e).world.store, Step(s, e).clients, ReadPointers(s.world.history[k]))
  {
    hide Step;
    hide AllFinal;
    StepOrderly(s, e);
    StepKeepsDone(s, e);
    forall k | 0 <= k < |s.world.history|
      ensures AllFinal(Step(s, e).world.store, Step(s, e).clients, ReadPointers(s.world.history[k]))
    {
      AllFinalStable(s.world.store, Step(s, e).world.store, s.clients, Step(s, e).clients, ReadPointers(s.world.history[k]));
    }
  }

  lemma NewFinal(s: System, e: Event)
    requires Orderly(s) && FinalInv(s) && Publishes(s, e)
    ensures |Step(s, e).world.history| == |s.world.history| + 1
    ensures AllFinal(Step(s, e).world.store, Step(s, e).clients, ReadPointers(Tip(Step(s, e).world.history)))
  {
    hide DoPublish;
    hide AllFinal;
    hide Valid;
    hide Landing;
    var c := s.clients[e.writer];
    assert Tracked(s.world, e.writer, c);
    OnlyPublishingMovesTheBranch(s.world, c, e);
    TrackedCommit(s.world, e.writer, c);
    OldFinals(s, e);
    PublishedIsFinal(s.world.store, Step(s, e).clients, c);
  }

  lemma FinalKeeps(s: System, e: Event)
    requires Orderly(s) && FinalInv(s)
    ensures FinalInv(Step(s, e))
  {
    hide Step;
    hide AllFinal;
    OldFinals(s, e);
    if Publishes(s, e) {
      NewFinal(s, e);
    } else {
      StepPublishesNothing(s, e);
    }
    FinalFrom(s, Step(s, e));
  }

  lemma FinalFrom(s: System, s': System)
    requires s.world.history <= s'.world.history && |s'.world.history| <= |s.world.history| + 1
    requires forall k | 0 <= k < |s.world.history| ::
               AllFinal(s'.world.store, s'.clients, ReadPointers(s.world.history[k]))
    requires |s'.world.history| == |s.world.history| + 1 ==>
               AllFinal(s'.world.store, s'.clients, ReadPointers(Tip(s'.world.history)))
    ensures FinalInv(s')
  {
    hide AllFinal;
  }

  /** In every run, every published version was drawn in the attempt that published it. */
  lemma {:induction false} RunFinal(events: seq<Event>)
    ensures FinalInv(RunOf(events))
  {
    hide Step;
    if events == [] {
      assert RunOf(events) == INITIAL_SYSTEM;
    } else {
      RunFinal(events[..|events| - 1]);
      AlwaysOrderly(events[..|events| - 1]);
      FinalKeeps(RunOf(events[..|events| - 1]), events[|events| - 1]);
    }
  }

  /** The location is not the published version, nor in its metadata log. */
  ghost predicate Unreferred(st: Store, pointer: Location, loc: Location) {
    pointer in st.files && loc != pointer && loc !in st.files[pointer].log
  }

  /**
   * A location drawn by a transaction that has not published, or before its last
   * rebase, is neither a published version nor in the metadata log of one.
   */
  lemma AbandonedIsUnreachable(events: seq<Event>, k: nat, name: string, loc: Location)
    requires var s := RunOf(events); k < |s.world.history| && name in ReadPointers(s.world.history[k])
    requires !Final(RunOf(events).clients, loc)
    ensures Unreferred(RunOf(events).world.store, ReadPointers(RunOf(events).world.history[k])[name], loc)
  {
    hide Step;
    RunFinal(events);
    var s := RunOf(events);
    assert FinalVersion(s.world.store, s.clients, ReadPointers(s.world.history[k])[name]);
  }

  /** No snapshot is this transaction's work, and none refers to a file it wrote. */
  ghost predicate Invisible(s: System, writer: nat) {
    && (forall k | 0 <= k < |s.log| :: s.log[k].writer != writer)
    && (forall k, name | 0 <= k < |s.world.history| && name in ReadPointers(s.world.history[k]) ::
          ReadPointers(s.world.history[k])[name].token.writer != writer)
  }

  /** A transaction that has not returned a snapshot id has left no trace on the branch. */
  lemma UnpublishedIsInvisible(events: seq<Event>, writer: nat)
    requires writer in RunOf(events).clients && !RunOf(events).clients[writer].pc.Done?
    ensures Invisible(RunOf(events), writer)
  {
    hide Step;
    AlwaysOrderly(events);
    RunFinal(events);
    var s := RunOf(events);
    forall k | 0 <= k < |s.log| ensures s.log[k].writer != writer {
      assert Owned(s, k);
    }
    forall k, name | 0 <= k < |s.world.history| && name in ReadPointers(s.world.history[k])
      ensures ReadPointers(s.world.history[k])[name].token.writer != writer
    {
      assert FinalVersion(s.world.store, s.clients, ReadPointers(s.world.history[k])[name]);
    }
  }
}
