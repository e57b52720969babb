/**
 * One call of `commit`, with any commits of other writers landing before each
 * compare-and-swap: which errors it can end in, how many conflicts it can see, and
 * what it has published when it returns or raises.
 */
module Commits {
  import opened Options
  import opened Catalogs
  import opened Errors
  import opened Icechunk
  import opened Intents
  import opened Transactions

  /** The session's base is no longer the tip. */
  function Stale(w: World, tx: Tx): nat
    requires w.history != []
  {
    if tx.session.base == |w.history| - 1 then 0 else 1
  }

  function AppliedWork(w: World, tx: Tx): Applied {
    ApplyAll(w.store, tx.catalog, tx.intents)
  }

  /** The world when this attempt reaches its compare-and-swap. */
  function Arrived(w: World, tx: Tx, attempt: nat, env: Env): World
    requires w.history != []
  {
    LandAll(w.(store := AppliedWork(w, tx).store), ArrivalsAt(env, attempt))
  }

  predicate MakesNoChanges(tx: Tx, staged: Pointers) {
    staged == map[] && !HasUncommittedChanges(tx.session)
  }

  /**
   * When an error is raised, and with what: the first missing table; the first removal that
   * the tip refuses, with its filter and the ids the window shows; the tables that cannot
   * be reproduced.
   */
  ghost predicate Justified(w: World, tx: Tx, attempt: nat, env: Env, error: Error)
    requires w.history != []
  {
    var landed := Arrived(w, tx, attempt, env);
    match error
    case MissingTable(_) => MissingError(tx.intents, CurrentPointers(tx.catalog).Keys) == Some(error)
    case MadeNoChanges => attempt == 0 && MakesNoChanges(tx, AppliedWork(w, tx).catalog.staged)
    case BranchMoved => attempt == tx.maxRetries && Stale(landed, tx) == 1
    case Unreplayable(names) =>
      && attempt != tx.maxRetries
      && names != {} && names == tx.unmanaged + (AppliedWork(w, tx).catalog.staged.Keys - Covered(tx.intents))
    case TableConflict(_, _, _) =>
      && attempt != tx.maxRetries
      && exists i :: RefusesFirst(landed.store, ReadPointers(Tip(landed.history)), tx.intents, tx.bases, i, error)
    case RebaseFailed => attempt != tx.maxRetries && (!SolvableAt(env, attempt) || AttrsMoved(landed, tx.session))
    case _ => false
  }

  /** The session changes the root attributes, and so did somebody since its base. */
  predicate AttrsMoved(w: World, session: Session)
    requires w.history != []
  {
    session.attrs.Some? && session.base < |w.history| && Tip(w.history).attrs != w.history[session.base].attrs
  }

  lemma PublishRefusals(history: seq<Commit>, tx: Tx, attempt: nat)
    requires history != []
    ensures var r := TryPublish(history, tx, attempt);
            && (r.Refused? <==>
                  attempt == 0 && tx.catalog.staged == map[] && tx.session.changes == map[] && tx.session.attrs.None?)
            && (r.Refused? ==> r.error == MadeNoChanges)
            && (!r.Refused? ==> (r.Conflicted? <==> tx.session.base != |history| - 1))
            && (r.Published? ==>
                  && r.history == history + [Landing(Tip(history), tx.session, CommitMetadata(CurrentPointers(tx.catalog)))]
                  && Lands(Tip(history), tx.session, CurrentPointers(tx.catalog), Tip(r.history)))
  {
    LandingLands(Tip(history), tx.session, CurrentPointers(tx.catalog));
  }

  lemma RecoverRefusals(w: World, tx: Tx, solvable: bool)
    requires Ready(w, tx)
    ensures var r := Recover(w, tx, solvable);
            r.error.Some? ==>
              match r.error.value
              case Unreplayable(names) => names != {} && names == Orphaned(tx)
              case TableConflict(_, _, _) =>
                exists i :: RefusesFirst(w.store, ReadPointers(Tip(w.history)), tx.intents, tx.bases, i, r.error.value)
              case RebaseFailed => !solvable || AttrsMoved(w, tx.session)
              case _ => false
  {
    hide RefusesFirst;
    hide ValidateAll;
    var tip := ReadPointers(Tip(w.history));
    if ValidateAll(w.store, tip, tx.intents, tx.bases).Some? {
      var i := SomeoneRefuses(w.store, tip, tx.intents, tx.bases);
      RefusesConflict(w, tip, tx.intents, tx.bases, i, ValidateAll(w.store, tip, tx.intents, tx.bases).value);
    }
  }

  lemma RefusesConflict(w: World, tip: Pointers, intents: seq<Intent>, bases: map<string, Option<nat>>, i: nat, error: Error)
    requires GoodStore(w.store) && Resolves(w.store, tip) && RefusesFirst(w.store, tip, intents, bases, i, error)
    ensures error.TableConflict? && error.name == intents[i].name && error.filter == intents[i].filter
  {
    RefusalMeans(w.store, tip, intents[i].name, intents[i].filter, Get(bases, intents[i].name), error);
  }

  /** The four places an error comes from. */
  ghost predicate Raises(w: World, tx: Tx, attempt: nat, env: Env, error: Error)
    requires Ready(w, tx) && Ready(Arrived(w, tx, attempt, env), tx.(catalog := AppliedWork(w, tx).catalog))
  {
    var landed, applied := Arrived(w, tx, attempt, env), tx.(catalog := AppliedWork(w, tx).catalog);
    var result := TryPublish(landed.history, applied, attempt);
    if AppliedWork(w, tx).error.Some? then AppliedWork(w, tx).error == Some(error)
    else if !result.Conflicted? then result == Refused(error)
    else if attempt == tx.maxRetries then error == BranchMoved
    else Recover(landed, applied, SolvableAt(env, attempt)).error == Some(error)
  }

  lemma TurnRaises(w: World, tx: Tx, attempt: nat, env: Env)
    requires Ready(w, tx) && ForeignTo(env, tx.catalog.writer)
    ensures Ready(Arrived(w, tx, attempt, env), tx.(catalog := AppliedWork(w, tx).catalog))
    ensures var t := Turn(w, tx, attempt, env);
            t.outcome.Some? && t.outcome.value.Raised? ==> Raises(w, tx, attempt, env, t.outcome.value.error)
  {
    hide ApplyAll;
    hide Recover;
    hide TryPublish;
    hide LandAll;
    hide Sane;
    hide Valid;
    AppliedReady(w, tx, attempt, env);
  }

  lemma ApplyJustified(w: World, tx: Tx, attempt: nat, env: Env)
    requires Ready(w, tx) && AppliedWork(w, tx).error.Some?
    ensures Justified(w, tx, attempt, env, AppliedWork(w, tx).error.value)
  {
    hide ApplyAll;
    hide LandAll;
    hide MissingError;
    ApplyAllContinues(w.store, tx.catalog, tx.intents);
    ApplyAllError(w.store, tx.catalog, tx.intents);
  }

  lemma ConflictJustified(w: World, tx: Tx, attempt: nat, env: Env)
    requires w.history != [] && attempt != tx.maxRetries
    requires var landed, applied := Arrived(w, tx, attempt, env), tx.(catalog := AppliedWork(w, tx).catalog);
             Ready(landed, applied) && Recover(landed, applied, SolvableAt(env, attempt)).error.Some?
    ensures var landed, applied := Arrived(w, tx, attempt, env), tx.(catalog := AppliedWork(w, tx).catalog);
            Justified(w, tx, attempt, env, Recover(landed, applied, SolvableAt(env, attempt)).error.value)
  {
    hide ApplyAll;
    hide LandAll;
    hide Recover;
    hide RefusesFirst;
    RecoverRefusals(Arrived(w, tx, attempt, env), tx.(catalog := AppliedWork(w, tx).catalog), SolvableAt(env, attempt));
  }

  /** A turn that ends in an error had a reason for it. */
  lemma TurnJustified(w: World, tx: Tx, attempt: nat, env: Env)
    requires Ready(w, tx) && ForeignTo(env, tx.catalog.writer)
    ensures var t := Turn(w, tx, attempt, env);
            t.outcome.Some? && t.outcome.value.Raised? ==> Justified(w, tx, attempt, env, t.outcome.value.error)
  {
    hide Turn;
    hide ApplyAll;
    hide LandAll;
    hide Recover;
    hide RefusesFirst;
    hide TryPublish;
    hide Valid;
    TurnRaises(w, tx, attempt, env);
    if AppliedWork(w, tx).error.Some? {
      ApplyJustified(w, tx, attempt, env);
    } else {
      var landed, applied := Arrived(w, tx, attempt, env), tx.(catalog := AppliedWork(w, tx).catalog);
      PublishRefusals(landed.history, applied, attempt);
      if TryPublish(landed.history, applied, attempt).Conflicted? && attempt != tx.maxRetries
         && Recover(landed, applied, SolvableAt(env, attempt)).error.Some? {
        ConflictJustified(w, tx, attempt, env);
      }
    }
  }

  /** The loop body: the call ends here, or goes on with the next attempt. */
  lemma NextTurn(w: World, tx: Tx, attempt: nat, env: Env) returns (t: Turned)
    requires Ready(w, tx) && ForeignTo(env, tx.catalog.writer) && attempt <= tx.maxRetries
    ensures t == Turn(w, tx, attempt, env)
    ensures t.outcome.None? ==>
              && attempt < tx.maxRetries == t.tx.maxRetries
              && Ready(t.world, t.tx) && t.tx.catalog.writer == tx.catalog.writer
              && Attempts(w, tx, attempt, env) == Attempts(t.world, t.tx, attempt + 1, env)
    ensures t.outcome.Some? ==> Attempts(w, tx, attempt, env) == Run(t.world, t.tx, t.outcome.value)
    ensures t.outcome.Some? && t.outcome.value.Raised? ==> Justified(w, tx, attempt, env, t.outcome.value.error)
  {
    t := Turn(w, tx, attempt, env);
    TurnReady(w, tx, attempt, env);
    TurnJustified(w, tx, attempt, env);
  }

  // -- the retry loop always ends in one of its own ways -------------------------------------

  /** The assertion behind the loop is reached only when no attempt is allowed at all. */
  lemma {:induction false} UnreachableIff(w: World, tx: Tx, attempt: nat, env: Env)
    requires Ready(w, tx) && ForeignTo(env, tx.catalog.writer)
    ensures Attempts(w, tx, attempt, env).outcome == Raised(Unreachable) <==> attempt > tx.maxRetries
    ensures Attempts(w, tx, attempt, env).outcome != Raised(NothingToCommit)
    decreases tx.maxRetries + 1 - attempt
  {
    hide Turn;
    if attempt <= tx.maxRetries {
      var t := NextTurn(w, tx, attempt, env);
      if t.outcome.None? {
        UnreachableIff(t.world, t.tx, attempt + 1, env);
      }
    }
  }

  // -- conflicts need commits of others --------------------------------------------------------

  lemma ArrivedHistory(w: World, tx: Tx, attempt: nat, env: Env)
    requires Ready(w, tx) && ForeignTo(env, tx.catalog.writer)
    ensures w.history <= Arrived(w, tx, attempt, env).history
  {}

  /** The three ways past the intents: the swap lands, it is refused, or it conflicts. */
  lemma TurnSplits(w: World, tx: Tx, attempt: nat, env: Env)
    requires Ready(w, tx) && ForeignTo(env, tx.catalog.writer)
    ensures Ready(Arrived(w, tx, attempt, env), tx.(catalog := AppliedWork(w, tx).catalog))
    ensures var t := Turn(w, tx, attempt, env);
            var landed, applied := Arrived(w, tx, attempt, env), tx.(catalog := AppliedWork(w, tx).catalog);
            var recovered := Recover(landed, applied, SolvableAt(env, attempt));
            && (t.outcome.Some? && t.outcome.value.Returned? ==>
                  && AppliedWork(w, tx).error.None? && tx.session.base == |landed.history| - 1
                  && t.world == landed.(history := landed.history
                       + [Landing(Tip(landed.history), tx.session, CommitMetadata(CurrentPointers(applied.catalog)))])
                  && t.tx == applied && t.outcome.value.id == |landed.history|)
            && (t.outcome.None? ==>
                  && AppliedWork(w, tx).error.None? && tx.session.base != |landed.history| - 1
                  && t.world == landed && t.tx == recovered.tx && recovered.error.None?)
            && (t.outcome.Some? && t.outcome.value.Raised? ==>
                  if AppliedWork(w, tx).error.Some? then
                    t.world == w.(store := AppliedWork(w, tx).store) && t.outcome.value.error.MissingTable?
                  else t.world == landed)
  {
    AppliedReady(w, tx, attempt, env);
    ApplyAllContinues(w.store, tx.catalog, tx.intents);
    PublishRefusals(Arrived(w, tx, attempt, env).history, tx.(catalog := AppliedWork(w, tx).catalog), attempt);
  }

  /** A turn that conflicts found the base stale; after a recovery it no longer is. */
  lemma TurnConflicts(w: World, tx: Tx, attempt: nat, env: Env)
    requires Ready(w, tx) && ForeignTo(env, tx.catalog.writer)
    ensures var t := Turn(w, tx, attempt, env);
            && (t.outcome.None? || t.outcome == Some(Raised(BranchMoved)) ==>
                  |t.world.history| - |w.history| + Stale(w, tx) >= 1)
            && (t.outcome.None? ==> t.world.history != [] && Stale(t.world, t.tx) == 0)
            && |t.world.history| >= |w.history|
  {
    hide Turn;
    TurnJustified(w, tx, attempt, env);
    TurnSplits(w, tx, attempt, env);
    ArrivedHistory(w, tx, attempt, env);
  }

  /**
   * `commit` gives up on a moving branch only after more conflicts than it may retry,
   * and every conflict but the first of a stale session takes a commit of someone
   * else that landed during the call.
   */
  lemma {:induction false} GivingUpTakesLandings(w: World, tx: Tx, attempt: nat, env: Env)
    requires Ready(w, tx) && ForeignTo(env, tx.catalog.writer) && attempt <= tx.maxRetries + 1
    ensures var run := Attempts(w, tx, attempt, env);
            run.outcome == Raised(BranchMoved) ==>
              |run.world.history| - |w.history| + Stale(w, tx) >= tx.maxRetries + 1 - attempt
    decreases tx.maxRetries + 1 - attempt
  {
    hide Turn;
    if attempt <= tx.maxRetries {
      var t := NextTurn(w, tx, attempt, env);
      TurnConflicts(w, tx, attempt, env);
      if t.outcome.None? {
        GivingUpTakesLandings(t.world, t.tx, attempt + 1, env);
      }
    }
  }

  // -- what has been published when the call ends ---------------------------------------------

  /** The catalog holds the pointers of the session's base, and nothing is staged on top of them. */
  ghost predicate OnBase(w: World, tx: Tx) {
    && tx.session.base < |w.history|
    && tx.catalog.staged == map[]
    && tx.catalog.pointers == ReadPointers(w.history[tx.session.base])
  }

  /** The last snapshot is the one before it with the transaction's work done to it, once. */
  ghost predicate PublishedOnce(w: World, id: nat, tx: Tx) {
    && Sane(w) && |w.history| > 1 && id == |w.history| - 1
    && var parent, child := w.history[id - 1], w.history[id];
    && PerformAll(View(w.store, ReadPointers(parent)), tx.intents) == Some(View(w.store, ReadPointers(child)))
    && Lands(parent, tx.session, ReadPointers(child), child)
  }

  lemma RecoverOnBase(w: World, tx: Tx, solvable: bool)
    requires Ready(w, tx) && Recover(w, tx, solvable).error.None?
    ensures var tx' := Recover(w, tx, solvable).tx;
            OnBase(w, tx') && tx'.intents == tx.intents && tx'.session == tx.session.(base := tx'.session.base)
  {}

  lemma TurnPublishes(w: World, tx: Tx, attempt: nat, env: Env)
    requires Ready(w, tx) && ForeignTo(env, tx.catalog.writer) && OnBase(w, tx)
    ensures var t := Turn(w, tx, attempt, env);
            && (t.outcome.Some? && t.outcome.value.Returned? ==> PublishedOnce(t.world, t.outcome.value.id, tx))
            && (t.outcome.None? ==>
                  OnBase(t.world, t.tx) && t.tx.intents == tx.intents && t.tx.session == tx.session.(base := t.tx.session.base))
  {
    hide Turn;
    hide Recover;
    hide PublishedOnce;
    TurnSplits(w, tx, attempt, env);
    AppliedReady(w, tx, attempt, env);
    var t := Turn(w, tx, attempt, env);
    if t.outcome.None? {
      RecoverOnBase(Arrived(w, tx, attempt, env), tx.(catalog := AppliedWork(w, tx).catalog), SolvableAt(env, attempt));
    } else if t.outcome.value.Returned? {
      LandedOnce(w, tx, Arrived(w, tx, attempt, env), t.world);
    }
  }

  lemma LandedViews(w: World, tx: Tx, st: Store)
    requires Ready(w, tx) && OnBase(w, tx) && AppliedWork(w, tx).error.None?
    requires Grows(w.store, AppliedWork(w, tx).store) && Grows(AppliedWork(w, tx).store, st)
    ensures var a := AppliedWork(w, tx);
            && Resolves(st, tx.catalog.pointers) && Resolves(st, CurrentPointers(a.catalog))
            && PerformAll(View(st, tx.catalog.pointers), tx.intents) == Some(View(st, CurrentPointers(a.catalog)))
  {
    var a := AppliedWork(w, tx);
    assert CurrentPointers(tx.catalog) == tx.catalog.pointers;
    ApplyAllRefines(w.store, tx.catalog, tx.intents);
    GrowsKeepsView(w.store, a.store, tx.catalog.pointers);
    GrowsKeepsView(a.store, st, tx.catalog.pointers);
    GrowsKeepsView(a.store, st, CurrentPointers(a.catalog));
  }

  lemma LandedOnce(w: World, tx: Tx, landed: World, w': World)
    requires Ready(w, tx) && OnBase(w, tx) && AppliedWork(w, tx).error.None?
    requires var a := AppliedWork(w, tx);
             && Ready(landed, tx.(catalog := a.catalog)) && Grows(w.store, a.store) && Grows(a.store, landed.store)
             && w.history <= landed.history && tx.session.base == |landed.history| - 1
             && w' == landed.(history := landed.history
                  + [Landing(Tip(landed.history), tx.session, CommitMetadata(CurrentPointers(a.catalog)))])
    ensures PublishedOnce(w', |landed.history|, tx)
  {
    LandedViews(w, tx, landed.store);
    assert landed.history[tx.session.base] == w.history[tx.session.base];
    LandedSnapshot(landed, w', tx, CurrentPointers(AppliedWork(w, tx).catalog));
  }

  lemma LandedSnapshot(w: World, w': World, tx: Tx, pointers: Pointers)
    requires Sane(w) && Resolves(w.store, pointers)
    requires tx.session.base == |w.history| - 1 && tx.catalog.pointers == ReadPointers(w.history[tx.session.base])
    requires PerformAll(View(w.store, tx.catalog.pointers), tx.intents) == Some(View(w.store, pointers))
    requires w' == w.(history := w.history + [Landing(Tip(w.history), tx.session, CommitMetadata(pointers))])
    ensures PublishedOnce(w', |w.history|, tx)
  {
    hide PerformAll;
    hide View;
    hide Overlay;
    var parent, child := w'.history[|w.history| - 1], w'.history[|w.history|];
    assert parent == Tip(w.history) == w.history[tx.session.base];
    LandingLands(parent, tx.session, pointers);
    SnapshotAdded(w, w', pointers);
  }

  lemma SnapshotAdded(w: World, w': World, pointers: Pointers)
    requires Sane(w) && w'.store == w.store && |w'.history| == |w.history| + 1 && w.history <= w'.history
    requires ReadPointers(Tip(w'.history)) == pointers && Resolves(w.store, pointers)
    ensures Sane(w')
  {
    forall i | 0 <= i < |w'.history| ensures Resolves(w'.store, ReadPointers(w'.history[i])) {
      if i < |w.history| {
        assert w'.history[i] == w.history[i];
      }
    }
  }

  /**
   * When `commit` returns on a clean catalog, its snapshot is the last on the branch and
   * holds every intent exactly once and in order on top of its parent, whatever was
   * abandoned on the way.
   */
  lemma {:induction false} ReturnedMeansOnce(w: World, tx: Tx, attempt: nat, env: Env)
    requires Ready(w, tx) && ForeignTo(env, tx.catalog.writer) && OnBase(w, tx)
    ensures var run := Attempts(w, tx, attempt, env);
            run.outcome.Returned? ==> PublishedOnce(run.world, run.outcome.id, tx)
    decreases tx.maxRetries + 1 - attempt
  {
    hide Turn;
    if attempt <= tx.maxRetries {
      var t := NextTurn(w, tx, attempt, env);
      TurnPublishes(w, tx, attempt, env);
      if t.outcome.None? {
        ReturnedMeansOnce(t.world, t.tx, attempt + 1, env);
      }
    }
  }

  /** Another writer's transaction, opened on the tip. */
  function OtherTx(w: World, f: Foreign, maxRetries: int): Tx
    requires w.history != []
  {
    Tx(Session(|w.history| - 1, f.changes, f.attrs), OpenCatalog(f.writer, ReadPointers(Tip(w.history))),
       f.intents, map[], {}, maxRetries)
  }

  lemma OtherReady(w: World, f: Foreign, maxRetries: int)
    requires Sane(w) && !Used(w.store, f.writer)
    ensures Ready(w, OtherTx(w, f, maxRetries)) && OnBase(w, OtherTx(w, f, maxRetries))
  {
    var c := OpenCatalog(f.writer, ReadPointers(Tip(w.history)));
    assert CurrentPointers(c) == c.pointers;
  }

  /**
   * The commits of others that land during a call are such calls themselves: one with something
   * to publish leaves the world an uninterrupted `commit` leaves, published once or not at all.
   */
  lemma LandIsCommit(w: World, f: Foreign, maxRetries: int)
    requires Sane(w) && !Used(w.store, f.writer) && maxRetries >= 0
    requires !MakesNoChanges(OtherTx(w, f, maxRetries), AppliedWork(w, OtherTx(w, f, maxRetries)).catalog.staged)
    ensures Ready(w, OtherTx(w, f, maxRetries))
    ensures var tx := OtherTx(w, f, maxRetries);
            var run := Committed(w, tx, Env([], []));
            && run.world == Land(w, f)
            && (run.outcome.Returned? <==> Appliable(f.intents, ReadPointers(Tip(w.history)).Keys))
            && (run.outcome.Returned? ==> run.outcome.id == |w.history| && PublishedOnce(Land(w, f), |w.history|, tx))
            && (run.outcome.Raised? ==> run.world.history == w.history)
  {
    hide ApplyAll;
    hide Valid;
    hide GoodStore;
    hide PublishedOnce;
    hide Landing;
    var tx, nobody := OtherTx(w, f, maxRetries), Env([], []);
    OtherReady(w, f, maxRetries);
    assert CurrentPointers(tx.catalog) == tx.catalog.pointers;
    assert tx.(unmanaged := tx.catalog.staged.Keys) == tx;
    ApplyAllContinues(w.store, tx.catalog, f.intents);
    var t := NextTurn(w, tx, 0, nobody);
    ReturnedMeansOnce(w, tx, 0, nobody);
    PublishRefusals(w.history, tx.(catalog := AppliedWork(w, tx).catalog), 0);
  }
}
