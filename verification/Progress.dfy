/**
 * Who gets through: every way a `commit` that starts on a clean catalog can end, each
 * with the reason outside it, and the conditions under which it must return.
 */
module Progress {
  import opened Options
  import opened Tables
  import opened Validation
  import opened Catalogs
  import opened Errors
  import opened Icechunk
  import opened Intents
  import opened Transactions
  import opened Commits

  // -- tables stay -----------------------------------------------------------------------------

  /** One arrival leaves every table of the tip in place, at the same or a later version. */
  lemma LandExtends(w: World, f: Foreign)
    requires Sane(w)
    ensures var w' := Land(w, f);
            && Sane(w') && w.history <= w'.history && Grows(w.store, w'.store)
            && (w'.history == w.history || |w'.history| == |w.history| + 1)
            && PointersExtend(w'.store, ReadPointers(Tip(w.history)), ReadPointers(Tip(w'.history)))
  {
    hide ApplyAll;
    hide Overlay;
    LandKeeps(w, f);
    var tip := ReadPointers(Tip(w.history));
    Unchanged(w.store, tip);
    GrowsKeepsExtend(w.store, Land(w, f).store, tip, tip);
    if !Used(w.store, f.writer) {
      var c := OpenCatalog(f.writer, tip);
      assert CurrentPointers(c) == c.pointers;
      assert Valid(w.store, c);
      ApplyAllContinues(w.store, c, f.intents);
      OverlayExtends(ApplyAll(w.store, c, f.intents).store, ApplyAll(w.store, c, f.intents).catalog);
    }
  }

  lemma Unchanged(st: Store, pointers: Pointers)
    requires GoodStore(st) && Resolves(st, pointers)
    ensures PointersExtend(st, pointers, pointers)
  {
    forall name | name in pointers ensures Extends(st.files[pointers[name]], st.files[pointers[name]]) {
      ExtendsReflexive(st.files[pointers[name]]);
    }
  }

  /** From snapshot `from` on, every snapshot keeps its predecessor's tables. */
  ghost predicate Chained(w: World, from: nat) {
    && Sane(w)
    && forall k | from <= k < |w.history| - 1 ::
         PointersExtend(w.store, ReadPointers(w.history[k]), ReadPointers(w.history[k + 1]))
  }

  lemma ChainedGrows(w: World, from: nat, st: Store)
    requires Chained(w, from) && GoodStore(st) && Grows(w.store, st)
    ensures Chained(World(st, w.history), from)
  {
    forall k | from <= k < |w.history| - 1
      ensures PointersExtend(st, ReadPointers(w.history[k]), ReadPointers(w.history[k + 1]))
    {
      GrowsKeepsExtend(w.store, st, ReadPointers(w.history[k]), ReadPointers(w.history[k + 1]));
    }
  }

  lemma LandChained(w: World, f: Foreign, from: nat)
    requires Chained(w, from)
    ensures Chained(Land(w, f), from)
  {
    hide Land;
    LandExtends(w, f);
    var w' := Land(w, f);
    ChainedGrows(w, from, w'.store);
    forall k | from <= k < |w'.history| - 1
      ensures PointersExtend(w'.store, ReadPointers(w'.history[k]), ReadPointers(w'.history[k + 1]))
    {
      assert w'.history[k] == w.history[k];
      if k + 1 < |w.history| {
        assert w'.history[k + 1] == w.history[k + 1];
      }
    }
  }

  lemma {:induction false} LandAllChained(w: World, fs: seq<Foreign>, from: nat)
    requires Chained(w, from)
    ensures Chained(LandAll(w, fs), from) && Grows(w.store, LandAll(w, fs).store)
    decreases |fs|
  {
    if fs != [] {
      LandChained(w, fs[0], from);
      LandExtends(w, fs[0]);
      LandAllChained(Land(w, fs[0]), fs[1..], from);
    }
  }

  lemma {:induction false} ChainKeepsNames(w: World, from: nat, k: nat)
    requires Chained(w, from) && from <= k < |w.history|
    ensures ReadPointers(w.history[from]).Keys <= ReadPointers(w.history[k]).Keys
  {
    if k > from {
      ChainKeepsNames(w, from, k - 1);
      assert PointersExtend(w.store, ReadPointers(w.history[k - 1]), ReadPointers(w.history[k]));
    }
  }

  lemma ArrivedChained(w: World, tx: Tx, attempt: nat, env: Env, from: nat)
    requires Ready(w, tx) && ForeignTo(env, tx.catalog.writer) && Chained(w, from)
    ensures Chained(Arrived(w, tx, attempt, env), from)
    ensures Grows(w.store, Arrived(w, tx, attempt, env).store) && w.history <= Arrived(w, tx, attempt, env).history
  {
    hide ApplyAll;
    AppliedReady(w, tx, attempt, env);
    ChainedGrows(w, from, AppliedWork(w, tx).store);
    LandAllChained(w.(store := AppliedWork(w, tx).store), ArrivalsAt(env, attempt), from);
  }

  // -- staged work is the intents' --------------------------------------------------------------

  lemma {:induction false} StagedAreCovered(st: Store, c: Catalog, intents: seq<Intent>)
    requires Valid(st, c)
    ensures ApplyAll(st, c, intents).catalog.staged.Keys <= c.staged.Keys + Covered(intents)
    decreases |intents|
  {
    hide Valid;
    hide Apply;
    if intents != [] {
      ApplyRefines(st, c, intents[0]);
      ApplyOnlyStages(st, c, intents[0]);
      assert intents[0].name in Covered(intents);
      assert Covered(intents[1..]) <= Covered(intents) by { CoveredTail(intents); }
      var first := Apply(st, c, intents[0]);
      if first.error.None? {
        StagedAreCovered(first.store, first.catalog, intents[1..]);
      }
    }
  }

  lemma CoveredTail(intents: seq<Intent>)
    requires intents != []
    ensures Covered(intents[1..]) <= Covered(intents)
  {
    forall name | name in Covered(intents[1..]) ensures name in Covered(intents) {
      var i :| 0 <= i < |intents| - 1 && intents[1..][i].name == name;
      assert intents[i + 1].name == name;
    }
  }

  lemma ApplyOnlyStages(st: Store, c: Catalog, intent: Intent)
    requires Valid(st, c)
    ensures Apply(st, c, intent).catalog.staged.Keys <= c.staged.Keys + {intent.name}
  {
    hide Rebuild;
    hide MakesVersion;
  }

  // -- every way it can end ---------------------------------------------------------------------

  /** `commit` begins with nothing staged, on tables the tip still has. */
  ghost predicate CleanStart(w: World, tx: Tx) {
    && w.history != []
    && tx.catalog.staged == map[] && tx.unmanaged == {}
    && tx.catalog.pointers.Keys <= ReadPointers(Tip(w.history)).Keys
  }

  /** Why the attempts from number `attempt` on ended as they did. */
  ghost predicate Explained(w: World, tx: Tx, attempt: nat, env: Env, run: Run)
    requires w.history != [] && run.world.history != []
  {
    match run.outcome
    case Returned(_) => true
    case Raised(error) =>
      match error
      case MissingTable(_) => MissingError(tx.intents, tx.catalog.pointers.Keys) == Some(error)
      case MadeNoChanges => attempt == 0 && MakesNoChanges(tx, AppliedWork(w, tx).catalog.staged)
      case TableConflict(_, _, _) =>
        exists i :: RefusesFirst(run.world.store, ReadPointers(Tip(run.world.history)), tx.intents, tx.bases, i, error)
      case RebaseFailed =>
        AttrsMoved(run.world, tx.session) || exists n: nat :: attempt <= n < tx.maxRetries && !SolvableAt(env, n)
      case BranchMoved => |run.world.history| - |w.history| + Stale(w, tx) > tx.maxRetries - attempt
      case _ => false
  }

  lemma TurnExplained(w: World, tx: Tx, attempt: nat, env: Env)
    requires Ready(w, tx) && ForeignTo(env, tx.catalog.writer) && CleanStart(w, tx) && attempt <= tx.maxRetries
    requires Turn(w, tx, attempt, env).outcome.Some?
    ensures var t := Turn(w, tx, attempt, env);
            t.world.history != [] && Explained(w, tx, attempt, env, Run(t.world, t.tx, t.outcome.value))
  {
    hide Turn;
    hide ApplyAll;
    hide LandAll;
    hide Recover;
    hide MissingError;
    hide RefusesFirst;
    hide Valid;
    TurnJustified(w, tx, attempt, env);
    TurnSplits(w, tx, attempt, env);
    TurnConflicts(w, tx, attempt, env);
    assert CurrentPointers(tx.catalog) == tx.catalog.pointers;
    StagedAreCovered(w.store, tx.catalog, tx.intents);
  }

  /** What a turn that asks for another one carries over. */
  ghost predicate CarriesOn(w: World, tx: Tx, w': World, tx': Tx)
    requires Ready(w, tx)
  {
    && CleanStart(w', tx')
    && tx'.intents == tx.intents && tx'.bases == tx.bases && tx'.maxRetries == tx.maxRetries
    && tx'.session.attrs == tx.session.attrs && tx'.session.base == |w'.history| - 1
    && (tx.session.attrs.Some? ==> Tip(w'.history).attrs == w.history[tx.session.base].attrs)
    && MissingError(tx.intents, tx'.catalog.pointers.Keys).None?
  }

  lemma TurnCarriesOn(w: World, tx: Tx, attempt: nat, env: Env)
    requires Ready(w, tx) && ForeignTo(env, tx.catalog.writer) && CleanStart(w, tx)
    requires Turn(w, tx, attempt, env).outcome.None?
    ensures var t := Turn(w, tx, attempt, env); CarriesOn(w, tx, t.world, t.tx) && CleanStart(t.world, t.tx)
  {
    hide Turn;
    hide ApplyAll;
    hide LandAll;
    hide Recover;
    hide MissingError;
    hide Valid;
    TurnSplits(w, tx, attempt, env);
    NamesArrive(w, tx, attempt, env);
    assert CurrentPointers(tx.catalog) == tx.catalog.pointers;
    ApplyAllContinues(w.store, tx.catalog, tx.intents);
    var landed := Arrived(w, tx, attempt, env);
    assert landed.history[tx.session.base] == w.history[tx.session.base] by { ArrivedHistory(w, tx, attempt, env); }
    RecoveredClean(landed, tx.(catalog := AppliedWork(w, tx).catalog), SolvableAt(env, attempt));
  }

  lemma NamesArrive(w: World, tx: Tx, attempt: nat, env: Env)
    requires Ready(w, tx) && ForeignTo(env, tx.catalog.writer)
    ensures ReadPointers(Tip(w.history)).Keys <= ReadPointers(Tip(Arrived(w, tx, attempt, env).history)).Keys
    ensures AppliedWork(w, tx).catalog.pointers == tx.catalog.pointers
  {
    hide ApplyAll;
    AppliedReady(w, tx, attempt, env);
    var from := |w.history| - 1;
    ArrivedChained(w, tx, attempt, env, from);
    var landed := Arrived(w, tx, attempt, env);
    ChainKeepsNames(landed, from, |landed.history| - 1);
    assert landed.history[from] == w.history[from];
  }

  lemma RecoveredClean(w: World, tx: Tx, solvable: bool)
    requires Ready(w, tx) && tx.unmanaged == {} && Appliable(tx.intents, tx.catalog.pointers.Keys)
    requires tx.catalog.pointers.Keys <= ReadPointers(Tip(w.history)).Keys
    requires Recover(w, tx, solvable).error.None?
    ensures CarriesOn(w, tx, w, Recover(w, tx, solvable).tx)
  {
    hide ValidateAll;
    hide Valid;
    var names := ReadPointers(Tip(w.history)).Keys;
    AppliableMonotone(tx.intents, tx.catalog.pointers.Keys, names);
    FirstMissingMeans(tx.intents, names);
  }

  lemma TurnGrows(w: World, tx: Tx, attempt: nat, env: Env)
    requires Ready(w, tx) && ForeignTo(env, tx.catalog.writer)
    ensures var t := Turn(w, tx, attempt, env);
            w.history <= t.world.history && Grows(w.store, t.world.store)
  {
    hide Turn;
    hide ApplyAll;
    hide LandAll;
    hide Valid;
    hide Recover;
    TurnSplits(w, tx, attempt, env);
    AppliedReady(w, tx, attempt, env);
    ArrivedHistory(w, tx, attempt, env);
  }

  /** Whatever the outcome, the call only adds to the branch and to the warehouse. */
  lemma {:induction false} HistoryKept(w: World, tx: Tx, attempt: nat, env: Env)
    requires Ready(w, tx) && ForeignTo(env, tx.catalog.writer)
    ensures w.history <= Attempts(w, tx, attempt, env).world.history
    ensures Grows(w.store, Attempts(w, tx, attempt, env).world.store)
    decreases tx.maxRetries + 1 - attempt
  {
    hide Turn;
    hide Valid;
    if attempt <= tx.maxRetries {
      var t := NextTurn(w, tx, attempt, env);
      TurnGrows(w, tx, attempt, env);
      if t.outcome.None? {
        HistoryKept(t.world, t.tx, attempt + 1, env);
      }
    }
  }

  lemma ExplainedLater(w: World, tx: Tx, attempt: nat, env: Env, w': World, tx': Tx, run: Run)
    requires Ready(w, tx) && CarriesOn(w, tx, w', tx') && w.history <= w'.history
    requires |w'.history| - |w.history| + Stale(w, tx) >= 1
    requires w'.history <= run.world.history && Explained(w', tx', attempt + 1, env, run)
    ensures Explained(w, tx, attempt, env, run)
  {
    hide RefusesFirst;
    hide Valid;
    assert run.world.history[tx.session.base] == w.history[tx.session.base];
    assert run.world.history[tx'.session.base] == w'.history[tx'.session.base];
  }

  /**
   * Every transaction that starts clean is published, or ends with a reason: a table an
   * intent needs is missing; nothing changed; a removal is refused by the tip the call saw
   * last; the root attributes moved or a rebase had no solution; or more commits of others
   * landed than it may retry.
   */
  lemma {:induction false} GetsThrough(w: World, tx: Tx, attempt: nat, env: Env)
    requires Ready(w, tx) && ForeignTo(env, tx.catalog.writer) && CleanStart(w, tx) && attempt <= tx.maxRetries
    ensures Attempts(w, tx, attempt, env).world.history != []
    ensures Explained(w, tx, attempt, env, Attempts(w, tx, attempt, env))
    decreases tx.maxRetries + 1 - attempt
  {
    hide ApplyAll;
    hide LandAll;
    hide MissingError;
    hide PointersExtend;
    hide Sane;
    hide Attempts;
    hide Turn;
    hide Explained;
    hide CarriesOn;
    hide Valid;
    var t := NextTurn(w, tx, attempt, env);
    if t.outcome.None? {
      TurnCarriesOn(w, tx, attempt, env);
      TurnConflicts(w, tx, attempt, env);
      TurnSplits(w, tx, attempt, env);
      ArrivedHistory(w, tx, attempt, env);
      GetsThrough(t.world, t.tx, attempt + 1, env);
      HistoryKept(t.world, t.tx, attempt + 1, env);
      ExplainedLater(w, tx, attempt, env, t.world, t.tx, Attempts(t.world, t.tx, attempt + 1, env));
    } else {
      TurnExplained(w, tx, attempt, env);
    }
  }

  // -- nobody in the way ------------------------------------------------------------------------

  lemma {:induction false} QuietKept(m: Metadata, m': Metadata, base: nat, tip: nat, p: Predicate)
    requires WellFormed(m) && WellFormed(m') && tip in m.snapshots && Quiet(m, base, tip, p)
    requires forall id | id in m.snapshots :: id in m'.snapshots && m'.snapshots[id] == m.snapshots[id]
    ensures Quiet(m', base, tip, p)
    decreases m.snapshots[tip].sequence
  {
    if tip != base {
      QuietKept(m, m', base, m.snapshots[tip].parent.value, p);
    }
  }

  lemma {:induction false} QuietTransitive(m: Metadata, base: nat, middle: nat, tip: nat, p: Predicate)
    requires Ordered(m) && middle in m.snapshots && tip in m.snapshots
    requires Quiet(m, base, middle, p) && Quiet(m, middle, tip, p)
    ensures Quiet(m, base, tip, p)
    decreases m.snapshots[tip].sequence
  {
    if tip != middle && tip != base {
      QuietTransitive(m, base, middle, m.snapshots[tip].parent.value, p);
    }
  }

  /**
   * Between two snapshots of the branch the table got no file that the filter may match, and
   * not its first snapshot either, which a removal planned without one never accepts.
   */
  ghost predicate AddsNothing(st: Store, before: Pointers, after: Pointers, name: string, p: Predicate)
    requires GoodStore(st) && Resolves(st, before) && Resolves(st, after)
  {
    name in after && st.files[after[name]].current.Some? ==>
      && name in before && st.files[before[name]].current.Some?
      && var m := st.files[after[name]];
      && m.current.value in m.snapshots && Quiet(m, st.files[before[name]].current.value, m.current.value, p)
  }

  /** Nothing the removal may match was added between its base and these pointers. */
  ghost predicate Unharmed(st: Store, pointers: Pointers, tx: Tx, i: nat)
    requires GoodStore(st) && Resolves(st, pointers) && i < |tx.intents|
  {
    tx.intents[i].Removes() && tx.intents[i].name in pointers ==>
      NothingAddedSince(st, pointers, tx.intents[i].name, tx.intents[i].filter, Get(tx.bases, tx.intents[i].name))
  }

  /** At the tip no removal would be refused, and the root attributes, if it changes them, are those of its base. */
  ghost predicate Undisturbed(w: World, tx: Tx)
    requires Sane(w) && tx.session.base < |w.history|
  {
    && (forall i | 0 <= i < |tx.intents| :: Unharmed(w.store, ReadPointers(Tip(w.history)), tx, i))
    && (tx.session.attrs.Some? ==> Tip(w.history).attrs == w.history[tx.session.base].attrs)
  }

  /** No snapshot after `from` changes root attributes this transaction changes, or adds a file its removals may match. */
  ghost predicate Calm(w: World, from: nat, tx: Tx)
    requires Sane(w)
  {
    forall k | from <= k < |w.history| - 1 :: CalmStep(w, k, tx)
  }

  ghost predicate CalmStep(w: World, k: nat, tx: Tx)
    requires Sane(w) && k < |w.history| - 1
  {
    && (tx.session.attrs.Some? ==> w.history[k + 1].attrs == w.history[k].attrs)
    && forall i | 0 <= i < |tx.intents| && tx.intents[i].Removes() ::
         AddsNothing(w.store, ReadPointers(w.history[k]), ReadPointers(w.history[k + 1]),
                     tx.intents[i].name, tx.intents[i].filter)
  }

  lemma UnharmedStep(st: Store, before: Pointers, after: Pointers, tx: Tx, i: nat)
    requires GoodStore(st) && Resolves(st, before) && Resolves(st, after) && PointersExtend(st, before, after)
    requires i < |tx.intents| && Unharmed(st, before, tx, i)
    requires tx.intents[i].Removes() ==> AddsNothing(st, before, after, tx.intents[i].name, tx.intents[i].filter)
    ensures Unharmed(st, after, tx, i)
  {
    var intent := tx.intents[i];
    if intent.Removes() && intent.name in after && st.files[after[intent.name]].current.Some? {
      var m, m' := st.files[before[intent.name]], st.files[after[intent.name]];
      var base := Get(tx.bases, intent.name).value;
      assert Extends(m, m');
      QuietKept(m, m', base, m.current.value, intent.filter);
      QuietTransitive(m', base, m.current.value, m'.current.value, intent.filter);
    }
  }

  lemma {:induction false} CalmKeeps(w: World, from: nat, k: nat, tx: Tx)
    requires Chained(w, from) && from <= k < |w.history| && Calm(w, from, tx)
    requires forall i | 0 <= i < |tx.intents| :: Unharmed(w.store, ReadPointers(w.history[from]), tx, i)
    ensures forall i | 0 <= i < |tx.intents| :: Unharmed(w.store, ReadPointers(w.history[k]), tx, i)
    ensures tx.session.attrs.Some? ==> w.history[k].attrs == w.history[from].attrs
  {
    hide Unharmed;
    hide AddsNothing;
    hide PointersExtend;
    hide GoodStore;
    if k > from {
      CalmKeeps(w, from, k - 1, tx);
      assert CalmStep(w, k - 1, tx);
      forall i | 0 <= i < |tx.intents| ensures Unharmed(w.store, ReadPointers(w.history[k]), tx, i) {
        UnharmedStep(w.store, ReadPointers(w.history[k - 1]), ReadPointers(w.history[k]), tx, i);
      }
    }
  }

  lemma UnharmedGrows(st: Store, st': Store, pointers: Pointers, tx: Tx, i: nat)
    requires GoodStore(st) && GoodStore(st') && Grows(st, st') && Resolves(st, pointers)
    requires i < |tx.intents| && Unharmed(st, pointers, tx, i)
    ensures Resolves(st', pointers) && Unharmed(st', pointers, tx, i)
  {}

  /** While `commit` has published nothing, the branch it leaves behind is a chain of the others' commits. */
  lemma {:induction false} RaisedChained(w: World, tx: Tx, attempt: nat, env: Env, from: nat)
    requires Ready(w, tx) && ForeignTo(env, tx.catalog.writer) && Chained(w, from)
    requires Attempts(w, tx, attempt, env).outcome.Raised?
    ensures Chained(Attempts(w, tx, attempt, env).world, from)
    decreases tx.maxRetries + 1 - attempt
  {
    hide Turn;
    hide Chained;
    hide Valid;
    if attempt <= tx.maxRetries {
      var t := NextTurn(w, tx, attempt, env);
      TurnSplits(w, tx, attempt, env);
      TurnChained(w, tx, attempt, env, from);
      if t.outcome.None? {
        RaisedChained(t.world, t.tx, attempt + 1, env, from);
      }
    }
  }

  lemma TurnChained(w: World, tx: Tx, attempt: nat, env: Env, from: nat)
    requires Ready(w, tx) && ForeignTo(env, tx.catalog.writer) && Chained(w, from)
    ensures var t := Turn(w, tx, attempt, env);
            t.outcome.None? || t.outcome.value.Raised? ==> Chained(t.world, from)
  {
    hide Turn;
    hide ApplyAll;
    hide Valid;
    hide Recover;
    TurnSplits(w, tx, attempt, env);
    AppliedReady(w, tx, attempt, env);
    ChainedGrows(w, from, AppliedWork(w, tx).store);
    ArrivedChained(w, tx, attempt, env, from);
  }

  lemma UndisturbedNotRefused(w: World, tx: Tx, error: Error)
    requires Sane(w)
    requires forall i | 0 <= i < |tx.intents| :: Unharmed(w.store, ReadPointers(Tip(w.history)), tx, i)
    ensures !exists i :: RefusesFirst(w.store, ReadPointers(Tip(w.history)), tx.intents, tx.bases, i, error)
  {
    if i: nat :| RefusesFirst(w.store, ReadPointers(Tip(w.history)), tx.intents, tx.bases, i, error) {
      assert Unharmed(w.store, ReadPointers(Tip(w.history)), tx, i);
      RefusalMeans(w.store, ReadPointers(Tip(w.history)), tx.intents[i].name, tx.intents[i].filter,
                   Get(tx.bases, tx.intents[i].name), error);
    }
  }

  /** What stands in the way of a transaction is known before the call, or done by others during it. */
  ghost predicate Unopposed(w: World, tx: Tx, attempt: nat, env: Env)
    requires Ready(w, tx)
  {
    && Appliable(tx.intents, tx.catalog.pointers.Keys)
    && (attempt > 0 || !MakesNoChanges(tx, AppliedWork(w, tx).catalog.staged))
    && Undisturbed(w, tx)
    && (forall n: nat | n < tx.maxRetries :: SolvableAt(env, n))
  }

  /**
   * Removals and attribute changes included: with its tables there, something to publish
   * and solvable rebases, a transaction is published if no commit that lands during the
   * call adds a file its removals may match or changes root attributes it changes too, and no more of
   * them land than it may retry.
   */
  lemma PublishedUnopposed(w: World, tx: Tx, attempt: nat, env: Env)
    requires Ready(w, tx) && ForeignTo(env, tx.catalog.writer) && CleanStart(w, tx) && attempt <= tx.maxRetries
    requires Unopposed(w, tx, attempt, env)
    requires var run := Attempts(w, tx, attempt, env);
             run.outcome.Raised? ==>
               && Sane(run.world) && Calm(run.world, |w.history| - 1, tx)
               && |run.world.history| - |w.history| + Stale(w, tx) <= tx.maxRetries - attempt
    ensures Attempts(w, tx, attempt, env).outcome.Returned?
  {
    var run := Attempts(w, tx, attempt, env);
    GetsThrough(w, tx, attempt, env);
    FirstMissingMeans(tx.intents, tx.catalog.pointers.Keys);
    if run.outcome.Raised? {
      RaisedChained(w, tx, attempt, env, |w.history| - 1);
      HistoryKept(w, tx, attempt, env);
      StillUndisturbed(w, tx, run.world);
      UndisturbedNotRefused(run.world, tx, run.outcome.error);
    }
  }

  lemma StillUndisturbed(w: World, tx: Tx, w': World)
    requires Sane(w) && tx.session.base < |w.history| && Undisturbed(w, tx)
    requires Chained(w', |w.history| - 1) && Grows(w.store, w'.store) && w.history <= w'.history
    requires Calm(w', |w.history| - 1, tx)
    ensures Undisturbed(w', tx)
  {
    hide Unharmed;
    hide CalmStep;
    hide PointersExtend;
    hide GoodStore;
    hide NothingAddedSince;
    var from := |w.history| - 1;
    assert w'.history[from] == Tip(w.history);
    forall i | 0 <= i < |tx.intents| ensures Unharmed(w'.store, ReadPointers(w'.history[from]), tx, i) {
      UnharmedGrows(w.store, w'.store, ReadPointers(Tip(w.history)), tx, i);
    }
    CalmKeeps(w', from, |w'.history| - 1, tx);
  }

  /** A transaction that planned its removals on what is still the tip is undisturbed. */
  lemma PlannedOnTip(w: World, tx: Tx)
    requires Ready(w, tx) && OnBase(w, tx) && tx.session.base == |w.history| - 1
    requires forall i | 0 <= i < |tx.intents| && tx.intents[i].Removes() && tx.intents[i].name in tx.catalog.pointers ::
               Get(tx.bases, tx.intents[i].name) == w.store.files[tx.catalog.pointers[tx.intents[i].name]].current
    ensures Undisturbed(w, tx)
  {}

  /**
   * So a transaction opened on the tip gets through: removals planned there, on the tables as
   * they are, are refused only for what lands during the call.
   */
  lemma PublishedFromTip(w: World, tx: Tx, env: Env)
    requires Ready(w, tx) && ForeignTo(env, tx.catalog.writer) && tx.maxRetries >= 0
    requires OnBase(w, tx) && tx.session.base == |w.history| - 1
    requires forall i | 0 <= i < |tx.intents| && tx.intents[i].Removes() && tx.intents[i].name in tx.catalog.pointers ::
               Get(tx.bases, tx.intents[i].name) == w.store.files[tx.catalog.pointers[tx.intents[i].name]].current
    requires Appliable(tx.intents, tx.catalog.pointers.Keys) && !MakesNoChanges(tx, AppliedWork(w, tx).catalog.staged)
    requires forall n: nat | n < tx.maxRetries :: SolvableAt(env, n)
    requires var run := Committed(w, tx, env);
             run.outcome.Raised? ==>
               && Sane(run.world) && Calm(run.world, |w.history| - 1, tx)
               && |run.world.history| - |w.history| <= tx.maxRetries
    ensures Committed(w, tx, env).outcome.Returned?
  {
    hide Attempts;
    hide ApplyAll;
    hide Undisturbed;
    hide CalmStep;
    hide Valid;
    var noted := tx.(unmanaged := tx.catalog.staged.Keys);
    PlannedOnTip(w, noted);
    NotedCalm(tx, noted);
    PublishedUnopposed(w, noted, 0, env);
  }

  lemma NotedCalm(tx: Tx, noted: Tx)
    requires noted == tx.(unmanaged := noted.unmanaged)
    ensures forall w: World, k: nat | Sane(w) && k < |w.history| - 1 :: CalmStep(w, k, noted) == CalmStep(w, k, tx)
  {
    hide Sane;
    hide AddsNothing;
  }

  // -- committing on staged work ------------------------------------------------------------------

  /**
   * Work staged before the call, directly or left by a call that failed, is published exactly
   * when the first attempt succeeds: retries are allowed at all, every intent finds its table
   * among what is staged, and nobody lands past the session's base. The intents are then
   * performed on top of that work, not instead of it.
   */
  lemma StagedPublishedIff(w: World, tx: Tx, env: Env)
    requires Ready(w, tx) && ForeignTo(env, tx.catalog.writer) && tx.catalog.staged != map[]
    ensures Committed(w, tx, env).outcome.Returned? <==>
              && tx.maxRetries >= 0
              && Appliable(tx.intents, CurrentPointers(tx.catalog).Keys)
              && tx.session.base == |Arrived(w, tx, 0, env).history| - 1
    ensures var run := Committed(w, tx, env);
            run.outcome.Returned? ==>
              && run.world.history != [] && Resolves(run.world.store, ReadPointers(Tip(run.world.history)))
              && PerformAll(View(w.store, CurrentPointers(tx.catalog)), tx.intents)
                 == Some(View(run.world.store, ReadPointers(Tip(run.world.history))))
  {
    hide Turn;
    hide ApplyAll;
    var noted := tx.(unmanaged := tx.catalog.staged.Keys);
    if tx.maxRetries >= 0 {
      var t := NextTurn(w, noted, 0, env);
      StagedTurn(w, noted, env);
      if t.outcome.value.Returned? {
        StagedViews(w, noted, env);
      }
    }
  }

  lemma RecoveredManaged(w: World, tx: Tx, solvable: bool)
    requires Ready(w, tx) && Recover(w, tx, solvable).error.None?
    ensures tx.unmanaged == {}
  {
    hide ValidateAll;
    assert tx.unmanaged <= Orphaned(tx);
  }

  lemma StagedTurn(w: World, tx: Tx, env: Env)
    requires Ready(w, tx) && ForeignTo(env, tx.catalog.writer)
    requires tx.catalog.staged != map[] && tx.unmanaged == tx.catalog.staged.Keys
    ensures var t := Turn(w, tx, 0, env);
            && t.outcome.Some?
            && (t.outcome.value.Returned? <==>
                  && Appliable(tx.intents, CurrentPointers(tx.catalog).Keys)
                  && tx.session.base == |Arrived(w, tx, 0, env).history| - 1)
  {
    hide Recover;
    hide LandAll;
    hide Sane;
    hide Valid;
    hide Resolves;
    hide Turn;
    hide ApplyAll;
    hide TryPublish;
    TurnSplits(w, tx, 0, env);
    TurnRaises(w, tx, 0, env);
    ApplyAllContinues(w.store, tx.catalog, tx.intents);
    PublishRefusals(Arrived(w, tx, 0, env).history, tx.(catalog := AppliedWork(w, tx).catalog), 0);
    var name :| name in tx.catalog.staged;
    assert name in AppliedWork(w, tx).catalog.staged.Keys;
    if Turn(w, tx, 0, env).outcome.None? {
      RecoveredManaged(Arrived(w, tx, 0, env), tx.(catalog := AppliedWork(w, tx).catalog), SolvableAt(env, 0));
    }
  }

  lemma StagedViews(w: World, tx: Tx, env: Env)
    requires Ready(w, tx) && ForeignTo(env, tx.catalog.writer)
    requires Turn(w, tx, 0, env).outcome.Some? && Turn(w, tx, 0, env).outcome.value.Returned?
    ensures var t := Turn(w, tx, 0, env);
            && t.world.history != [] && Resolves(t.world.store, ReadPointers(Tip(t.world.history)))
            && PerformAll(View(w.store, CurrentPointers(tx.catalog)), tx.intents)
               == Some(View(t.world.store, ReadPointers(Tip(t.world.history))))
  {
    hide Turn;
    hide ApplyAll;
    TurnSplits(w, tx, 0, env);
    AppliedReady(w, tx, 0, env);
    ApplyAllRefines(w.store, tx.catalog, tx.intents);
    GrowsKeepsView(AppliedWork(w, tx).store, Arrived(w, tx, 0, env).store, CurrentPointers(AppliedWork(w, tx).catalog));
  }
}
