/**
 * A `commit` that raises leaves no trace on the branch. What the others publish does not
 * depend on the versions it wrote: those lie at locations nobody refers to, and the snapshot
 * ids it drew shift the others' ids but neither their rows nor their pointers.
 */
module NoTrace {
  import opened Options
  import opened Tables
  import opened Catalogs
  import opened Icechunk
  import opened Intents
  import opened Transactions
  import opened Commits
  import opened Progress

  /** Two versions that read the same and are as deep; snapshot ids and sequence numbers may differ. */
  predicate Alike(m: Metadata, m': Metadata) {
    FilesOf(m) == FilesOf(m') && m.log == m'.log
  }

  /** The stores agree, up to that, on all that `writer` did not write. */
  ghost predicate Similar(st: Store, st': Store, writer: nat) {
    forall loc: Location | loc.token.writer != writer ::
      && (loc in st.files <==> loc in st'.files)
      && (loc in st.files ==> Alike(st.files[loc], st'.files[loc]))
  }

  /** The pointers refer to nothing `writer` wrote. */
  ghost predicate Avoids(pointers: Pointers, writer: nat) {
    forall name | name in pointers :: pointers[name].token.writer != writer
  }

  /** No snapshot does. */
  ghost predicate Untouched(history: seq<Commit>, writer: nat) {
    forall k | 0 <= k < |history| :: Avoids(ReadPointers(history[k]), writer)
  }

  lemma RebuildAlike(m: Metadata, m': Metadata, intent: Intent, id: nat, id': nat)
    requires Alike(m, m') && !intent.CreateTable?
    ensures MakesVersion(m, intent) <==> MakesVersion(m', intent)
    ensures Alike(Rebuild(m, intent, id), Rebuild(m', intent, id'))
  {}

  lemma StageSimilar(st: Store, st': Store, c: Catalog, name: string, m: Metadata, m': Metadata, writer: nat)
    requires Similar(st, st', writer) && c.writer != writer && Avoids(CurrentPointers(c), writer) && Alike(m, m')
    ensures Stage(st, c, name, m).1 == Stage(st', c, name, m').1
    ensures Similar(Stage(st, c, name, m).0, Stage(st', c, name, m').0, writer)
    ensures Avoids(CurrentPointers(Stage(st, c, name, m).1), writer)
  {
    assert FreshLocation(c, name, m) == FreshLocation(c, name, m');
  }

  lemma IdsDoNotMatter(st: Store, st': Store, writer: nat)
    requires Similar(st, st', writer)
    ensures Similar(st.(nextId := st.nextId + 2), st'.(nextId := st'.nextId + 2), writer)
  {
    hide Alike;
  }

  lemma VersionSimilar(st: Store, st': Store, c: Catalog, intent: Intent, m: Metadata, m': Metadata, writer: nat)
    requires Similar(st, st', writer) && c.writer != writer && Avoids(CurrentPointers(c), writer) && Alike(m, m')
    requires !intent.CreateTable? && intent.name in CurrentPointers(c)
    ensures var (s, d) := Stage(st.(nextId := st.nextId + 2), c, intent.name, Logged(c, intent.name, Rebuild(m, intent, st.nextId)));
            var (s', d') := Stage(st'.(nextId := st'.nextId + 2), c, intent.name, Logged(c, intent.name, Rebuild(m', intent, st'.nextId)));
            d == d' && d.writer == c.writer && Similar(s, s', writer) && Avoids(CurrentPointers(d), writer)
  {
    hide Similar;
    hide Avoids;
    hide Rebuild;
    RebuildAlike(m, m', intent, st.nextId, st'.nextId);
    IdsDoNotMatter(st, st', writer);
    StageSimilar(st.(nextId := st.nextId + 2), st'.(nextId := st'.nextId + 2), c, intent.name,
                 Logged(c, intent.name, Rebuild(m, intent, st.nextId)), Logged(c, intent.name, Rebuild(m', intent, st'.nextId)), writer);
  }

  lemma ApplySimilar(st: Store, st': Store, c: Catalog, intent: Intent, writer: nat)
    requires Similar(st, st', writer) && c.writer != writer && Avoids(CurrentPointers(c), writer)
    ensures var a, a' := Apply(st, c, intent), Apply(st', c, intent);
            && a.catalog == a'.catalog && a.error == a'.error && a.catalog.writer == c.writer
            && Similar(a.store, a'.store, writer) && Avoids(CurrentPointers(a.catalog), writer)
  {
    hide Rebuild;
    hide MakesVersion;
    hide Alike;
    hide Stage;
    if intent.CreateTable? {
      var table := NewTable(intent.location);
      assert Alike(table, table) by { AlikeReflexive(table); }
      StageSimilar(st, st', c, intent.name, table, table, writer);
      StageKeepsWriter(st, c, intent.name, table);
    } else if intent.name in CurrentPointers(c) && CurrentPointers(c)[intent.name] in st.files {
      var m, m' := st.files[CurrentPointers(c)[intent.name]], st'.files[CurrentPointers(c)[intent.name]];
      RebuildAlike(m, m', intent, st.nextId, st'.nextId);
      VersionSimilar(st, st', c, intent, m, m', writer);
    }
  }

  lemma AlikeReflexive(m: Metadata)
    ensures Alike(m, m)
  {}

  lemma StageKeepsWriter(st: Store, c: Catalog, name: string, m: Metadata)
    ensures Stage(st, c, name, m).1.writer == c.writer
  {}

  lemma {:induction false} ApplyAllSimilar(st: Store, st': Store, c: Catalog, intents: seq<Intent>, writer: nat)
    requires Similar(st, st', writer) && c.writer != writer && Avoids(CurrentPointers(c), writer)
    ensures var a, a' := ApplyAll(st, c, intents), ApplyAll(st', c, intents);
            && a.catalog == a'.catalog && a.error == a'.error
            && Similar(a.store, a'.store, writer) && Avoids(CurrentPointers(a.catalog), writer)
    decreases |intents|
  {
    hide Apply;
    hide Similar;
    hide Avoids;
    if intents != [] {
      ApplySimilar(st, st', c, intents[0], writer);
        var first, first' := Apply(st, c, intents[0]), Apply(st', c, intents[0]);
      if first.error.None? {
        ApplyAllSimilar(first.store, first'.store, first.catalog, intents[1..], writer);
      }
    }
  }

  lemma UsedSimilar(st: Store, st': Store, writer: nat, other: nat)
    requires Similar(st, st', writer) && other != writer
    ensures Used(st, other) <==> Used(st', other)
  {
    hide Alike;
    if Used(st, other) {
      var loc :| loc in st.files && loc.token.writer == other;
      assert loc in st'.files;
    }
    if Used(st', other) {
      var loc :| loc in st'.files && loc.token.writer == other;
      assert loc in st.files;
    }
  }

  /** The same branch, and stores alike but for what `writer` wrote. */
  ghost predicate Twins(w: World, w': World, writer: nat) {
    w.history == w'.history && w.history != [] && Similar(w.store, w'.store, writer) && Untouched(w.history, writer)
  }

  lemma LandTwins(w: World, w': World, f: Foreign, writer: nat)
    requires Twins(w, w', writer) && f.writer != writer
    ensures Twins(Land(w, f), Land(w', f), writer)
  {
    hide Similar;
    hide ApplyAll;
    hide Overlay;
    UsedSimilar(w.store, w'.store, writer, f.writer);
    var c := OpenCatalog(f.writer, ReadPointers(Tip(w.history)));
    assert CurrentPointers(c) == c.pointers;
    ApplyAllSimilar(w.store, w'.store, c, f.intents, writer);
  }

  lemma {:induction false} LandAllTwins(w: World, w': World, fs: seq<Foreign>, writer: nat)
    requires Twins(w, w', writer) && forall i | 0 <= i < |fs| :: fs[i].writer != writer
    ensures Twins(LandAll(w, fs), LandAll(w', fs), writer)
    decreases |fs|
  {
    hide Similar;
    hide Untouched;
    hide Land;
    if fs != [] {
      LandTwins(w, w', fs[0], writer);
      LandAllTwins(Land(w, fs[0]), Land(w', fs[0]), fs[1..], writer);
    }
  }

  lemma OwnWritesSimilar(st: Store, st': Store, bare: Store, writer: nat)
    requires Similar(st, bare, writer) && GrowsBy(st, st', writer)
    ensures Similar(st', bare, writer)
  {
    hide Alike;
  }

  /** The branch if only the others had been there, up to `n` attempts from number `attempt` on. */
  function Others(w: World, attempt: nat, n: nat, env: Env): World
    requires w.history != []
    decreases n
  {
    if n == 0 then w else Others(LandAll(w, ArrivalsAt(env, attempt)), attempt + 1, n - 1, env)
  }

  /** The world a turn or call leaves, but for the snapshot it published itself. */
  function BeforeOwn(w: World, outcome: Option<Outcome>): World {
    if outcome.Some? && outcome.value.Returned? && w.history != [] then w.(history := w.history[..|w.history| - 1]) else w
  }

  /** A turn moves the branch as the arrivals alone do, if it gets that far, and adds at most its own snapshot. */
  lemma TurnTwins(w: World, bare: World, tx: Tx, attempt: nat, env: Env)
    requires Ready(w, tx) && ForeignTo(env, tx.catalog.writer) && Twins(w, bare, tx.catalog.writer)
    ensures var t := Turn(w, tx, attempt, env);
            if AppliedWork(w, tx).error.Some? then Twins(t.world, bare, tx.catalog.writer) && t.outcome.Some? && t.outcome.value.Raised?
            else Twins(BeforeOwn(t.world, t.outcome), LandAll(bare, ArrivalsAt(env, attempt)), tx.catalog.writer)
  {
    hide Turn;
    hide ApplyAll;
    hide Valid;
    hide Recover;
    hide Similar;
    hide Landing;
    TurnSplits(w, tx, attempt, env);
    TurnFails(w, tx, attempt, env);
    ApplyAllContinues(w.store, tx.catalog, tx.intents);
    OwnWritesSimilar(w.store, AppliedWork(w, tx).store, bare.store, tx.catalog.writer);
    ArrivalsForeign(env, tx.catalog.writer, attempt);
    LandAllTwins(w.(store := AppliedWork(w, tx).store), bare, ArrivalsAt(env, attempt), tx.catalog.writer);
  }

  lemma TurnFails(w: World, tx: Tx, attempt: nat, env: Env)
    requires Ready(w, tx) && ForeignTo(env, tx.catalog.writer)
    ensures AppliedWork(w, tx).error.Some? ==>
              Turn(w, tx, attempt, env).outcome == Some(Raised(AppliedWork(w, tx).error.value))
  {
    hide ApplyAll;
  }

  lemma {:induction false} EndsOnTwin(w: World, bare: World, tx: Tx, attempt: nat, env: Env) returns (n: nat)
    requires Ready(w, tx) && ForeignTo(env, tx.catalog.writer) && Twins(w, bare, tx.catalog.writer)
    ensures var run := Attempts(w, tx, attempt, env);
            Twins(BeforeOwn(run.world, Some(run.outcome)), Others(bare, attempt, n, env), tx.catalog.writer)
    ensures n == 0 || attempt + n <= tx.maxRetries + 1
    decreases tx.maxRetries + 1 - attempt
  {
    hide Untouched;
    hide LandAll;
    hide Sane;
    hide Recover;
    hide Turn;
    hide Valid;
    hide Similar;
    hide ApplyAll;
    if attempt > tx.maxRetries {
      n := 0;
    } else {
      var t := NextTurn(w, tx, attempt, env);
      TurnTwins(w, bare, tx, attempt, env);
      var landed := LandAll(bare, ArrivalsAt(env, attempt));
      if t.outcome.None? {
        TurnSplits(w, tx, attempt, env);
        var rest := EndsOnTwin(t.world, landed, t.tx, attempt + 1, env);
        n := rest + 1;
      } else if AppliedWork(w, tx).error.Some? {
        n := 0;
      } else {
        n := 1;
        assert Others(bare, attempt, 1, env) == Others(landed, attempt + 1, 0, env) == landed;
      }
    }
  }

  /** As many attempts as `commit` may make. */
  ghost predicate Within(n: nat, tx: Tx) {
    n == 0 || n <= tx.maxRetries + 1
  }

  /**
   * When `commit` raises, the branch is, snapshot for snapshot, what the commits of the
   * others that landed before its attempts give without it; when it returns, that and one
   * snapshot more.
   */
  lemma RaisedPublishesNothing(w: World, tx: Tx, env: Env)
    requires Ready(w, tx) && ForeignTo(env, tx.catalog.writer) && Untouched(w.history, tx.catalog.writer)
    ensures var run := Transactions.Committed(w, tx, env);
            exists n ::
              && Within(n, tx)
              && if run.outcome.Raised? then run.world.history == Others(w, 0, n, env).history
                 else run.world.history != [] && run.world.history[..|run.world.history| - 1] == Others(w, 0, n, env).history
  {
    hide Attempts;
    var noted := tx.(unmanaged := tx.catalog.staged.Keys);
    assert Twins(w, w, tx.catalog.writer);
    var n := EndsOnTwin(w, w, noted, 0, env);
    var run := Transactions.Committed(w, tx, env);
    assert Within(n, tx);
    HistoryKept(w, noted, 0, env);
    assert run.world.history != [];
    assert BeforeOwn(run.world, Some(run.outcome)).history == Others(w, 0, n, env).history;
  }
}
