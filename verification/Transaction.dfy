/**
 * A hybrid transaction: array writes staged in a session, table work recorded as
 * intents, and a bounded retry loop that publishes both in one commit. The
 * functions here give each step's meaning on values; the classes run the steps.
 */
module Transactions {
  import opened Options
  import opened Tables
  import opened Catalogs
  import opened Convention
  import opened Errors
  import opened Icechunk
  import opened Intents

  /** The warehouse and the branch, which all transactions share. */
  datatype World = World(store: Store, history: seq<Commit>)

  datatype Tx = Tx(
    session: Session,
    catalog: Catalog,
    intents: seq<Intent>,
    bases: map<string, Option<nat>>,
    unmanaged: set<string>,
    maxRetries: int)

  datatype Outcome = Returned(id: nat) | Raised(error: Error)

  // -- opening and recording ---------------------------------------------------------

  function OpenTx(history: seq<Commit>, session: Session, writer: nat, maxRetries: int): Tx
    requires session.base < |history|
  {
    Tx(session, OpenCatalog(writer, ReadPointers(history[session.base])), [], map[], {}, maxRetries)
  }

  /** The left edge of a table's conflict window: its snapshot when first needed. */
  function Capture(st: Store, tx: Tx, name: string): Tx {
    if name in tx.bases then tx
    else if name !in tx.catalog.pointers then tx.(bases := tx.bases[name := None])
    else
      match Load(st, tx.catalog, name)
      case Loaded(_, m) => tx.(bases := tx.bases[name := m.current])
      case _ => tx
  }

  /** Why capturing fails: the table's metadata cannot be loaded. */
  function CaptureError(st: Store, tx: Tx, name: string): Option<Error> {
    if name in tx.bases || name !in tx.catalog.pointers then None
    else
      match Load(st, tx.catalog, name)
      case Loaded(_, _) => None
      case MissingFile => Some(MissingMetadata(name))
      case NoSuchTable => Some(MissingTable(name))
  }

  /** `append`, `delete` and `overwrite`; a removal whose base cannot be captured is not recorded. */
  function Record(st: Store, tx: Tx, intent: Intent): Tx {
    if !intent.Removes() then tx.(intents := tx.intents + [intent])
    else if CaptureError(st, tx, intent.name).Some? then tx
    else
      var captured := Capture(st, tx, intent.name);
      captured.(intents := captured.intents + [intent])
  }

  /** `create_table`: declare the binding on the root group and record the intent. */
  function RecordCreate(history: seq<Commit>, tx: Tx, name: string, location: string): Tx
    requires tx.session.base < |history|
  {
    var attrs := Declared(SessionAttrs(history, tx.session), map[name := TableBinding(location)]);
    tx.(session := WriteAttrs(history, tx.session, attrs), intents := tx.intents + [CreateTable(name, location)])
  }

  // -- publishing ----------------------------------------------------------------------

  datatype Attempted = Published(history: seq<Commit>) | Refused(error: Error) | Conflicted

  function TryPublish(history: seq<Commit>, tx: Tx, attempt: nat): Attempted
    requires history != []
  {
    var arrayChanges := HasUncommittedChanges(tx.session);
    var nothingToPublish := tx.catalog.staged == map[] && !arrayChanges;
    if nothingToPublish && attempt == 0 then Refused(MadeNoChanges)
    else
      var tableOnly := tx.catalog.staged != map[] && !arrayChanges;
      match SessionCommit(history, tx.session, CommitMetadata(CurrentPointers(tx.catalog)), tableOnly || nothingToPublish)
      case Landed(next) => Published(next)
      case Moved => Conflicted
      case Empty => Refused(NothingToCommit)
  }

  // -- recovering ----------------------------------------------------------------------

  function Covered(intents: seq<Intent>): set<string> {
    set i | 0 <= i < |intents| :: intents[i].name
  }

  /** Staged work no intent can reproduce. */
  function Orphaned(tx: Tx): set<string> {
    tx.unmanaged + (tx.catalog.staged.Keys - Covered(tx.intents))
  }

  datatype Recovered = Recovered(tx: Tx, error: Option<Error>)

  /** Check that the work can be replayed onto `tip`, then adopt `tip` and drop what is staged. */
  function AdoptTip(st: Store, tx: Tx, tip: Pointers): Recovered
    requires GoodStore(st)
  {
    if Orphaned(tx) != {} then Recovered(tx, Some(Unreplayable(Orphaned(tx))))
    else
      var refusal := ValidateAll(st, tip, tx.intents, tx.bases);
      if refusal.Some? then Recovered(tx, refusal)
      else Recovered(tx.(catalog := RebasedOnto(tx.catalog, tip)), None)
  }

  /** Carry the session onto the tip; a refused rebase leaves it where it was. */
  function CarrySession(history: seq<Commit>, tx: Tx, solvable: bool): Recovered
    requires tx.session.base < |history|
  {
    match SessionRebase(history, tx.session, solvable)
    case None => Recovered(tx, Some(RebaseFailed))
    case Some(session) => Recovered(tx.(session := session), None)
  }

  /** `_recover`, with the tip it reads being the tip it rebases onto. */
  function Recover(w: World, tx: Tx, solvable: bool): Recovered
    requires GoodStore(w.store) && tx.session.base < |w.history|
  {
    var adopted := AdoptTip(w.store, tx, ReadPointers(Tip(w.history)));
    if adopted.error.Some? then adopted else CarrySession(w.history, adopted.tx, solvable)
  }

  // -- the environment --------------------------------------------------------------------

  /** Another transaction that opens on the tip and commits without interruption. */
  datatype Foreign = Foreign(writer: nat, intents: seq<Intent>, changes: Changes, attrs: Option<Attrs>)

  /** What lands before each attempt's compare-and-swap, and whether each rebase can be solved. */
  datatype Env = Env(arrivals: seq<seq<Foreign>>, solvable: seq<bool>)

  function ArrivalsAt(env: Env, attempt: nat): seq<Foreign> {
    if attempt < |env.arrivals| then env.arrivals[attempt] else []
  }

  predicate SolvableAt(env: Env, attempt: nat) {
    attempt < |env.solvable| ==> env.solvable[attempt]
  }

  predicate Used(st: Store, writer: nat) {
    exists loc | loc in st.files :: loc.token.writer == writer
  }

  /** One arrival; it must be a writer not seen before, and lands unless an operation's table is missing. */
  function Land(w: World, f: Foreign): World
    requires w.history != []
  {
    if Used(w.store, f.writer) then w
    else
      var a := ApplyAll(w.store, OpenCatalog(f.writer, ReadPointers(Tip(w.history))), f.intents);
      if a.error.Some? then World(a.store, w.history)
      else
        var session := Session(|w.history| - 1, f.changes, f.attrs);
        World(a.store, w.history + [Landing(Tip(w.history), session, CommitMetadata(CurrentPointers(a.catalog)))])
  }

  function LandAll(w: World, fs: seq<Foreign>): (w': World)
    requires w.history != []
    ensures w.history <= w'.history
    decreases |fs|
  {
    if fs == [] then w else LandAll(Land(w, fs[0]), fs[1..])
  }

  ghost predicate ForeignTo(env: Env, writer: nat) {
    forall i, j | 0 <= i < |env.arrivals| && 0 <= j < |env.arrivals[i]| :: env.arrivals[i][j].writer != writer
  }

  // -- validity ------------------------------------------------------------------------------

  ghost predicate Sane(w: World) {
    && GoodStore(w.store)
    && w.history != []
    && (forall i | 0 <= i < |w.history| :: Resolves(w.store, ReadPointers(w.history[i])))
  }

  ghost predicate Ready(w: World, tx: Tx) {
    Sane(w) && Valid(w.store, tx.catalog) && tx.session.base < |w.history|
  }

  lemma LandKeeps(w: World, f: Foreign)
    requires Sane(w)
    ensures var w' := Land(w, f);
            Sane(w') && w.history <= w'.history && GrowsBy(w.store, w'.store, f.writer)
  {
    if !Used(w.store, f.writer) {
      var c := OpenCatalog(f.writer, ReadPointers(Tip(w.history)));
      assert CurrentPointers(c) == c.pointers;
      assert Valid(w.store, c);
      ApplyAllContinues(w.store, c, f.intents);
    }
  }

  lemma {:induction false} LandAllKeeps(w: World, tx: Tx, fs: seq<Foreign>)
    requires Ready(w, tx) && forall i | 0 <= i < |fs| :: fs[i].writer != tx.catalog.writer
    ensures Ready(LandAll(w, fs), tx) && Grows(w.store, LandAll(w, fs).store)
    decreases |fs|
  {
    if fs != [] {
      LandKeeps(w, fs[0]);
      ValidUnderGrowth(w.store, Land(w, fs[0]).store, tx.catalog, fs[0].writer);
      LandAllKeeps(Land(w, fs[0]), tx, fs[1..]);
    }
  }

  lemma ArrivalsForeign(env: Env, writer: nat, attempt: nat)
    requires ForeignTo(env, writer)
    ensures forall i | 0 <= i < |ArrivalsAt(env, attempt)| :: ArrivalsAt(env, attempt)[i].writer != writer
  {}

  lemma SaneUnderGrowth(w: World, st: Store)
    requires Sane(w) && GoodStore(st) && Grows(w.store, st)
    ensures Sane(World(st, w.history))
  {}

  lemma RecoverKeeps(w: World, tx: Tx, solvable: bool)
    requires Ready(w, tx)
    ensures Ready(w, Recover(w, tx, solvable).tx)
    ensures Recover(w, tx, solvable).tx.catalog.writer == tx.catalog.writer
    ensures Recover(w, tx, solvable).tx.maxRetries == tx.maxRetries
  {
    hide ValidateAll;
    ValidRebased(w.store, tx.catalog, ReadPointers(Tip(w.history)));
  }

  // -- the retry loop --------------------------------------------------------------------------

  datatype Run = Run(world: World, tx: Tx, outcome: Outcome)

  /** One turn of the retry loop; without an outcome there is another. */
  datatype Turned = Turned(world: World, tx: Tx, outcome: Option<Outcome>)

  function Turn(w: World, tx: Tx, attempt: nat, env: Env): Turned
    requires Ready(w, tx) && ForeignTo(env, tx.catalog.writer)
  {
    var a := ApplyAll(w.store, tx.catalog, tx.intents);
    var applied := tx.(catalog := a.catalog);
    if a.error.Some? then Turned(w.(store := a.store), applied, Some(Raised(a.error.value)))
    else
      var landed := LandAll(w.(store := a.store), ArrivalsAt(env, attempt));
      match TryPublish(landed.history, applied, attempt)
      case Published(history) => Turned(landed.(history := history), applied, Some(Returned(|history| - 1)))
      case Refused(error) => Turned(landed, applied, Some(Raised(error)))
      case Conflicted =>
        if attempt == tx.maxRetries then Turned(landed, applied, Some(Raised(BranchMoved)))
        else
          AppliedReady(w, tx, attempt, env);
          var r := Recover(landed, applied, SolvableAt(env, attempt));
          Turned(landed, r.tx, if r.error.Some? then Some(Raised(r.error.value)) else None)
  }

  /** Applying the intents and letting the others land keeps everything in order. */
  lemma AppliedReady(w: World, tx: Tx, attempt: nat, env: Env)
    requires Ready(w, tx) && ForeignTo(env, tx.catalog.writer)
    ensures var a := ApplyAll(w.store, tx.catalog, tx.intents);
            var landed := LandAll(w.(store := a.store), ArrivalsAt(env, attempt));
            && Ready(w.(store := a.store), tx.(catalog := a.catalog))
            && Ready(landed, tx.(catalog := a.catalog))
            && Grows(w.store, a.store) && Grows(a.store, landed.store)
            && a.catalog.writer == tx.catalog.writer && a.catalog.pointers == tx.catalog.pointers
  {
    var a := ApplyAll(w.store, tx.catalog, tx.intents);
    ApplyAllContinues(w.store, tx.catalog, tx.intents);
    SaneUnderGrowth(w, a.store);
    ArrivalsForeign(env, tx.catalog.writer, attempt);
    LandAllKeeps(w.(store := a.store), tx.(catalog := a.catalog), ArrivalsAt(env, attempt));
  }

  lemma TurnReady(w: World, tx: Tx, attempt: nat, env: Env)
    requires Ready(w, tx) && ForeignTo(env, tx.catalog.writer)
    ensures var t := Turn(w, tx, attempt, env);
            t.outcome.None? || t.outcome.value.Raised? ==>
              Ready(t.world, t.tx) && t.tx.catalog.writer == tx.catalog.writer && t.tx.maxRetries == tx.maxRetries
  {
    hide Recover;
    hide ApplyAll;
    hide TryPublish;
    AppliedReady(w, tx, attempt, env);
    var a := ApplyAll(w.store, tx.catalog, tx.intents);
    var landed := LandAll(w.(store := a.store), ArrivalsAt(env, attempt));
    RecoverKeeps(landed, tx.(catalog := a.catalog), SolvableAt(env, attempt));
  }

  /** The attempts from number `attempt` on. */
  function Attempts(w: World, tx: Tx, attempt: nat, env: Env): Run
    requires Ready(w, tx) && ForeignTo(env, tx.catalog.writer)
    decreases tx.maxRetries + 1 - attempt
  {
    if attempt > tx.maxRetries then Run(w, tx, Raised(Unreachable))
    else
      TurnReady(w, tx, attempt, env);
      var t := Turn(w, tx, attempt, env);
      match t.outcome
      case Some(outcome) => Run(t.world, t.tx, outcome)
      case None => Attempts(t.world, t.tx, attempt + 1, env)
  }

  /** `commit()`: note what is staged already, then try. */
  function Committed(w: World, tx: Tx, env: Env): Run
    requires Ready(w, tx) && ForeignTo(env, tx.catalog.writer)
  {
    Attempts(w, tx.(unmanaged := tx.catalog.staged.Keys), 0, env)
  }

  // -- the objects --------------------------------------------------------------------------------

  class Repository {
    const warehouse: Warehouse
    var history: seq<Commit>

    constructor (warehouse: Warehouse)
      ensures this.warehouse == warehouse && history == [INITIAL]
    {
      this.warehouse := warehouse;
      this.history := [INITIAL];
    }

    function Value(): World
      reads this, warehouse
    {
      World(warehouse.Value(), history)
    }

    /** Other writers commit. */
    method Receive(arrivals: seq<Foreign>)
      requires history != []
      modifies this, warehouse
      ensures Value() == LandAll(old(Value()), arrivals)
    {
      var i := 0;
      while i < |arrivals|
        invariant 0 <= i <= |arrivals| && history != []
        invariant LandAll(Value(), arrivals[i..]) == LandAll(old(Value()), arrivals)
      {
        var next := Land(Value(), arrivals[i]);
        assert arrivals[i..][0] == arrivals[i] && arrivals[i..][1..] == arrivals[i + 1..];
        history, warehouse.files, warehouse.nextId := next.history, next.store.files, next.store.nextId;
        i := i + 1;
      }
    }
  }

  class WritableSession {
    var base: nat
    var changes: Changes
    var attrs: Option<Attrs>

    constructor (base: nat)
      ensures Value() == Session(base, map[], None)
    {
      this.base, this.changes, this.attrs := base, map[], None;
    }

    function Value(): Session
      reads this
    {
      Session(base, changes, attrs)
    }

    method DiscardChanges()
      modifies this
      ensures Value() == Discarded(old(Value()))
      ensures changes == map[] && attrs.None?
    {
      changes, attrs := map[], None;
    }
  }

  class HybridTransaction {
    const repo: Repository
    const session: WritableSession
    const catalog: IcechunkCatalog
    const maxRetries: int
    var intents: seq<Intent>
    var bases: map<string, Option<nat>>
    var unmanaged: set<string>
    var snapshotId: Option<nat>

    constructor (repo: Repository, session: WritableSession, writer: nat, maxRetries: int)
      requires session.base < |repo.history|
      ensures this.repo == repo && this.session == session && fresh(catalog)
      ensures catalog.warehouse == repo.warehouse && !catalog.readOnly && catalog.writer == writer
      ensures Value() == OpenTx(repo.history, session.Value(), writer, maxRetries) && snapshotId.None?
      ensures Sane(repo.Value()) && !Used(repo.warehouse.Value(), writer) ==> Consistent()
    {
      this.repo, this.session, this.maxRetries := repo, session, maxRetries;
      this.catalog := new IcechunkCatalog(repo.warehouse, writer, ReadPointers(repo.history[session.base]), false);
      this.intents, this.bases, this.unmanaged, this.snapshotId := [], map[], {}, None;
    }

    function Value(): Tx
      reads this, session, catalog
    {
      Tx(session.Value(), catalog.Value(), intents, bases, unmanaged, maxRetries)
    }

    /** The base of `name` is recorded: an earlier one stays, and a first one is what the table resolves to. */
    ghost predicate Captured(before: Tx, name: string, bases: map<string, Option<nat>>)
      reads repo.warehouse
    {
      && bases.Keys == before.bases.Keys + {name}
      && (forall other | other in before.bases :: bases[other] == before.bases[other])
      && (name !in before.bases ==>
            if name in before.catalog.pointers then
              var location := CurrentPointers(before.catalog)[name];
              location in repo.warehouse.files && bases[name] == repo.warehouse.files[location].current
            else bases[name] == Option.None)
    }

    /** The base of `name` is recorded already, needs no reading, or can be read. */
    predicate Capturable(name: string)
      reads this, catalog, repo, repo.warehouse
    {
      name in bases || name !in catalog.pointers || CurrentPointers(catalog.Value())[name] in repo.warehouse.files
    }

    ghost predicate Consistent()
      reads this, session, catalog, repo, repo.warehouse
    {
      && catalog.warehouse == repo.warehouse
      && !catalog.readOnly
      && Ready(repo.Value(), Value())
    }

    // -- staging

    method CreateTable(name: string, location: string)
      requires session.base < |repo.history|
      modifies this`intents, session
      ensures Value() == RecordCreate(repo.history, old(Value()), name, location)
      ensures old(Consistent()) ==> Consistent()
      ensures intents == old(intents) + [Intent.CreateTable(name, location)]
      ensures var tables := SessionAttrs(repo.history, session.Value()).tables;
              tables.Some? && name in tables.value && tables.value[name] == map["location" := location]
    {
      var before := SessionAttrs(repo.history, session.Value());
      var group := new Group(before);
      group.Declare(map[name := TableBinding(location)]);
      if group.writes != 0 {
        session.attrs := Some(group.attrs);
      }
      intents := intents + [Intent.CreateTable(name, location)];
    }

    method CaptureBaseSnapshot(name: string) returns (error: Option<Error>)
      requires catalog.warehouse == repo.warehouse
      modifies this`bases
      ensures Value() == Capture(repo.warehouse.Value(), old(Value()), name)
      ensures error == if old(Capturable(name)) then None else Some(MissingMetadata(name))
      ensures if error.None? then Captured(old(Value()), name, bases) else bases == old(bases)
      ensures error == CaptureError(repo.warehouse.Value(), old(Value()), name)
      ensures old(Consistent()) ==> Consistent() && error.None?
    {
      if name in bases {
        return None;
      }
      if name !in catalog.pointers {
        bases := bases[name := Option.None];
        return None;
      }
      var loaded := catalog.LoadTable(name);
      match loaded
      case NoSuchTable => return Some(MissingTable(name));
      case MissingFile => return Some(MissingMetadata(name));
      case Loaded(_, m) =>
        bases := bases[name := m.current];
        return None;
    }

    method Append(name: string, data: seq<Row>)
      modifies this`intents
      ensures Value() == Record(repo.warehouse.Value(), old(Value()), AppendRows(name, data))
      ensures intents == old(intents) + [AppendRows(name, data)]
      ensures old(Consistent()) ==> Consistent()
    {
      intents := intents + [AppendRows(name, data)];
    }

    method Delete(name: string, filter: Filter) returns (error: Option<Error>)
      requires catalog.warehouse == repo.warehouse
      modifies this`intents, this`bases
      ensures Value() == Record(repo.warehouse.Value(), old(Value()), DeleteRows(name, filter))
      ensures error == if old(Capturable(name)) then None else Some(MissingMetadata(name))
      ensures intents == old(intents) + if error.None? then [DeleteRows(name, filter)] else []
      ensures if error.None? then Captured(old(Value()), name, bases) else bases == old(bases)
      ensures old(Consistent()) ==> Consistent() && error.None?
    {
      error := CaptureBaseSnapshot(name);
      if error.None? {
        intents := intents + [DeleteRows(name, filter)];
      }
    }

    method Overwrite(name: string, data: seq<Row>, filter: Filter) returns (error: Option<Error>)
      requires catalog.warehouse == repo.warehouse
      modifies this`intents, this`bases
      ensures Value() == Record(repo.warehouse.Value(), old(Value()), OverwriteRows(name, data, filter))
      ensures error == if old(Capturable(name)) then None else Some(MissingMetadata(name))
      ensures intents == old(intents) + if error.None? then [OverwriteRows(name, data, filter)] else []
      ensures if error.None? then Captured(old(Value()), name, bases) else bases == old(bases)
      ensures old(Consistent()) ==> Consistent() && error.None?
    {
      error := CaptureBaseSnapshot(name);
      if error.None? {
        intents := intents + [OverwriteRows(name, data, filter)];
      }
    }

    // -- committing

    /** Apply every intent to the catalog, stopping at the first that fails. */
    method ApplyIntents() returns (error: Option<Error>)
      requires catalog.warehouse == repo.warehouse && !catalog.readOnly
      modifies catalog, repo.warehouse
      ensures Applied(repo.warehouse.Value(), catalog.Value(), error)
           == ApplyAll(old(repo.warehouse.Value()), old(catalog.Value()), intents)
    {
      var i := 0;
      while i < |intents|
        invariant 0 <= i <= |intents|
        invariant ApplyAll(repo.warehouse.Value(), catalog.Value(), intents[i..])
               == ApplyAll(old(repo.warehouse.Value()), old(catalog.Value()), intents)
      {
        assert intents[i..][0] == intents[i] && intents[i..][1..] == intents[i + 1..];
        error := ApplyTo(catalog, intents[i]);
        if error.Some? {
          return;
        }
        i := i + 1;
      }
      return None;
    }

    method RecoverFromConflict(solvable: bool) returns (error: Option<Error>)
      requires Consistent()
      modifies session, catalog
      ensures Recovered(Value(), error) == Recover(repo.Value(), old(Value()), solvable)
    {
      var tip := ReadPointers(Tip(repo.history));
      var orphaned := unmanaged + (catalog.staged.Keys - Covered(intents));
      if orphaned != {} {
        return Some(Unreplayable(orphaned));
      }
      var i := 0;
      while i < |intents|
        invariant 0 <= i <= |intents|
        invariant ValidateAll(repo.warehouse.Value(), tip, intents[i..], bases)
               == ValidateAll(repo.warehouse.Value(), tip, intents, bases)
      {
        assert intents[i..][0] == intents[i] && intents[i..][1..] == intents[i + 1..];
        error := Validate(repo.warehouse.Value(), tip, intents[i], Get(bases, intents[i].name));
        if error.Some? {
          return;
        }
        i := i + 1;
      }
      catalog.RebaseOnto(tip);
      var rebased := SessionRebase(repo.history, session.Value(), solvable);
      if rebased.None? {
        return Some(RebaseFailed);
      }
      session.base := rebased.value.base;
      return None;
    }

    /** One compare-and-swap, with the other writers' commits that arrive before it. */
    method TryCommit(attempt: nat, arrivals: seq<Foreign>) returns (result: Attempted)
      requires catalog.warehouse == repo.warehouse && repo.history != []
      modifies repo, repo.warehouse
      ensures var landed := LandAll(old(repo.Value()), arrivals);
              && result == TryPublish(landed.history, Value(), attempt)
              && repo.Value() == if result.Published? then landed.(history := result.history) else landed
      ensures Value() == old(Value())
    {
      var pointers := catalog.pointers + catalog.staged;
      var arrayChanges := HasUncommittedChanges(session.Value());
      var nothingToPublish := catalog.staged == map[] && !arrayChanges;
      repo.Receive(arrivals);
      if nothingToPublish && attempt == 0 {
        return Refused(MadeNoChanges);
      }
      var tableOnly := catalog.staged != map[] && !arrayChanges;
      var allowEmpty := tableOnly || nothingToPublish;
      match SessionCommit(repo.history, session.Value(), CommitMetadata(pointers), allowEmpty)
      case Landed(history) =>
        repo.history := history;
        return Published(history);
      case Moved =>
        return Conflicted;
      case Empty =>
        return Refused(NothingToCommit);
    }

    /** One turn of the retry loop; None asks for another. */
    method Attempt(attempt: nat, env: Env) returns (outcome: Option<Outcome>)
      requires Consistent() && ForeignTo(env, catalog.writer) && attempt <= maxRetries
      modifies session, catalog, repo, repo.warehouse
      ensures Turned(repo.Value(), Value(), outcome) == Turn(old(repo.Value()), old(Value()), attempt, env)
      ensures outcome.None? || outcome.value.Raised? ==> Consistent()
    {
      hide Valid;
      hide GoodStore;
      hide ApplyAll;
      hide ValidateAll;
      AppliedReady(repo.Value(), Value(), attempt, env);
      TurnReady(repo.Value(), Value(), attempt, env);
      var error := ApplyIntents();
      if error.Some? {
        return Some(Raised(error.value));
      }
      var result := TryCommit(attempt, ArrivalsAt(env, attempt));
      match result
      case Published(history) =>
        return Some(Returned(|history| - 1));
      case Refused(refusal) =>
        return Some(Raised(refusal));
      case Conflicted =>
        if attempt == maxRetries {
          return Some(Raised(BranchMoved));
        }
        var refused := RecoverFromConflict(SolvableAt(env, attempt));
        if refused.Some? {
          return Some(Raised(refused.value));
        }
        return None;
    }

    method Commit(env: Env) returns (outcome: Outcome)
      requires Consistent() && snapshotId.None? && ForeignTo(env, catalog.writer)
      modifies this, session, catalog, repo, repo.warehouse
      ensures Run(repo.Value(), Value(), outcome) == Committed(old(repo.Value()), old(Value()), env)
      ensures snapshotId == if outcome.Returned? then Some(outcome.id) else None
      ensures outcome.Raised? ==> Consistent()
    {
      hide Turn;
      hide Valid;
      hide GoodStore;
      unmanaged := catalog.staged.Keys;
      ghost var run := Attempts(repo.Value(), Value(), 0, env);
      var attempt := 0;
      while attempt <= maxRetries
        invariant 0 <= attempt
        invariant Consistent() && snapshotId.None?
        invariant Attempts(repo.Value(), Value(), attempt, env) == run
        decreases maxRetries + 1 - attempt
      {
        var ended := Attempt(attempt, env);
        if ended.Some? {
          if ended.value.Returned? {
            snapshotId := Some(ended.value.id);
          }
          return ended.value;
        }
        attempt := attempt + 1;
      }
      return Raised(Unreachable);
    }

    /**
     * Leaving the `with` block: commit unless the body failed, and drop the staged
     * array writes when anything did. None is the body's own exception passing through.
     */
    method Exit(bodyFailed: bool, env: Env) returns (outcome: Option<Outcome>)
      requires Consistent() && snapshotId.None? && ForeignTo(env, catalog.writer)
      modifies this, session, catalog, repo, repo.warehouse
      ensures bodyFailed ==> outcome.None? && repo.Value() == old(repo.Value())
                             && session.Value() == Discarded(old(session.Value()))
      ensures !bodyFailed ==>
                var run := Committed(old(repo.Value()), old(Value()), env);
                && outcome == Some(run.outcome) && repo.Value() == run.world
                && session.Value() == if run.outcome.Raised? then Discarded(run.tx.session) else run.tx.session
      ensures outcome.None? || outcome.value.Raised? ==> session.changes == map[] && session.attrs.None?
    {
      if bodyFailed {
        session.DiscardChanges();
        return None;
      }
      var result := Commit(env);
      if result.Raised? {
        session.DiscardChanges();
      }
      return Some(result);
    }
  }
}
