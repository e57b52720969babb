/**
 * What is staged is exactly what the recorded operations mean, and no intent can be
 * published twice, however often `commit` is called.
 */
module Replay {
  import opened Options
  import opened Catalogs
  import opened Errors
  import opened Icechunk
  import opened Intents
  import opened Transactions
  import opened Protocol
  import opened Invariants

  /** The overlay shows the base tables with `ops` performed on them, in order. */
  ghost predicate Refines(w: World, c: Client)
    requires Resolves(w.store, c.tx.catalog.pointers) && Resolves(w.store, CurrentPointers(c.tx.catalog))
  {
    PerformAll(View(w.store, c.tx.catalog.pointers), c.ops) == Some(View(w.store, CurrentPointers(c.tx.catalog)))
  }

  function Attempt(c: Client): nat {
    match c.pc
    case Applying(attempt, _) => attempt
    case Conflicted(attempt) => attempt
    case Adopting(attempt, _) => attempt
    case _ => 0
  }

  /** The names a table operation can find now. */
  function Names(c: Client): set<string> {
    CurrentPointers(c.tx.catalog).Keys
  }

  /** Inside `commit`: what was staged beforehand, then the intents applied so far, and nothing else. */
  ghost predicate Accounts(c: Client) {
    InCommit(c) ==>
      && Progress(c) <= |c.tx.intents|
      && c.ops == c.startOps + c.tx.intents[..Progress(c)]
      && (c.tx.unmanaged == {} ==> c.startOps == [])
      && (Attempt(c) > 0 ==> c.tx.unmanaged == {})
      && c.tx.unmanaged <= c.tx.catalog.staged.Keys <= c.tx.unmanaged + Covered(c.tx.intents[..Progress(c)])
  }

  /** And every intent finds its table, after a recovery all of them. */
  ghost predicate Books(c: Client) {
    && Accounts(c)
    && (InCommit(c) ==>
          && Covered(c.tx.intents[..Progress(c)]) <= Names(c)
          && (c.pc.Applying? && c.pc.attempt > 0 ==> Appliable(c.tx.intents[c.pc.next..], Names(c))))
  }

  /**
   * Without direct changes, leftovers of an earlier `commit` block publication: the base
   * is stale, or some intent's table is missing.
   */
  ghost predicate Blocked(w: World, c: Client) {
    !c.direct ==>
      && (c.pc.Idle? && c.tx.catalog.staged != map[] ==> !Fresh(w, c) || !Appliable(c.tx.intents, Names(c)))
      && (c.pc.Applying? && c.pc.next <= |c.tx.intents| && c.tx.unmanaged != {} ==>
            !Fresh(w, c) || !Appliable(c.tx.intents[c.pc.next..], Names(c)))
  }

  // -- the others' steps ---------------------------------------------------------------

  lemma ReplayStable(w: World, w': World, other: nat, writer: nat, c: Client)
    requires Sane(w) && Basic(w, writer, c) && Refines(w, c) && Blocked(w, c)
    requires Sane(w') && Basic(w', writer, c) && Evolves(w, w', other)
    ensures Refines(w', c) && Blocked(w', c)
  {
    GrowsKeepsView(w.store, w'.store, c.tx.catalog.pointers);
    GrowsKeepsView(w.store, w'.store, CurrentPointers(c.tx.catalog));
  }

  // -- own steps -------------------------------------------------------------------------

  /** Staging one more operation. */
  lemma RefinesApply(w: World, writer: nat, c: Client, intent: Intent)
    requires Sane(w) && Tracked(w, writer, c) && Refines(w, c)
    ensures var a := Apply(w.store, c.tx.catalog, intent);
            && Valid(a.store, a.catalog)
            && (a.error.None? ==>
                  Refines(w.(store := a.store), c.(tx := c.tx.(catalog := a.catalog), ops := c.ops + [intent])))
            && (a.error.Some? ==> a.store == w.store && a.catalog == c.tx.catalog)
  {
    var a := Apply(w.store, c.tx.catalog, intent);
    ApplyRefines(w.store, c.tx.catalog, intent);
    GrowsKeepsView(w.store, a.store, c.tx.catalog.pointers);
    PerformAllAppend(View(w.store, c.tx.catalog.pointers), c.ops, intent);
  }

  lemma NothingStaged(w: World, c: Client)
    requires c.tx.catalog.staged == map[] && Resolves(w.store, c.tx.catalog.pointers) && c.ops == []
    ensures CurrentPointers(c.tx.catalog) == c.tx.catalog.pointers && Refines(w, c)
  {
    assert c.tx.catalog.pointers + c.tx.catalog.staged == c.tx.catalog.pointers;
  }

  lemma RefinesFinish(w: World, writer: nat, c: Client, solvable: bool)
    requires Sane(w) && Tracked(w, writer, c) && Shape(w, c) && Refines(w, c) && c.pc.Adopting?
    requires Tracked(w, writer, DoFinish(w, c, solvable))
    ensures Refines(w, DoFinish(w, c, solvable))
  {
    var c' := DoFinish(w, c, solvable);
    if AdoptTip(w.store, c.tx, ReadPointers(w.history[c.pc.read])).error.None? {
      NothingStaged(w, c');
    }
  }

  /** Steps that leave the catalog and the operations behind it alone. */
  lemma RefinesSame(w: World, c: Client, w': World, c': Client)
    requires Resolves(w.store, c.tx.catalog.pointers) && Resolves(w.store, CurrentPointers(c.tx.catalog)) && Refines(w, c)
    requires w'.store == w.store && c'.tx.catalog == c.tx.catalog && c'.ops == c.ops
    ensures Refines(w', c')
  {}

  /** Does the event touch the catalog, or what is recorded about it? */
  predicate Stages(c: Client, e: Event) {
    || (e.Direct? && c.pc.Idle?)
    || (e.ApplyNext? && c.pc.Applying? && c.pc.next < |c.tx.intents|)
    || (e.StartCommit? && c.pc.Idle?)
    || (e.FinishRecover? && c.pc.Adopting?)
  }

  lemma ActsElsewhere(w: World, c: Client, e: Event)
    requires Shape(w, c) && !Stages(c, e)
    ensures var a := Act(w, c, e);
            a.world.store == w.store && a.client.tx.catalog == c.tx.catalog && a.client.ops == c.ops
  {}

  lemma RefinesStart(w: World, c: Client)
    requires Resolves(w.store, c.tx.catalog.pointers) && Resolves(w.store, CurrentPointers(c.tx.catalog)) && Refines(w, c)
    ensures Refines(w, DoStart(c))
  {
    if c.tx.catalog.staged == map[] {
      NothingStaged(w, DoStart(c));
    }
  }

  lemma RefinesDirect(w: World, writer: nat, c: Client, intent: Intent)
    requires Sane(w) && Tracked(w, writer, c) && Refines(w, c)
    requires var a := DoDirect(w, c, intent); Tracked(a.world, writer, a.client)
    ensures var a := DoDirect(w, c, intent); Refines(a.world, a.client)
  {
    RefinesApply(w, writer, c, intent);
  }

  lemma RefinesNext(w: World, writer: nat, c: Client)
    requires Sane(w) && Tracked(w, writer, c) && Refines(w, c) && c.pc.Applying? && c.pc.next < |c.tx.intents|
    requires var a := DoApply(w, c); Tracked(a.world, writer, a.client)
    ensures var a := DoApply(w, c); Refines(a.world, a.client)
  {
    RefinesApply(w, writer, c, c.tx.intents[c.pc.next]);
  }

  lemma RefinesTakes(w: World, writer: nat, c: Client, e: Event, a: Acted)
    requires Sane(w) && Tracked(w, writer, c) && Shape(w, c) && Refines(w, c) && Takes(w, c, e, a) && !e.Publish?
    requires Tracked(a.world, writer, a.client)
    ensures Refines(a.world, a.client)
  {
    match e
    case Direct(_, intent) => RefinesDirect(w, writer, c, intent);
    case StartCommit(_) => RefinesStart(w, c);
    case ApplyNext(_) => RefinesNext(w, writer, c);
    case FinishRecover(_, solvable) => RefinesFinish(w, writer, c, solvable);
  }

  lemma RefinesActs(w: World, writer: nat, c: Client, e: Event)
    requires Sane(w) && Tracked(w, writer, c) && Shape(w, c) && Refines(w, c)
    requires Tracked(Act(w, c, e).world, writer, Act(w, c, e).client)
    ensures Refines(Act(w, c, e).world, Act(w, c, e).client)
  {
    if !Stages(c, e) {
      ActsElsewhere(w, c, e);
      RefinesSame(w, c, Act(w, c, e).world, Act(w, c, e).client);
    } else {
      ActTakes(w, c, e);
      RefinesTakes(w, writer, c, e, Act(w, c, e));
    }
  }

  // -- the books ----------------------------------------------------------------------

  lemma {:induction false} AppliablePrefix(intents: seq<Intent>, last: Intent, names: set<string>)
    requires Appliable(intents + [last], names)
    ensures Appliable(intents, names)
  {
    if intents != [] {
      assert (intents + [last])[0] == intents[0] && (intents + [last])[1..] == intents[1..] + [last];
      AppliablePrefix(intents[1..], last, names + {intents[0].name});
    }
  }

  /** An intent that just failed on a missing table fails again from here, whatever was applied before it. */
  lemma {:induction false} FailsAgain(intents: seq<Intent>, names: set<string>, i: nat)
    requires i < |intents| && Covered(intents[..i]) <= names
    requires !intents[i].CreateTable? && intents[i].name !in names
    ensures !Appliable(intents, names)
    decreases i
  {
    if i > 0 {
      assert intents[..i][0] == intents[0];
      assert intents[0].name in Covered(intents[..i]);
      assert names + {intents[0].name} == names;
      assert intents[1..][i - 1] == intents[i];
      forall name | name in Covered(intents[1..][..i - 1]) ensures name in names {
        var j :| 0 <= j < i - 1 && intents[1..][..i - 1][j].name == name;
        assert intents[..i][j + 1].name == name;
      }
      FailsAgain(intents[1..], names, i - 1);
    }
  }

  lemma CoveredSnoc(intents: seq<Intent>, i: nat)
    requires i < |intents|
    ensures intents[..i + 1] == intents[..i] + [intents[i]]
    ensures Covered(intents[..i + 1]) == Covered(intents[..i]) + {intents[i].name}
  {
    var more := intents[..i + 1];
    assert more == intents[..i] + [intents[i]];
    forall name | name in Covered(intents[..i]) ensures name in Covered(more) {
      var j :| 0 <= j < i && intents[..i][j].name == name;
      assert more[j].name == name;
    }
    assert more[i].name in Covered(more);
    forall name | name in Covered(more) ensures name in Covered(intents[..i]) + {intents[i].name} {
      var j :| 0 <= j < i + 1 && more[j].name == name;
      assert j < i ==> intents[..i][j].name == name;
    }
  }

  /** Staging one operation can only stage its own table. */
  lemma ApplyStages(st: Store, c: Catalog, intent: Intent)
    requires Resolves(st, CurrentPointers(c))
    ensures var a := Apply(st, c, intent);
            && c.staged.Keys <= a.catalog.staged.Keys <= c.staged.Keys + {intent.name}
            && a.catalog.pointers == c.pointers
  {
    if !intent.CreateTable? && intent.name in CurrentPointers(c) {
      if MakesVersion(st.files[CurrentPointers(c)[intent.name]], intent) {
        ApplyIsCommit(st, c, intent);
      }
    }
  }

  lemma ApplyFailsClean(st: Store, c: Catalog, intent: Intent)
    requires Resolves(st, CurrentPointers(c))
    ensures var a := Apply(st, c, intent);
            a.error.Some? ==> a.catalog == c && !intent.CreateTable? && intent.name !in CurrentPointers(c)
  {}

  lemma RestSplits(intents: seq<Intent>, i: nat)
    requires i < |intents|
    ensures intents[i..] == [intents[i]] + intents[i + 1..] && intents[i..][1..] == intents[i + 1..]
  {}

  lemma BooksApplied(w: World, c: Client)
    requires Resolves(w.store, CurrentPointers(c.tx.catalog)) && c.pc.Applying? && c.pc.next < |c.tx.intents|
    requires Books(c) && Apply(w.store, c.tx.catalog, c.tx.intents[c.pc.next]).error.None?
    ensures Books(DoApply(w, c).client)
  {
    var i := c.pc.next;
    ApplyNames(w.store, c.tx.catalog, c.tx.intents[i]);
    ApplyStages(w.store, c.tx.catalog, c.tx.intents[i]);
    CoveredSnoc(c.tx.intents, i);
    RestSplits(c.tx.intents, i);
    assert c.startOps + c.tx.intents[..i] + [c.tx.intents[i]] == c.startOps + c.tx.intents[..i + 1];
  }

  lemma BlockedApplied(w: World, c: Client)
    requires Resolves(w.store, CurrentPointers(c.tx.catalog)) && c.pc.Applying? && c.pc.next < |c.tx.intents|
    requires Blocked(w, c) && Apply(w.store, c.tx.catalog, c.tx.intents[c.pc.next]).error.None?
    ensures Blocked(DoApply(w, c).world, DoApply(w, c).client)
  {
    ApplyNames(w.store, c.tx.catalog, c.tx.intents[c.pc.next]);
    RestSplits(c.tx.intents, c.pc.next);
  }

  /** One intent applied, or the whole attempt given up. */
  lemma BooksApply(w: World, c: Client)
    requires Resolves(w.store, CurrentPointers(c.tx.catalog)) && c.pc.Applying? && c.pc.next < |c.tx.intents|
    requires Books(c) && Blocked(w, c)
    ensures var a := DoApply(w, c); Books(a.client) && Blocked(a.world, a.client)
    ensures c.pc.attempt > 0 ==> DoApply(w, c).client.pc.Applying?
  {
    var i := c.pc.next;
    RestSplits(c.tx.intents, i);
    ApplyNames(w.store, c.tx.catalog, c.tx.intents[i]);
    if Apply(w.store, c.tx.catalog, c.tx.intents[i]).error.None? {
      BooksApplied(w, c);
      BlockedApplied(w, c);
    } else {
      ApplyFailsClean(w.store, c.tx.catalog, c.tx.intents[i]);
      FailsAgain(c.tx.intents, Names(c), i);
    }
  }

  /** A compare-and-swap that fails means the tip has moved; nothing else can refuse after the first attempt. */
  lemma BooksPublish(w: World, c: Client)
    requires w.history != [] && c.tx.session.base < |w.history|
    requires c.pc.Applying? && c.pc.next == |c.tx.intents| && Books(c) && Blocked(w, c)
    ensures var a := DoPublish(w, c); Books(a.client) && Blocked(a.world, a.client)
    ensures c.pc.attempt > 0 && DoPublish(w, c).client.pc.Idle? ==> !Fresh(w, c)
    ensures DoPublish(w, c).client.pc.Idle? ==> !Fresh(w, c) || c.tx.catalog.staged == map[]
  {
    hide Overlay;
  }

  /** Adopting a tip that still has every table leaves nothing staged and every intent applicable. */
  lemma BooksFinish(w: World, c: Client, solvable: bool)
    requires Shape(w, c) && c.pc.Adopting? && Books(c) && !Fresh(w, c)
    requires Appliable(c.tx.intents, c.tx.catalog.pointers.Keys) || c.tx.unmanaged != {}
    requires c.tx.catalog.pointers.Keys <= ReadPointers(w.history[c.pc.read]).Keys
    ensures Books(DoFinish(w, c, solvable)) && Blocked(w, DoFinish(w, c, solvable))
  {
    hide DoFinish;
    var c' := DoFinish(w, c, solvable);
    FinishKeeps(w, c, solvable);
    if c'.pc.Applying? {
      assert c.tx.unmanaged == {} by { assert c.tx.unmanaged <= Orphaned(c.tx); }
      AppliableMonotone(c.tx.intents, c.tx.catalog.pointers.Keys, ReadPointers(w.history[c.pc.read]).Keys);
      assert Names(c') == ReadPointers(w.history[c.pc.read]).Keys;
      assert c.tx.intents[..0] == [] && c.tx.intents[0..] == c.tx.intents;
    }
  }

  lemma BooksStart(w: World, c: Client)
    requires c.pc.Idle? && Blocked(w, c)
    ensures Books(DoStart(c)) && Blocked(w, DoStart(c))
  {
    assert c.tx.intents[..0] == [] && c.tx.intents[0..] == c.tx.intents;
    assert DoStart(c).startOps + [] == DoStart(c).startOps;
  }

  /** Recording work while leftovers block publication leaves it blocked. */
  lemma BlockedMoreIntents(w: World, c: Client, c': Client, intent: Intent)
    requires c.pc.Idle? && c'.pc.Idle? && Blocked(w, c)
    requires c'.tx.catalog == c.tx.catalog && c'.tx.session.base == c.tx.session.base && c'.direct == c.direct
    requires c'.tx.intents == c.tx.intents + [intent]
    ensures Blocked(w, c')
  {
    if Appliable(c'.tx.intents, Names(c')) {
      AppliablePrefix(c.tx.intents, intent, Names(c));
    }
  }

  /** Once every intent was applied on a clean start, they are all applicable to the base pointers. */
  lemma AllApplied(w: World, writer: nat, c: Client)
    requires Sane(w) && Basic(w, writer, c) && Refines(w, c) && Books(c)
    requires InCommit(c) && Progress(c) == |c.tx.intents| && c.tx.unmanaged == {}
    ensures c.ops == c.tx.intents && Appliable(c.tx.intents, c.tx.catalog.pointers.Keys)
  {
    assert c.tx.intents[..|c.tx.intents|] == c.tx.intents;
    assert View(w.store, c.tx.catalog.pointers).Keys == c.tx.catalog.pointers.Keys;
    AppliableIsPerformable(View(w.store, c.tx.catalog.pointers), c.tx.intents);
  }

  lemma BooksRecover(w: World, writer: nat, c: Client, solvable: bool)
    requires Lineage(w) && Basic(w, writer, c) && Shape(w, c) && Refines(w, c)
    requires c.pc.Adopting? && Books(c)
    ensures Books(DoFinish(w, c, solvable)) && Blocked(w, DoFinish(w, c, solvable))
  {
    if c.tx.unmanaged == {} {
      AllApplied(w, writer, c);
    }
    assert PointersExtend(w.store, ReadPointers(w.history[c.origin]), ReadPointers(w.history[c.pc.read]));
    BooksFinish(w, c, solvable);
  }

  lemma BooksPlan(w: World, c: Client, e: Event)
    requires Shape(w, c) && c.pc.Idle? && Books(c) && Blocked(w, c) && (e.Create? || e.Plan?)
    ensures Books(Act(w, c, e).client) && Blocked(Act(w, c, e).world, Act(w, c, e).client)
  {
    if e.Create? {
      BlockedMoreIntents(w, c, Act(w, c, e).client, CreateTable(e.name, e.location));
    } else if !e.intent.CreateTable? && Act(w, c, e).client.tx.intents != c.tx.intents {
      BlockedMoreIntents(w, c, Act(w, c, e).client, e.intent);
    }
  }

  lemma BooksTakes(w: World, writer: nat, c: Client, e: Event, a: Acted)
    requires Lineage(w) && Basic(w, writer, c) && Shape(w, c) && Refines(w, c)
    requires Books(c) && Blocked(w, c) && Takes(w, c, e, a) && !e.Direct?
    ensures Books(a.client) && Blocked(a.world, a.client)
  {
    match e
    case StartCommit(_) => BooksStart(w, c);
    case ApplyNext(_) => BooksApply(w, c);
    case Publish(_) => BooksPublish(w, c);
    case FinishRecover(_, solvable) => BooksRecover(w, writer, c, solvable);
  }

  lemma BooksElsewhere(w: World, c: Client, e: Event)
    requires Shape(w, c) && Books(c) && Blocked(w, c)
    requires !Enabled(c, e) || e.Direct?
    requires (e.Create? || e.Plan?) ==> !c.pc.Idle?
    ensures Books(Act(w, c, e).client) && Blocked(Act(w, c, e).world, Act(w, c, e).client)
  {}

  /** A transaction's own step keeps its books, and keeps leftovers from being published. */
  lemma BooksActs(w: World, writer: nat, c: Client, e: Event)
    requires Lineage(w) && Basic(w, writer, c) && Shape(w, c) && Refines(w, c)
    requires Books(c) && Blocked(w, c)
    ensures Books(Act(w, c, e).client) && Blocked(Act(w, c, e).world, Act(w, c, e).client)
  {
    if (e.Create? || e.Plan?) && c.pc.Idle? {
      BooksPlan(w, c, e);
    } else if Enabled(c, e) && !e.Direct? {
      ActTakes(w, c, e);
      BooksTakes(w, writer, c, e, Act(w, c, e));
    } else {
      BooksElsewhere(w, c, e);
    }
  }

  // -- what the books say at publication and at recovery -----------------------------------

  /** What gets published is what was staged before `commit` plus every intent once, in order. */
  lemma PublishedOps(w: World, writer: nat, c: Client)
    requires Sane(w) && Basic(w, writer, c) && Books(c) && Blocked(w, c)
    requires c.pc.Applying? && c.pc.next == |c.tx.intents| && DoPublish(w, c).published
    ensures c.ops == c.startOps + c.tx.intents
    ensures c.pc.attempt > 0 || !c.direct ==> c.ops == c.tx.intents
    ensures Attempt(c) > 0 ==> c.tx.unmanaged == {}
  {
    assert c.tx.intents[..|c.tx.intents|] == c.tx.intents;
    assert Appliable(c.tx.intents[|c.tx.intents|..], Names(c));
    if c.startOps == [] {
      assert [] + c.tx.intents == c.tx.intents;
    }
  }

  /** Recovery refuses as unreplayable exactly when something was staged before `commit` was called. */
  lemma UnreplayableExactly(w: World, c: Client)
    requires Shape(w, c) && c.pc.Adopting? && Accounts(c)
    ensures var error := AdoptTip(w.store, c.tx, ReadPointers(w.history[c.pc.read])).error;
            (c.tx.unmanaged != {} <==> error.Some? && error.value.Unreplayable?)
            && (c.tx.unmanaged != {} ==> error == Some(Unreplayable(c.tx.unmanaged)))
  {
    assert c.tx.intents[..|c.tx.intents|] == c.tx.intents;
    assert Orphaned(c.tx) == c.tx.unmanaged;
    RefusalKinds(w.store, ReadPointers(w.history[c.pc.read]), c.tx.intents, c.tx.bases);
  }

  lemma {:induction false} RefusalKinds(st: Store, tip: Pointers, intents: seq<Intent>, bases: map<string, Option<nat>>)
    requires GoodStore(st)
    ensures var error := ValidateAll(st, tip, intents, bases);
            error.Some? ==> error.value.TableConflict? || error.value.MissingMetadata?
  {
    if intents != [] {
      RefusalKinds(st, tip, intents[1..], bases);
    }
  }
}
