/**
 * Snapshot isolation of removals: as long as a transaction can still publish, each
 * of its deletes and overwrites only matches rows of the version it was planned on.
 */
module Isolation {
  import opened Options
  import opened Tables
  import opened Catalogs
  import opened Icechunk
  import opened Intents
  import opened Transactions
  import opened Protocol
  import opened Invariants
  import opened Replay

  /** Nothing is staged that the intents did not stage. */
  ghost predicate Clean(c: Client) {
    if InCommit(c) then c.tx.unmanaged == {} else c.tx.catalog.staged == map[]
  }

  /** Every removal has a captured base. */
  ghost predicate Captured(c: Client) {
    forall i | 0 <= i < |c.tx.intents| :: c.tx.intents[i].Removes() ==> c.tx.intents[i].name in c.tx.bases
  }

  /** What a capture would record now. */
  function CaptureOf(st: Store, pointers: Pointers, name: string): Option<nat> {
    if name in pointers && pointers[name] in st.files then st.files[pointers[name]].current else None
  }

  ghost predicate OnChain(st: Store, pointers: Pointers, name: string, base: Option<nat>)
    requires GoodStore(st) && Resolves(st, pointers)
  {
    base.Some? ==>
      && name in pointers
      && st.files[pointers[name]].current.Some?
      && Ancestor(st.files[pointers[name]], base.value, st.files[pointers[name]].current.value)
  }

  /** A captured snapshot lies on the chain of the version the catalog resolves. */
  ghost predicate Anchored(w: World, c: Client)
    requires GoodStore(w.store) && Resolves(w.store, c.tx.catalog.pointers)
  {
    Clean(c) && Active(c) ==>
      forall name | name in c.tx.bases :: OnChain(w.store, c.tx.catalog.pointers, name, c.tx.bases[name])
  }

  /** Before the first conflict the captures are still what they would be now. */
  ghost predicate Early(w: World, c: Client) {
    Clean(c) && Fresh(w, c) && (c.pc.Idle? || (c.pc.Applying? && c.pc.attempt == 0))
  }

  ghost predicate UpToDate(w: World, c: Client) {
    Early(w, c) ==>
      forall name | name in c.tx.bases :: c.tx.bases[name] == CaptureOf(w.store, c.tx.catalog.pointers, name)
  }

  ghost predicate RemovalIsolated(w: World, c: Client, i: nat)
    requires Resolves(w.store, c.tx.catalog.pointers) && i < |c.tx.intents|
  {
    var intent := c.tx.intents[i];
    intent.Removes() && intent.name in c.tx.catalog.pointers ==>
      NothingAddedSince(w.store, c.tx.catalog.pointers, intent.name, intent.filter, Get(c.tx.bases, intent.name))
  }

  ghost predicate Isolated(w: World, c: Client)
    requires Resolves(w.store, c.tx.catalog.pointers)
  {
    Clean(c) && Active(c) && Fresh(w, c) ==> forall i | 0 <= i < |c.tx.intents| :: RemovalIsolated(w, c, i)
  }

  ghost predicate Iso(w: World, c: Client)
    requires GoodStore(w.store) && Resolves(w.store, c.tx.catalog.pointers)
  {
    Captured(c) && Anchored(w, c) && UpToDate(w, c) && Isolated(w, c)
  }

  // -- steps that move neither the pointers nor the plans ------------------------------------

  lemma OnChainGrows(st: Store, st': Store, pointers: Pointers, name: string, base: Option<nat>)
    requires GoodStore(st) && GoodStore(st') && Grows(st, st') && Resolves(st, pointers)
    requires OnChain(st, pointers, name, base)
    ensures Resolves(st', pointers) && OnChain(st', pointers, name, base)
  {}

  lemma AnchoredSame(w: World, c: Client, w': World, c': Client)
    requires GoodStore(w.store) && Resolves(w.store, c.tx.catalog.pointers) && Anchored(w, c)
    requires GoodStore(w'.store) && Grows(w.store, w'.store)
    requires c'.tx.catalog.pointers == c.tx.catalog.pointers && c'.tx.bases == c.tx.bases
    requires Clean(c') && Active(c') ==> Clean(c) && Active(c)
    ensures Resolves(w'.store, c'.tx.catalog.pointers) && Anchored(w', c')
  {
    if Clean(c') && Active(c') {
      forall name | name in c.tx.bases
        ensures OnChain(w'.store, c.tx.catalog.pointers, name, c.tx.bases[name])
      {
        OnChainGrows(w.store, w'.store, c.tx.catalog.pointers, name, c.tx.bases[name]);
      }
    }
  }

  lemma IsolatedSame(w: World, c: Client, w': World, c': Client)
    requires Resolves(w.store, c.tx.catalog.pointers) && Isolated(w, c) && Grows(w.store, w'.store)
    requires c'.tx.catalog.pointers == c.tx.catalog.pointers && c'.tx.bases == c.tx.bases
    requires c'.tx.intents == c.tx.intents
    requires Clean(c') && Active(c') && Fresh(w', c') ==> Clean(c) && Active(c) && Fresh(w, c)
    ensures Resolves(w'.store, c'.tx.catalog.pointers) && Isolated(w', c')
  {
    if Clean(c') && Active(c') && Fresh(w', c') {
      forall i | 0 <= i < |c'.tx.intents| ensures RemovalIsolated(w', c', i) {
        assert RemovalIsolated(w, c, i);
      }
    }
  }

  lemma IsoSame(w: World, c: Client, w': World, c': Client)
    requires GoodStore(w.store) && Resolves(w.store, c.tx.catalog.pointers) && Iso(w, c)
    requires GoodStore(w'.store) && Grows(w.store, w'.store)
    requires c'.tx.catalog.pointers == c.tx.catalog.pointers && c'.tx.bases == c.tx.bases
    requires c'.tx.intents == c.tx.intents
    requires Clean(c') && Active(c') ==> Clean(c) && Active(c)
    requires Clean(c') && Active(c') && Fresh(w', c') ==> Fresh(w, c)
    requires Early(w', c') ==> Early(w, c)
    ensures Resolves(w'.store, c'.tx.catalog.pointers) && Iso(w', c')
  {
    AnchoredSame(w, c, w', c');
    IsolatedSame(w, c, w', c');
  }

  lemma IsoStable(w: World, w': World, other: nat, writer: nat, c: Client)
    requires Sane(w) && Basic(w, writer, c) && Iso(w, c) && Evolves(w, w', other)
    ensures Resolves(w'.store, c.tx.catalog.pointers) && Iso(w', c)
  {
    IsoSame(w, c, w', c);
  }

  // -- planning ---------------------------------------------------------------------------------

  /** The captured base of a fresh removal is the very version it will run on. */
  lemma CapturedIsIsolated(st: Store, pointers: Pointers, name: string, p: Predicate)
    requires GoodStore(st) && Resolves(st, pointers) && name in pointers
    ensures NothingAddedSince(st, pointers, name, p, CaptureOf(st, pointers, name))
    ensures OnChain(st, pointers, name, CaptureOf(st, pointers, name))
  {}

  lemma CaptureBases(w: World, c: Client, name: string)
    requires GoodStore(w.store) && Resolves(w.store, CurrentPointers(c.tx.catalog))
    ensures var tx' := Capture(w.store, c.tx, name);
            && tx' == c.tx.(bases := tx'.bases)
            && name in tx'.bases
            && (forall other | other in c.tx.bases :: other in tx'.bases && tx'.bases[other] == c.tx.bases[other])
            && (forall other | other in tx'.bases :: other in c.tx.bases || other == name)
            && (name !in c.tx.bases && c.tx.catalog.staged == map[] ==>
                  tx'.bases[name] == CaptureOf(w.store, c.tx.catalog.pointers, name))
  {
    if c.tx.catalog.staged == map[] {
      assert CurrentPointers(c.tx.catalog) == c.tx.catalog.pointers;
    }
  }

  lemma IsoPlan(w: World, writer: nat, c: Client, intent: Intent)
    requires Sane(w) && Basic(w, writer, c) && Iso(w, c) && c.pc.Idle? && intent.Removes()
    ensures Iso(w, c.(tx := Record(w.store, c.tx, intent)))
  {
    CaptureBases(w, c, intent.name);
    var c' := c.(tx := Record(w.store, c.tx, intent));
    var pointers := c.tx.catalog.pointers;
    if Clean(c') {
      forall name | name in c'.tx.bases
        ensures OnChain(w.store, pointers, name, c'.tx.bases[name])
      {
        if name !in c.tx.bases && name in pointers {
          CapturedIsIsolated(w.store, pointers, name, intent.filter);
        }
      }
      if Fresh(w, c') {
        assert Early(w, c) && Early(w, c');
        forall i | 0 <= i < |c'.tx.intents| ensures RemovalIsolated(w, c', i) {
          if i < |c.tx.intents| {
            assert RemovalIsolated(w, c, i);
          } else if intent.name in pointers {
            assert c'.tx.bases[intent.name] == CaptureOf(w.store, pointers, intent.name);
            CapturedIsIsolated(w.store, pointers, intent.name, intent.filter);
          }
        }
      }
    }
  }

  /** An intent that removes nothing needs no base. */
  lemma IsoExtend(w: World, c: Client, c': Client, intent: Intent)
    requires GoodStore(w.store) && Resolves(w.store, c.tx.catalog.pointers) && Iso(w, c)
    requires c'.tx.catalog == c.tx.catalog && c'.tx.bases == c.tx.bases && c'.pc == c.pc
    requires c'.tx.session.base == c.tx.session.base && c'.tx.unmanaged == c.tx.unmanaged
    requires c'.tx.intents == c.tx.intents + [intent] && !intent.Removes()
    ensures Iso(w, c')
  {
    if Clean(c') && Active(c') && Fresh(w, c') {
      forall i | 0 <= i < |c'.tx.intents| ensures RemovalIsolated(w, c', i) {
        if i < |c.tx.intents| {
          assert RemovalIsolated(w, c, i);
        }
      }
    }
  }

  // -- recovering ---------------------------------------------------------------------------------

  lemma OnChainExtends(st: Store, pointers: Pointers, later: Pointers, name: string, base: Option<nat>)
    requires GoodStore(st) && Resolves(st, pointers) && Resolves(st, later) && PointersExtend(st, pointers, later)
    requires OnChain(st, pointers, name, base)
    ensures OnChain(st, later, name, base)
  {
    if base.Some? {
      var m, m' := st.files[pointers[name]], st.files[later[name]];
      AncestorKept(m, m', base.value, m.current.value);
      AncestorTransitive(m', base.value, m.current.value, m'.current.value);
    }
  }

  lemma AnchoredFinish(w: World, writer: nat, c: Client, c': Client)
    requires Lineage(w) && Basic(w, writer, c) && c.pc.Adopting? && Clean(c) && Anchored(w, c)
    requires c'.tx.catalog.pointers == ReadPointers(w.history[c.pc.read]) && c'.tx.bases == c.tx.bases
    ensures Anchored(w, c')
  {
    var later := ReadPointers(w.history[c.pc.read]);
    assert PointersExtend(w.store, ReadPointers(w.history[c.origin]), later);
    if Clean(c') && Active(c') {
      forall name | name in c.tx.bases ensures OnChain(w.store, later, name, c.tx.bases[name]) {
        OnChainExtends(w.store, c.tx.catalog.pointers, later, name, c.tx.bases[name]);
      }
    }
  }

  /** Validation against the adopted tip is what isolates the removals again. */
  lemma IsolatedFinish(w: World, c: Client, tip: Pointers, i: nat)
    requires GoodStore(w.store) && Resolves(w.store, tip) && i < |c.tx.intents|
    requires ValidateAll(w.store, tip, c.tx.intents, c.tx.bases).None?
    requires forall name | name in c.tx.bases :: OnChain(w.store, tip, name, c.tx.bases[name])
    requires c.tx.intents[i].Removes() && c.tx.intents[i].name in tip
    ensures NothingAddedSince(w.store, tip, c.tx.intents[i].name, c.tx.intents[i].filter,
                         Get(c.tx.bases, c.tx.intents[i].name))
  {
    var intent := c.tx.intents[i];
    ValidatedEach(w.store, tip, c.tx.intents, c.tx.bases, i);
    ValidatedIffNothingAdded(w.store, tip, intent.name, intent.filter, Get(c.tx.bases, intent.name));
  }

  lemma IsoFinish(w: World, writer: nat, c: Client, solvable: bool)
    requires Lineage(w) && Basic(w, writer, c) && Shape(w, c) && c.pc.Adopting? && Books(c) && Iso(w, c)
    requires ReadsLatest(w, c)
    requires Basic(w, writer, DoFinish(w, c, solvable))
    ensures Iso(w, DoFinish(w, c, solvable))
  {
    hide ValidateAll;
    var c' := DoFinish(w, c, solvable);
    var tip := ReadPointers(w.history[c.pc.read]);
    if AdoptTip(w.store, c.tx, tip).error.Some? {
      IsoSame(w, c, w, c');
    } else {
      assert c.tx.unmanaged == {} by { assert c.tx.unmanaged <= Orphaned(c.tx); }
      AnchoredFinish(w, writer, c, c');
      if Clean(c') && Active(c') && Fresh(w, c') {
        assert forall name | name in c'.tx.bases :: OnChain(w.store, tip, name, c'.tx.bases[name]);
        forall i | 0 <= i < |c'.tx.intents| ensures RemovalIsolated(w, c', i) {
          if c'.tx.intents[i].Removes() && c'.tx.intents[i].name in tip {
            IsolatedFinish(w, c', tip, i);
          }
        }
      }
    }
  }

  lemma IsoApply(w: World, writer: nat, c: Client)
    requires Sane(w) && Basic(w, writer, c) && Books(c) && Blocked(w, c) && Iso(w, c)
    requires c.pc.Applying? && c.pc.next < |c.tx.intents|
    requires Sane(DoApply(w, c).world) && Basic(DoApply(w, c).world, writer, DoApply(w, c).client)
    requires Evolves(w, DoApply(w, c).world, writer)
    ensures Iso(DoApply(w, c).world, DoApply(w, c).client)
  {
    BooksApply(w, c);
    ApplyStages(w.store, c.tx.catalog, c.tx.intents[c.pc.next]);
    IsoSame(w, c, DoApply(w, c).world, DoApply(w, c).client);
  }

  lemma IsoPublish(w: World, writer: nat, c: Client)
    requires Sane(w) && Basic(w, writer, c) && Books(c) && Blocked(w, c) && Iso(w, c)
    requires c.pc.Applying? && c.pc.next == |c.tx.intents|
    requires Sane(DoPublish(w, c).world) && Basic(DoPublish(w, c).world, writer, DoPublish(w, c).client)
    ensures Iso(DoPublish(w, c).world, DoPublish(w, c).client)
  {
    hide Valid;
    hide Overlay;
    var a := DoPublish(w, c);
    if a.published {
      IsoDone(w, c, a.world, a.client);
    } else {
      BooksPublish(w, c);
      NotPublished(w, c);
      IsoSame(w, c, w, a.client);
    }
  }

  lemma NotPublished(w: World, c: Client)
    requires c.pc.Applying? && w.history != [] && !DoPublish(w, c).published
    ensures var a := DoPublish(w, c);
            && a.world == w && a.client.tx == c.tx && a.client == c.(pc := a.client.pc)
            && (a.client.pc.Idle? || a.client.pc.Conflicted?)
  {}

  /** A finished transaction owes nothing more. */
  lemma IsoDone(w: World, c: Client, w': World, c': Client)
    requires GoodStore(w'.store) && Resolves(w'.store, c'.tx.catalog.pointers)
    requires Captured(c) && c'.tx == c.tx && c'.pc.Done?
    ensures Iso(w', c')
  {}

  lemma IsoDirect(w: World, writer: nat, c: Client, intent: Intent)
    requires Sane(w) && Basic(w, writer, c) && Iso(w, c) && c.pc.Idle?
    requires Evolves(w, DoDirect(w, c, intent).world, writer)
    requires Basic(DoDirect(w, c, intent).world, writer, DoDirect(w, c, intent).client)
    ensures Iso(DoDirect(w, c, intent).world, DoDirect(w, c, intent).client)
  {
    ApplyStages(w.store, c.tx.catalog, intent);
    IsoSame(w, c, DoDirect(w, c, intent).world, DoDirect(w, c, intent).client);
  }

  lemma IsoPlans(w: World, writer: nat, c: Client, e: Event)
    requires Sane(w) && Basic(w, writer, c) && Shape(w, c) && Iso(w, c) && c.pc.Idle? && (e.Plan? || e.Create?)
    ensures Act(w, c, e).world == w && Act(w, c, e).client.tx.catalog == c.tx.catalog
    ensures Iso(w, Act(w, c, e).client)
  {
    if e.Create? {
      IsoExtend(w, c, Act(w, c, e).client, CreateTable(e.name, e.location));
    } else if e.intent.Removes() {
      IsoPlan(w, writer, c, e.intent);
    } else if !e.intent.CreateTable? {
      IsoExtend(w, c, Act(w, c, e).client, e.intent);
    }
  }

  /** Does the event do something these invariants have to follow closely? */
  predicate Concerns(c: Client, e: Event) {
    || ((e.Plan? || e.Create? || e.Direct?) && c.pc.Idle?)
    || (e.ApplyNext? && c.pc.Applying? && c.pc.next < |c.tx.intents|)
    || (e.Publish? && c.pc.Applying? && c.pc.next == |c.tx.intents|)
    || (e.FinishRecover? && c.pc.Adopting?)
  }

  lemma IsoElsewhere(w: World, c: Client, e: Event)
    requires Sane(w) && Resolves(w.store, c.tx.catalog.pointers) && Shape(w, c) && Iso(w, c) && !Concerns(c, e)
    ensures Act(w, c, e).world == w && Act(w, c, e).client.tx.catalog == c.tx.catalog
    ensures Iso(w, Act(w, c, e).client)
  {
    hide Anchored;
    hide Isolated;
    hide Captured;
    hide OnChain;
    hide NothingAddedSince;
    hide GoodStore;
    hide TryPublish;
    hide DoApply;
    hide DoPublish;
    hide DoFinish;
    hide DoDirect;
    hide Record;
    hide RecordCreate;
    hide Iso;
    IsoSame(w, c, w, Act(w, c, e).client);
  }

  /** `a` is the step that is taken; `Act` itself stays out of the proof. */
  lemma IsoCommits(w: World, writer: nat, c: Client, e: Event, a: Acted)
    requires Lineage(w) && Basic(w, writer, c) && Shape(w, c) && Books(c) && Blocked(w, c) && Iso(w, c)
    requires e.FinishRecover? && c.pc.Adopting? ==> ReadsLatest(w, c)
    requires Takes(w, c, e, a) && !e.StartCommit?
    requires Evolves(w, a.world, writer) && Sane(a.world) && Basic(a.world, writer, a.client)
    ensures Iso(a.world, a.client)
  {
    match e
    case Direct(_, intent) => IsoDirect(w, writer, c, intent);
    case ApplyNext(_) => IsoApply(w, writer, c);
    case Publish(_) => IsoPublish(w, writer, c);
    case FinishRecover(_, solvable) => IsoFinish(w, writer, c, solvable);
  }

  /** A transaction's own step keeps its removals isolated. */
  lemma IsoActs(w: World, writer: nat, c: Client, e: Event)
    requires Lineage(w) && Basic(w, writer, c) && Shape(w, c) && Books(c) && Blocked(w, c) && Iso(w, c)
    requires e.FinishRecover? && c.pc.Adopting? ==> ReadsLatest(w, c)
    requires var a := Act(w, c, e); Evolves(w, a.world, writer) && Sane(a.world) && Basic(a.world, writer, a.client)
    ensures Iso(Act(w, c, e).world, Act(w, c, e).client)
  {
    if !Concerns(c, e) {
      IsoElsewhere(w, c, e);
    } else if e.Plan? || e.Create? {
      IsoPlans(w, writer, c, e);
    } else {
      ActTakes(w, c, e);
      IsoCommits(w, writer, c, e, Act(w, c, e));
    }
  }
}
