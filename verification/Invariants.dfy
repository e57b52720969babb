/**
 * What every transaction keeps true of itself, whatever the others do. Each clause
 * reads only the shared world and one client, so an invariant is shown twice: the
 * client's own steps keep it, and so does the growth anyone else's step causes.
 */
module Invariants {
  import opened Catalogs
  import opened Convention
  import opened Icechunk
  import opened Intents
  import opened Transactions
  import opened Protocol

  /** The world after a step of `writer`: files it wrote were added, and at most one commit. */
  ghost predicate Evolves(w: World, w': World, writer: nat) {
    && GrowsBy(w.store, w'.store, writer)
    && GoodStore(w'.store)
    && w.history <= w'.history
    && |w'.history| <= |w.history| + 1
  }

  /** Later snapshots keep every table, at the same or a later version. */
  ghost predicate Lineage(w: World) {
    && Sane(w)
    && (forall i, j | 0 <= i <= j < |w.history| ::
          PointersExtend(w.store, ReadPointers(w.history[i]), ReadPointers(w.history[j])))
  }

  ghost predicate InCommit(c: Client) {
    c.pc.Applying? || c.pc.Conflicted? || c.pc.Adopting?
  }

  ghost predicate Active(c: Client) {
    !c.pc.Done?
  }

  /** The session's base snapshot is still the tip. */
  ghost predicate Fresh(w: World, c: Client) {
    c.tx.session.base == |w.history| - 1
  }

  /** How many intents are behind the staged overlay, besides what was staged beforehand. */
  function Progress(c: Client): nat {
    match c.pc
    case Applying(_, next) => next
    case _ => |c.tx.intents|
  }

  // -- tracked: pointers are those of some snapshot of the branch ---------------------------------

  /** What holds of a transaction whatever its recoveries rebase onto. */
  ghost predicate Tracked(w: World, writer: nat, c: Client) {
    && c.tx.catalog.writer == writer
    && Valid(w.store, c.tx.catalog)
    && c.tx.session.base < |w.history| && c.origin < |w.history|
    && c.tx.catalog.pointers == ReadPointers(w.history[c.origin])
    && (c.pc.Applying? ==> c.pc.next <= |c.tx.intents|)
    && (c.pc.Adopting? ==> c.pc.read < |w.history|)
    && (c.pc.Conflicted? || c.pc.Adopting? ==> !Fresh(w, c))
  }

  lemma TrackedShape(w: World, writer: nat, c: Client)
    requires Sane(w) && Tracked(w, writer, c)
    ensures Shape(w, c)
  {}

  lemma TrackedStable(w: World, w': World, other: nat, writer: nat, c: Client)
    requires Sane(w) && Tracked(w, writer, c) && Evolves(w, w', other) && other != writer
    ensures Tracked(w', writer, c)
  {
    ValidUnderGrowth(w.store, w'.store, c.tx.catalog, other);
  }

  lemma SaneAfter(w: World, w': World, other: nat)
    requires Sane(w) && Evolves(w, w', other)
    requires |w'.history| == |w.history| + 1 ==> Resolves(w'.store, ReadPointers(Tip(w'.history)))
    ensures Sane(w')
  {
    forall i | 0 <= i < |w'.history| ensures Resolves(w'.store, ReadPointers(w'.history[i])) {
      if i < |w.history| {
        assert w'.history[i] == w.history[i];
      }
    }
  }

  lemma TrackedApply(w: World, writer: nat, c: Client, intent: Intent)
    requires Sane(w) && Tracked(w, writer, c)
    ensures var a := Apply(w.store, c.tx.catalog, intent);
            && Evolves(w, w.(store := a.store), writer)
            && Tracked(w.(store := a.store), writer, c.(tx := c.tx.(catalog := a.catalog)))
  {
    hide Apply;
    ApplyRefines(w.store, c.tx.catalog, intent);
  }

  lemma FinishKeeps(w: World, c: Client, solvable: bool)
    requires Shape(w, c) && c.pc.Adopting?
    ensures var c' := DoFinish(w, c, solvable);
            && (c'.pc.Idle? || c'.pc == Applying(c.pc.attempt + 1, 0))
            && c'.tx.intents == c.tx.intents && c'.tx.session.base in {c.tx.session.base, |w.history| - 1}
            && (if c'.pc.Applying? then c'.tx.session.base == |w.history| - 1 else c'.tx.session == c.tx.session)
            && (|| (c'.tx.catalog == c.tx.catalog && c'.origin == c.origin)
                || (c'.tx.catalog == RebasedOnto(c.tx.catalog, ReadPointers(w.history[c.pc.read])) && c'.origin == c.pc.read))
            && c'.tx.unmanaged == c.tx.unmanaged && c'.direct == c.direct
            && (c'.pc.Applying? ==>
                  c'.origin == c.pc.read && c'.tx.catalog.pointers == ReadPointers(w.history[c.pc.read])
                  && c'.tx.catalog.staged == map[] && c'.ops == [] && c'.startOps == [] && Orphaned(c.tx) == {})
  {
    hide ValidateAll;
  }

  lemma TrackedFinish(w: World, writer: nat, c: Client, solvable: bool)
    requires Sane(w) && Tracked(w, writer, c) && Shape(w, c) && c.pc.Adopting?
    ensures Tracked(w, writer, DoFinish(w, c, solvable))
  {
    hide DoFinish;
    FinishKeeps(w, c, solvable);
    ValidRebased(w.store, c.tx.catalog, ReadPointers(w.history[c.pc.read]));
  }

  /** The new commit carries this transaction's pointers and changes, on the snapshot it was based on. */
  lemma TrackedCommit(w: World, writer: nat, c: Client)
    requires Sane(w) && Tracked(w, writer, c) && c.pc.Applying? && DoPublish(w, c).published
    ensures var w' := DoPublish(w, c).world;
            && Fresh(w, c)
            && w'.store == w.store
            && w'.history == w.history + [Landing(Tip(w.history), c.tx.session, CommitMetadata(CurrentPointers(c.tx.catalog)))]
            && ReadPointers(Tip(w'.history)) == CurrentPointers(c.tx.catalog)
            && DoPublish(w, c).client == c.(pc := Done(|w.history|))
  {
    hide Valid;
    hide Overlay;
  }

  lemma PublishFails(w: World, c: Client)
    requires w.history != [] && c.pc.Applying? && !DoPublish(w, c).published
    ensures var a := DoPublish(w, c);
            && a.world == w && a.client == c.(pc := a.client.pc)
            && (a.client.pc.Idle? || (a.client.pc == Pc.Conflicted(c.pc.attempt) && !Fresh(w, c)))
  {
    hide Overlay;
  }

  lemma TrackedPublish(w: World, writer: nat, c: Client)
    requires Sane(w) && Tracked(w, writer, c) && c.pc.Applying?
    ensures var a := DoPublish(w, c); Evolves(w, a.world, writer) && Sane(a.world) && Tracked(a.world, writer, a.client)
  {
    hide DoPublish;
    hide Landing;
    if DoPublish(w, c).published {
      TrackedCommit(w, writer, c);
      SaneAfter(w, DoPublish(w, c).world, writer);
    } else {
      PublishFails(w, c);
    }
  }

  lemma TrackedTakes(w: World, writer: nat, c: Client, e: Event, a: Acted)
    requires Sane(w) && Tracked(w, writer, c) && Shape(w, c) && Takes(w, c, e, a)
    ensures Evolves(w, a.world, writer) && Sane(a.world) && Tracked(a.world, writer, a.client)
  {
    hide DoPublish;
    hide DoFinish;
    hide Apply;
    hide Valid;
    match e
    case Direct(_, intent) =>
      TrackedApply(w, writer, c, intent);
      SaneAfter(w, a.world, writer);
    case StartCommit(_) =>
    case ApplyNext(_) =>
      TrackedApply(w, writer, c, c.tx.intents[c.pc.next]);
      SaneAfter(w, a.world, writer);
    case Publish(_) => TrackedPublish(w, writer, c);
    case FinishRecover(_, solvable) => TrackedFinish(w, writer, c, solvable);
  }

  lemma ActElsewhere(w: World, c: Client, e: Event)
    requires Shape(w, c) && !Enabled(c, e)
    ensures var a := Act(w, c, e);
            && a.world == w && !a.published
            && a.client.tx.catalog == c.tx.catalog && a.client.tx.session.base == c.tx.session.base
            && a.client.origin == c.origin && a.client.tx.unmanaged == c.tx.unmanaged
            && a.client.ops == c.ops && a.client.startOps == c.startOps && a.client.direct == c.direct
            && (a.client.pc == c.pc || (e.ReadTip? && c.pc.Conflicted? && a.client.pc == Adopting(c.pc.attempt, |w.history| - 1)))
            && (a.client.tx.intents == c.tx.intents || c.pc.Idle?)
  {
    hide Apply;
    hide Declared;
  }

  /** A transaction's own step keeps it tracked, and the world sane. */
  lemma TrackedActs(w: World, writer: nat, c: Client, e: Event)
    requires Sane(w) && Tracked(w, writer, c) && Shape(w, c)
    ensures var a := Act(w, c, e); Evolves(w, a.world, writer) && Sane(a.world) && Tracked(a.world, writer, a.client)
  {
    hide Act;
    hide Takes;
    hide Valid;
    if Enabled(c, e) {
      ActTakes(w, c, e);
      TrackedTakes(w, writer, c, e, Act(w, c, e));
    } else {
      ActElsewhere(w, c, e);
    }
  }

  // -- basic: that snapshot is not behind the session's base -------------------------------------

  /** What pinned recoveries keep besides: the base has no pointers newer than the catalog's. */
  ghost predicate Basic(w: World, writer: nat, c: Client) {
    && Tracked(w, writer, c)
    && (c.tx.session.base <= c.origin || c.tx.catalog.pointers == ReadPointers(w.history[c.tx.session.base]))
    && (c.pc.Adopting? ==> c.origin <= c.pc.read && c.tx.session.base <= c.pc.read)
  }

  lemma BasicShape(w: World, writer: nat, c: Client)
    requires Sane(w) && Basic(w, writer, c)
    ensures Shape(w, c)
  {}

  lemma BasicStable(w: World, w': World, other: nat, writer: nat, c: Client)
    requires Sane(w) && Basic(w, writer, c) && Evolves(w, w', other) && other != writer
    ensures Basic(w', writer, c)
  {
    hide Valid;
    TrackedStable(w, w', other, writer, c);
  }

  lemma PublishedCommit(w: World, writer: nat, c: Client)
    requires Sane(w) && Basic(w, writer, c) && c.pc.Applying? && DoPublish(w, c).published
    ensures var w' := DoPublish(w, c).world;
            && Fresh(w, c) && c.tx.catalog.pointers == ReadPointers(Tip(w.history))
            && w'.store == w.store
            && w'.history == w.history + [Landing(Tip(w.history), c.tx.session, CommitMetadata(CurrentPointers(c.tx.catalog)))]
            && ReadPointers(Tip(w'.history)) == CurrentPointers(c.tx.catalog)
            && DoPublish(w, c).client == c.(pc := Done(|w.history|))
  {
    hide DoPublish;
    TrackedCommit(w, writer, c);
  }

  lemma BehindTakes(w: World, writer: nat, c: Client, e: Event, a: Acted)
    requires Sane(w) && Basic(w, writer, c) && Shape(w, c) && Takes(w, c, e, a)
    requires e.FinishRecover? && c.pc.Adopting? ==> ReadsLatest(w, c)
    requires Tracked(a.world, writer, a.client) && w.history <= a.world.history
    ensures Basic(a.world, writer, a.client)
  {
    hide DoPublish;
    hide DoFinish;
    hide Apply;
    hide Valid;
    if e.Publish? {
      if a.published { PublishedCommit(w, writer, c); } else { PublishFails(w, c); }
    } else if e.FinishRecover? {
      FinishKeeps(w, c, e.solvable);
    }
  }

  /** A transaction's own step keeps it basic, and the world sane, if its recovery is pinned. */
  lemma BasicActs(w: World, writer: nat, c: Client, e: Event)
    requires Sane(w) && Basic(w, writer, c) && Shape(w, c)
    requires e.FinishRecover? && c.pc.Adopting? ==> ReadsLatest(w, c)
    ensures var a := Act(w, c, e); Evolves(w, a.world, writer) && Sane(a.world) && Basic(a.world, writer, a.client)
  {
    hide Act;
    hide Takes;
    hide Valid;
    TrackedActs(w, writer, c, e);
    if Enabled(c, e) {
      ActTakes(w, c, e);
      BehindTakes(w, writer, c, e, Act(w, c, e));
    } else {
      ActElsewhere(w, c, e);
    }
  }
}
