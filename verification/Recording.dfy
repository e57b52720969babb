/**
 * What a transaction has recorded, read off the events alone: its intents are the operations
 * it was asked for, with their arguments and in order; its session holds the last write to
 * each path. So a published snapshot can be told from the events that led to it.
 */
module Recording {
  import opened Options
  import opened Catalogs
  import opened Convention
  import opened Icechunk
  import opened Intents
  import opened Transactions
  import opened Protocol
  import opened Invariants
  import opened AnyRun
  import opened Publications
  import opened Lookups

  /** The transaction exists and is outside `commit`: the event is a call on it. */
  ghost predicate Called(events: seq<Event>, writer: nat)
    requires events != []
  {
    var s, e := RunOf(events[..|events| - 1]), events[|events| - 1];
    e.writer == writer && writer in s.clients && s.clients[writer].pc.Idle?
  }

  /** The operations asked for so far. */
  ghost function Asked(events: seq<Event>, writer: nat): seq<Intent> {
    if events == [] then []
    else
      var before := Asked(events[..|events| - 1], writer);
      if !Called(events, writer) then before
      else
        match events[|events| - 1]
        case Plan(_, AppendRows(name, data)) => before + [AppendRows(name, data)]
        case Plan(_, DeleteRows(name, filter)) => before + [DeleteRows(name, filter)]
        case Plan(_, OverwriteRows(name, data, filter)) => before + [OverwriteRows(name, data, filter)]
        case Create(_, name, location) => before + [CreateTable(name, location)]
        case _ => before
  }

  /** The last write to a path that has not been discarded: a node, or its deletion. */
  ghost function LastWrite(events: seq<Event>, writer: nat, p: Path): Option<Option<Node>> {
    if events == [] then None
    else
      var before := LastWrite(events[..|events| - 1], writer, p);
      if !Called(events, writer) then before
      else
        match events[|events| - 1]
        case WriteNode(_, path, value) => if path == p then Some(value) else before
        case Discard(_) => None
        case _ => before
  }

  /** The session holds exactly those writes. */
  ghost predicate HoldsWrites(changes: Changes, events: seq<Event>, writer: nat) {
    forall p: Path :: LastWrite(events, writer, p) == if p in changes then Some(changes[p]) else None
  }

  /** A call that plans a removal finds the metadata it has to capture. */
  lemma CaptureFinds(st: Store, tx: Tx, name: string)
    requires Valid(st, tx.catalog)
    ensures CaptureError(st, tx, name).None?
  {}

  lemma CaptureKeeps(st: Store, tx: Tx, name: string)
    ensures Capture(st, tx, name) == tx.(bases := Capture(st, tx, name).bases)
  {}

  /** One call adds what it was asked for; every other step leaves intents and writes alone. */
  lemma CallRecords(w: World, writer: nat, c: Client, e: Event)
    requires Sane(w) && Tracked(w, writer, c) && Shape(w, c) && c.pc.Idle?
    ensures var c' := Act(w, c, e).client;
            && c'.tx.intents == (match e
                                 case Plan(_, AppendRows(name, data)) => c.tx.intents + [AppendRows(name, data)]
                                 case Plan(_, DeleteRows(name, filter)) => c.tx.intents + [DeleteRows(name, filter)]
                                 case Plan(_, OverwriteRows(name, data, filter)) => c.tx.intents + [OverwriteRows(name, data, filter)]
                                 case Create(_, name, location) => c.tx.intents + [CreateTable(name, location)]
                                 case _ => c.tx.intents)
            && c'.tx.session.changes == (match e
                                         case WriteNode(_, path, value) => c.tx.session.changes[path := value]
                                         case Discard(_) => map[]
                                         case _ => c.tx.session.changes)
  {
    hide Apply;
    hide Declared;
    hide TryPublish;
    match e
    case Plan(_, intent) =>
      CaptureFinds(w.store, c.tx, intent.name);
      CaptureKeeps(w.store, c.tx, intent.name);
    case _ =>
  }

  lemma CommitRecordsNothing(w: World, c: Client, e: Event)
    requires Shape(w, c) && !c.pc.Idle?
    ensures var c' := Act(w, c, e).client; c'.tx.intents == c.tx.intents && c'.tx.session.changes == c.tx.session.changes
  {
    hide Apply;
    hide TryPublish;
    hide ValidateAll;
  }

  /** After `create_table` the session's root attributes declare the table at the recorded location. */
  lemma CreateDeclares(history: seq<Commit>, tx: Tx, name: string, location: string)
    requires tx.session.base < |history|
    ensures var tx' := RecordCreate(history, tx, name, location);
            var before, after := SessionAttrs(history, tx.session), SessionAttrs(history, tx'.session);
            && tx'.intents == tx.intents + [CreateTable(name, location)]
            && tx'.session.base == tx.session.base && tx'.session.changes == tx.session.changes
            && tx'.catalog == tx.catalog && tx'.bases == tx.bases
            && after.tables.Some? && name in after.tables.value && "location" in after.tables.value[name]
            && after.tables.value[name]["location"] == location
            && (ReadBindings(before).Some? ==>
                  ReadBindings(after) == Some(ReadBindings(before).value[name := TableBinding(location)]))
            && (after == before ==> tx'.session == tx.session)
  {
    var before := SessionAttrs(history, tx.session);
    MergedBinding(before, map[name := TableBinding(location)], name);
    DeclareBindings(before, map[name := TableBinding(location)]);
    if ReadBindings(before).Some? {
      assert ReadBindings(before).value + map[name := TableBinding(location)] == ReadBindings(before).value[name := TableBinding(location)];
    }
  }

  /** Writing the user's own attributes leaves the convention's, and marks the root node only if something changed. */
  lemma AttributeWritten(history: seq<Commit>, s: Session, other: map<string, string>)
    requires s.base < |history|
    ensures var s', before := WroteAttribute(history, s, other), SessionAttrs(history, s);
            var after := SessionAttrs(history, s');
            && s'.base == s.base && s'.changes == s.changes
            && after.other == other
            && after.conventions == before.conventions && after.version == before.version && after.tables == before.tables
            && (other == before.other ==> s' == s)
  {}

  // -- over every run ------------------------------------------------------------------------------

  /** The transaction has recorded what it was asked for; one that does not exist was asked for nothing. */
  ghost predicate Faithful(events: seq<Event>, writer: nat) {
    var clients := RunOf(events).clients;
    if writer in clients then
      && clients[writer].tx.intents == Asked(events, writer)
      && HoldsWrites(clients[writer].tx.session.changes, events, writer)
    else Asked(events, writer) == [] && HoldsWrites(map[], events, writer)
  }

  lemma FaithfulStep(events: seq<Event>, writer: nat)
    requires events != [] && Orderly(RunOf(events[..|events| - 1])) && Faithful(events[..|events| - 1], writer)
    ensures Faithful(events, writer)
  {
    hide Act;
    hide Tracked;
    var before, e := events[..|events| - 1], events[|events| - 1];
    var s := RunOf(before);
    assert RunOf(events) == Step(s, e);
    if writer in s.clients && e.writer == writer && !e.Open? {
      var c := s.clients[writer];
      TrackedShape(s.world, writer, c);
      assert forall p: Path :: LastWrite(before, writer, p) == if p in c.tx.session.changes then Some(c.tx.session.changes[p]) else None;
      if c.pc.Idle? {
        CallRecords(s.world, writer, c, e);
      } else {
        CommitRecordsNothing(s.world, c, e);
      }
    } else {
      assert Asked(events, writer) == Asked(before, writer);
      assert forall p: Path :: LastWrite(events, writer, p) == LastWrite(before, writer, p);
    }
  }

  /** In every run, each transaction's intents and array changes are those it was asked for. */
  lemma {:induction false} AlwaysFaithful(events: seq<Event>, writer: nat)
    ensures Faithful(events, writer)
  {
    hide Step;
    if events == [] {
      assert RunOf(events) == INITIAL_SYSTEM;
    } else {
      AlwaysFaithful(events[..|events| - 1], writer);
      AlwaysOrderly(events[..|events| - 1]);
      FaithfulStep(events, writer);
    }
  }

  // -- from the events to the snapshot -----------------------------------------------------------------

  /** The log keeps each transaction as it published. */
  ghost predicate LogHolds(s: System) {
    forall k | 0 <= k < |s.log| ::
      s.log[k].writer in s.clients && s.clients[s.log[k].writer].pc.Done? && s.clients[s.log[k].writer].tx == s.log[k].client.tx
  }

  lemma LogHoldsStep(s: System, e: Event)
    requires Orderly(s) && LogHolds(s)
    ensures LogHolds(Step(s, e))
  {
    hide Step;
    hide Tracked;
    var s' := Step(s, e);
    if Publishes(s, e) {
      StepPublishes(s, e);
      PublisherKept(s, e);
    } else {
      StepPublishesNothing(s, e);
    }
    forall k | 0 <= k < |s'.log|
      ensures s'.log[k].writer in s'.clients && s'.clients[s'.log[k].writer].pc.Done?
              && s'.clients[s'.log[k].writer].tx == s'.log[k].client.tx
    {
      if k < |s.log| {
        DoneRemains(s, e, s.log[k].writer);
      }
    }
  }

  lemma PublisherKept(s: System, e: Event)
    requires Orderly(s) && Publishes(s, e)
    ensures e.writer in Step(s, e).clients && Step(s, e).clients[e.writer].pc.Done?
    ensures Step(s, e).clients[e.writer].tx == s.clients[e.writer].tx
    ensures Step(s, e).log == s.log + [Publication(e.writer, s.clients[e.writer])]
  {
    hide DoPublish;
    hide Tracked;
    StepPublishes(s, e);
    OnlyPublishingMovesTheBranch(s.world, s.clients[e.writer], e);
    assert Tracked(s.world, e.writer, s.clients[e.writer]);
    TrackedCommit(s.world, e.writer, s.clients[e.writer]);
  }

  lemma {:induction false} AlwaysLogged(events: seq<Event>)
    ensures LogHolds(RunOf(events))
  {
    hide Step;
    if events == [] {
      assert RunOf(events) == INITIAL_SYSTEM;
    } else {
      AlwaysLogged(events[..|events| - 1]);
      AlwaysOrderly(events[..|events| - 1]);
      LogHoldsStep(RunOf(events[..|events| - 1]), events[|events| - 1]);
    }
  }

  /** Path by path: the last write that was not discarded, or what the parent has. */
  ghost predicate WritesLand(events: seq<Event>, writer: nat, parent: map<Path, Node>, child: map<Path, Node>) {
    forall p: Path ::
      (if p in child then Some(child[p]) else None)
      == match LastWrite(events, writer, p)
         case Some(value) => value
         case None => if p in parent then Some(parent[p]) else None
  }

  /**
   * A published snapshot told from the events alone, in every run: its arrays are the
   * publisher's last writes over its parent's; and lookups in it show what the operations it
   * was asked for, after any work staged directly, make of the snapshot that was read.
   */
  lemma SnapshotFromEvents(events: seq<Event>, k: nat)
    requires k < |RunOf(events).log|
    ensures var s := RunOf(events);
            && k + 1 < |s.world.history|
            && var c, writer := s.log[k].client, s.log[k].writer;
            && WritesLand(events, writer, s.world.history[k].nodes, s.world.history[k + 1].nodes)
            && c.origin <= k
            && LeadsTo(s.world.store, s.world.history[c.origin], c.startOps + Asked(events, writer), s.world.history[k + 1])
            && (!c.direct ==> LeadsTo(s.world.store, s.world.history[c.origin], Asked(events, writer), s.world.history[k + 1]))
  {
    hide Step;
    hide LeadsTo;
    hide Asked;
    hide LastWrite;
    var s := RunOf(events);
    var c, writer := s.log[k].client, s.log[k].writer;
    AlwaysLogged(events);
    AlwaysFaithful(events, writer);
    EveryPublication(events, k);
    LookupsShowTheWork(events, k);
    WritesLaid(events, writer, s.world.history[k].nodes, c.tx.session.changes, s.world.history[k + 1].nodes);
  }

  lemma WritesLaid(events: seq<Event>, writer: nat, parent: map<Path, Node>, changes: Changes, child: map<Path, Node>)
    requires HoldsWrites(changes, events, writer) && LaidOver(parent, changes, child)
    ensures WritesLand(events, writer, parent, child)
  {
    hide LastWrite;
    forall p: Path
      ensures (if p in child then Some(child[p]) else None)
           == match LastWrite(events, writer, p)
              case Some(value) => value
              case None => if p in parent then Some(parent[p]) else None
    {
      assert LastWrite(events, writer, p) == if p in changes then Some(changes[p]) else None;
      assert p in changes || p !in changes;
    }
  }
}
