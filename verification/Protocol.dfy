/**
 * Any number of transactions sharing one branch and one warehouse, interleaved at
 * the steps that touch shared state: applying one intent, the compare-and-swap,
 * reading the tip, and adopting it. A run is any finite list of events; an event
 * that is not enabled leaves the system as it is.
 */
module Protocol {
  import opened Options
  import opened Catalogs
  import opened Icechunk
  import opened Intents
  import opened Transactions

  /** Where a transaction is in its life; `next` counts the intents applied in this attempt. */
  datatype Pc =
    | Idle
    | Applying(attempt: nat, next: nat)
    | Conflicted(attempt: nat)
    | Adopting(attempt: nat, read: nat)
    | Done(id: nat)

  /**
   * A transaction, with the history the properties speak of: the snapshot its base
   * pointers were read from, the operations behind what is staged, those of them that
   * were staged when `commit` was called, and whether the catalog was ever changed
   * directly.
   */
  datatype Client = Client(tx: Tx, pc: Pc, origin: nat, ops: seq<Intent>, startOps: seq<Intent>, direct: bool)

  /** One published commit: who, what was staged beforehand, the intents, and the array changes. */
  datatype Publication = Publication(writer: nat, client: Client)

  datatype System = System(world: World, clients: map<nat, Client>, log: seq<Publication>)

  datatype Event =
    | Open(writer: nat, base: nat, maxRetries: int)
    | WriteNode(writer: nat, path: Path, value: Option<Node>)
    | WriteAttribute(writer: nat, other: map<string, string>)
    | Create(writer: nat, name: string, location: string)
    | Plan(writer: nat, intent: Intent)
    | Direct(writer: nat, intent: Intent)
    | Discard(writer: nat)
    | StartCommit(writer: nat)
    | ApplyNext(writer: nat)
    | Publish(writer: nat)
    | ReadTip(writer: nat)
    | FinishRecover(writer: nat, solvable: bool)

  datatype Acted = Acted(world: World, client: Client, published: bool)

  // -- one transaction's steps ----------------------------------------------------------

  /** What the step functions need to be defined; it holds in every reachable state. */
  ghost predicate Shape(w: World, c: Client) {
    && GoodStore(w.store) && w.history != []
    && c.tx.session.base < |w.history|
    && (c.pc.Adopting? ==> c.pc.read < |w.history|)
  }

  /** Work on the catalog behind the intents' back. */
  function DoDirect(w: World, c: Client, intent: Intent): Acted {
    var a := Apply(w.store, c.tx.catalog, intent);
    Acted(w.(store := a.store),
          c.(tx := c.tx.(catalog := a.catalog), direct := true,
             ops := if a.error.None? then c.ops + [intent] else c.ops),
          false)
  }

  /** Entering `commit`: what is staged now was staged outside the intents. */
  function DoStart(c: Client): Client {
    var ops := if c.tx.catalog.staged == map[] then [] else c.ops;
    c.(tx := c.tx.(unmanaged := c.tx.catalog.staged.Keys), ops := ops, startOps := ops,
       pc := if c.tx.maxRetries >= 0 then Applying(0, 0) else Idle)
  }

  function DoApply(w: World, c: Client): Acted
    requires c.pc.Applying? && c.pc.next < |c.tx.intents|
  {
    var intent := c.tx.intents[c.pc.next];
    var a := Apply(w.store, c.tx.catalog, intent);
    Acted(w.(store := a.store),
          c.(tx := c.tx.(catalog := a.catalog),
             ops := if a.error.None? then c.ops + [intent] else c.ops,
             pc := if a.error.None? then c.pc.(next := c.pc.next + 1) else Idle),
          false)
  }

  function DoPublish(w: World, c: Client): Acted
    requires c.pc.Applying? && w.history != []
  {
    match TryPublish(w.history, c.tx, c.pc.attempt)
    case Published(history) => Acted(w.(history := history), c.(pc := Done(|history| - 1)), true)
    case Refused(_) => Acted(w, c.(pc := Idle), false)
    case Conflicted =>
      Acted(w, c.(pc := if c.pc.attempt == c.tx.maxRetries then Idle else Pc.Conflicted(c.pc.attempt)), false)
  }

  /** `_recover` from the tip that was read, rebasing onto whatever the tip is now. */
  function DoFinish(w: World, c: Client, solvable: bool): Client
    requires Shape(w, c) && c.pc.Adopting?
  {
    var adopted := AdoptTip(w.store, c.tx, ReadPointers(w.history[c.pc.read]));
    if adopted.error.Some? then c.(pc := Idle)
    else
      var carried := CarrySession(w.history, adopted.tx, solvable);
      c.(tx := carried.tx, origin := c.pc.read, ops := [], startOps := [],
         pc := if carried.error.Some? then Idle else Applying(c.pc.attempt + 1, 0))
  }

  /** The user's own attributes on the root group; the convention's are `declare`'s business. */
  function WroteAttribute(history: seq<Commit>, s: Session, other: map<string, string>): Session
    requires s.base < |history|
  {
    WriteAttrs(history, s, SessionAttrs(history, s).(other := other))
  }

  ghost function Act(w: World, c: Client, e: Event): Acted
    requires Shape(w, c)
  {
    match e
    case WriteNode(_, path, value) =>
      if c.pc.Idle? then
        var session := c.tx.session.(changes := c.tx.session.changes[path := value]);
        Acted(w, c.(tx := c.tx.(session := session)), false)
      else Acted(w, c, false)
    case WriteAttribute(_, other) =>
      Acted(w, if c.pc.Idle? then c.(tx := c.tx.(session := WroteAttribute(w.history, c.tx.session, other))) else c, false)
    case Create(_, name, location) =>
      Acted(w, if c.pc.Idle? then c.(tx := RecordCreate(w.history, c.tx, name, location)) else c, false)
    case Plan(_, intent) =>
      Acted(w, if c.pc.Idle? && !intent.CreateTable? then c.(tx := Record(w.store, c.tx, intent)) else c, false)
    case Direct(_, intent) =>
      if c.pc.Idle? then DoDirect(w, c, intent) else Acted(w, c, false)
    case Discard(_) =>
      Acted(w, if c.pc.Idle? then c.(tx := c.tx.(session := Discarded(c.tx.session))) else c, false)
    case StartCommit(_) =>
      Acted(w, if c.pc.Idle? then DoStart(c) else c, false)
    case ApplyNext(_) =>
      if c.pc.Applying? && c.pc.next < |c.tx.intents| then DoApply(w, c) else Acted(w, c, false)
    case Publish(_) =>
      if c.pc.Applying? && c.pc.next == |c.tx.intents| then DoPublish(w, c) else Acted(w, c, false)
    case ReadTip(_) =>
      Acted(w, if c.pc.Conflicted? then c.(pc := Adopting(c.pc.attempt, |w.history| - 1)) else c, false)
    case FinishRecover(_, solvable) =>
      Acted(w, if c.pc.Adopting? then DoFinish(w, c, solvable) else c, false)
    case Open(_, _, _) => Acted(w, c, false)
  }

  /** `a` is what an enabled step on the shared state does. */
  ghost predicate Takes(w: World, c: Client, e: Event, a: Acted)
    requires Shape(w, c)
  {
    match e
    case Direct(_, intent) => c.pc.Idle? && a == DoDirect(w, c, intent)
    case StartCommit(_) => c.pc.Idle? && a == Acted(w, DoStart(c), false)
    case ApplyNext(_) => c.pc.Applying? && c.pc.next < |c.tx.intents| && a == DoApply(w, c)
    case Publish(_) => c.pc.Applying? && c.pc.next == |c.tx.intents| && a == DoPublish(w, c)
    case FinishRecover(_, solvable) => c.pc.Adopting? && a == Acted(w, DoFinish(w, c, solvable), false)
    case _ => false
  }

  /** Is the event one of those, and enabled? */
  predicate Enabled(c: Client, e: Event) {
    || ((e.Direct? || e.StartCommit?) && c.pc.Idle?)
    || (e.ApplyNext? && c.pc.Applying? && c.pc.next < |c.tx.intents|)
    || (e.Publish? && c.pc.Applying? && c.pc.next == |c.tx.intents|)
    || (e.FinishRecover? && c.pc.Adopting?)
  }

  lemma ActTakes(w: World, c: Client, e: Event)
    requires Shape(w, c) && Enabled(c, e)
    ensures Takes(w, c, e, Act(w, c, e))
  {}

  // -- the system -------------------------------------------------------------------------

  ghost const INITIAL_SYSTEM := System(World(Store(map[], 0), [INITIAL]), map[], [])

  function Opened(history: seq<Commit>, writer: nat, base: nat, maxRetries: int): Client
    requires base < |history|
  {
    Client(OpenTx(history, Session(base, map[], None), writer, maxRetries), Idle, base, [], [], false)
  }

  ghost function Step(s: System, e: Event): System {
    var w := e.writer;
    if e.Open? then
      if w !in s.clients && !Used(s.world.store, w) && e.base < |s.world.history|
      then s.(clients := s.clients[w := Opened(s.world.history, w, e.base, e.maxRetries)])
      else s
    else if w in s.clients && Shape(s.world, s.clients[w]) then
      var a := Act(s.world, s.clients[w], e);
      System(a.world, s.clients[w := a.client],
             if a.published then s.log + [Publication(w, s.clients[w])] else s.log)
    else s
  }

  ghost function RunOf(events: seq<Event>): System {
    if events == [] then INITIAL_SYSTEM
    else Step(RunOf(events[..|events| - 1]), events[|events| - 1])
  }

  /** Nobody has moved a pointer since the tip was read. */
  predicate ReadsLatest(w: World, c: Client) {
    && c.pc.Adopting? && w.history != [] && c.pc.read < |w.history|
    && ReadPointers(w.history[c.pc.read]) == ReadPointers(Tip(w.history))
  }

  /** Each rebase goes to a snapshot with the pointers that were read: whoever lands in between moves none. */
  ghost predicate PinnedAt(s: System, e: Event) {
    e.FinishRecover? && e.writer in s.clients && s.clients[e.writer].pc.Adopting? ==>
      ReadsLatest(s.world, s.clients[e.writer])
  }

  ghost predicate Pinned(events: seq<Event>) {
    events == [] ||
    (Pinned(events[..|events| - 1]) && PinnedAt(RunOf(events[..|events| - 1]), events[|events| - 1]))
  }
}
