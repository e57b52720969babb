/** Following a concrete run one event at a time. */
module Runs {
  import opened Catalogs
  import opened Icechunk
  import opened Transactions
  import opened Protocol

  /** Some interleaving leads here. */
  ghost predicate Reached(s: System) {
    exists events :: RunOf(events) == s
  }

  lemma ReachedNext(s: System, e: Event)
    requires Reached(s)
    ensures Reached(Step(s, e))
  {
    hide Step;
    var events :| RunOf(events) == s;
    var longer := events + [e];
    assert longer[..|longer| - 1] == events && longer[|longer| - 1] == e;
    assert RunOf(longer) == Step(s, e);
  }

  lemma Begun() returns (s: System)
    ensures s == INITIAL_SYSTEM && Reached(s)
  {
    assert RunOf([]) == INITIAL_SYSTEM;
    s := INITIAL_SYSTEM;
  }

  /** A state is known up to the clients that play no further part and the log. */
  ghost predicate At(s: System, w: World, writer: nat, c: Client) {
    Reached(s) && s.world == w && writer in s.clients && s.clients[writer] == c
  }

  /** An event of a transaction that has been opened. */
  lemma Moves(s: System, w: World, writer: nat, c: Client, e: Event) returns (s': System)
    requires At(s, w, writer, c) && Shape(w, c) && !e.Open? && e.writer == writer
    ensures Reached(s') && s'.world == Act(w, c, e).world && s'.clients == s.clients[writer := Act(w, c, e).client]
  {
    hide Act;
    hide Shape;
    ReachedNext(s, e);
    s' := Step(s, e);
  }

  lemma Opens(s: System, writer: nat, base: nat) returns (s': System)
    requires Reached(s) && writer !in s.clients && !Used(s.world.store, writer) && base < |s.world.history|
    ensures Reached(s') && s'.world == s.world
    ensures s'.clients == s.clients[writer := Opened(s.world.history, writer, base, 5)]
  {
    hide Act;
    ReachedNext(s, Open(writer, base, 5));
    s' := Step(s, Open(writer, base, 5));
  }

  /** Publishing on the tip lands. */
  lemma LandsNow(s: System, w: World, writer: nat, c: Client) returns (s': System)
    requires At(s, w, writer, c) && Shape(w, c)
    requires c.pc.Applying? && c.pc.next == |c.tx.intents| && c.tx.session.base == |w.history| - 1
    requires HasUncommittedChanges(c.tx.session) || c.tx.catalog.staged != map[]
    ensures Reached(s') && s'.clients == s.clients[writer := c.(pc := Done(|w.history|))]
    ensures s'.world == World(w.store, w.history
              + [Landing(Tip(w.history), c.tx.session, CommitMetadata(CurrentPointers(c.tx.catalog)))])
  {
    hide Landing;
    s' := Moves(s, w, writer, c, Publish(writer));
  }

  /** Publishing array changes on an older snapshot conflicts. */
  lemma Conflicts(s: System, w: World, writer: nat, c: Client) returns (s': System)
    requires At(s, w, writer, c) && Shape(w, c)
    requires c.pc.Applying? && c.pc.next == |c.tx.intents| && c.tx.session.base < |w.history| - 1
    requires HasUncommittedChanges(c.tx.session) && c.pc.attempt != c.tx.maxRetries
    ensures Reached(s') && s'.world == w && s'.clients == s.clients[writer := c.(pc := Pc.Conflicted(c.pc.attempt))]
  {
    hide Landing;
    s' := Moves(s, w, writer, c, Publish(writer));
  }

  /** Calling commit. */
  lemma Starts(s: System, w: World, writer: nat, c: Client) returns (s': System)
    requires At(s, w, writer, c) && Shape(w, c) && c.pc.Idle?
    ensures Reached(s') && s'.world == w && s'.clients == s.clients[writer := DoStart(c)]
  {
    hide DoStart;
    s' := Moves(s, w, writer, c, StartCommit(writer));
  }

  lemma Applies(s: System, w: World, writer: nat, c: Client) returns (s': System)
    requires At(s, w, writer, c) && Shape(w, c) && c.pc.Applying? && c.pc.next < |c.tx.intents|
    ensures Reached(s') && s'.world == DoApply(w, c).world && s'.clients == s.clients[writer := DoApply(w, c).client]
  {
    hide DoApply;
    s' := Moves(s, w, writer, c, ApplyNext(writer));
  }
}
