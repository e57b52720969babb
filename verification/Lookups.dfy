/** What a reader finds when it looks a table up in a snapshot of any run. */
module Lookups {
  import opened Options
  import opened Tables
  import opened Catalogs
  import opened Convention
  import opened Icechunk
  import opened Intents
  import opened Protocol
  import opened AnyRun
  import opened Publications
  import opened Declarations
  import opened Replay
  import opened Theorems

  /** The rows a reader scans, if the lookup loads a table. */
  ghost function RowsFound(st: Store, snapshot: Commit, name: string): Option<multiset<Row>> {
    match ResolveTable(st, snapshot, name)
    case Table(m) => Some(Contents(m))
    case _ => None
  }

  /** Every lookup by its outcome: the version its pointer names, or which half of the table is missing. */
  lemma EveryLookup(st: Store, snapshot: Commit, name: string)
    requires Resolves(st, ReadPointers(snapshot))
    ensures var r, pointers := ResolveTable(st, snapshot, name), ReadPointers(snapshot);
            && (name in pointers ==> r == Table(st.files[pointers[name]]))
            && (name !in pointers ==>
                  match ReadBindings(snapshot.attrs)
                  case None => r == UnreadableBinding
                  case Some(declared) => if name in declared then r == Malformed else r == NotDeclared)
  {}

  lemma FoundIsView(st: Store, snapshot: Commit, name: string)
    requires Resolves(st, ReadPointers(snapshot))
    ensures RowsFound(st, snapshot, name)
         == if name in ReadPointers(snapshot) then Some(View(st, ReadPointers(snapshot))[name]) else None
  {
    EveryLookup(st, snapshot, name);
  }

  /** The tables as lookups show them, name by name. */
  ghost predicate Shows(st: Store, snapshot: Commit, tables: TableRows) {
    forall name: string :: RowsFound(st, snapshot, name) == if name in tables then Some(tables[name]) else None
  }

  lemma ShowsView(st: Store, snapshot: Commit)
    requires Resolves(st, ReadPointers(snapshot))
    ensures Shows(st, snapshot, View(st, ReadPointers(snapshot)))
  {
    forall name: string
      ensures RowsFound(st, snapshot, name)
           == if name in View(st, ReadPointers(snapshot)) then Some(View(st, ReadPointers(snapshot))[name]) else None
    {
      FoundIsView(st, snapshot, name);
    }
  }

  /** The published operations lead from what lookups show in one snapshot to what they show in the other. */
  ghost predicate LeadsTo(st: Store, before: Commit, ops: seq<Intent>, after: Commit) {
    exists tables, result :: Shows(st, before, tables) && PerformAll(tables, ops) == Some(result) && Shows(st, after, result)
  }

  lemma ViewsLead(st: Store, before: Commit, ops: seq<Intent>, after: Commit)
    requires Resolves(st, ReadPointers(before)) && Resolves(st, ReadPointers(after))
    requires PerformAll(View(st, ReadPointers(before)), ops) == Some(View(st, ReadPointers(after)))
    ensures LeadsTo(st, before, ops, after)
  {
    ShowsView(st, before);
    ShowsView(st, after);
  }

  /**
   * In every run, what a reader finds in a published snapshot is what the published operations
   * make of what it finds in the snapshot that was read.
   */
  lemma LookupsShowTheWork(events: seq<Event>, k: nat)
    requires k < |RunOf(events).log|
    ensures var s := RunOf(events);
            && k + 1 < |s.world.history| && s.log[k].client.origin <= k
            && LeadsTo(s.world.store, s.world.history[s.log[k].client.origin], s.log[k].client.ops, s.world.history[k + 1])
  {
    hide Step;
    hide LeadsTo;
    EveryPublication(events, k);
    AlwaysOrderly(events);
    var s := RunOf(events);
    ViewsLead(s.world.store, s.world.history[s.log[k].client.origin], s.log[k].client.ops, s.world.history[k + 1]);
  }

  /** And it finds the same version of the table, file for file, whatever happens next. */
  lemma LookupsStay(events: seq<Event>, more: seq<Event>, k: nat, name: string)
    requires k < |RunOf(events).world.history|
    ensures var w, w' := RunOf(events).world, RunOf(events + more).world;
            && k < |w'.history|
            && ResolveTable(w'.store, w'.history[k], name) == ResolveTable(w.store, w.history[k], name)
  {
    hide Step;
    AlwaysOrderly(events);
    RunGrows(events, more);
    AlwaysOrderly(events + more);
    var w, w' := RunOf(events).world, RunOf(events + more).world;
    EveryLookup(w.store, w.history[k], name);
    EveryLookup(w'.store, w'.history[k], name);
  }

  /** In a pinned run that is the parent, and without direct work the operations are the intents. */
  lemma LookupsShowTheIntents(events: seq<Event>, k: nat)
    requires Pinned(events) && k + 1 < |RunOf(events).world.history|
    ensures var s := RunOf(events);
            && k < |s.log|
            && var c := s.log[k].client;
            && LeadsTo(s.world.store, s.world.history[k], c.startOps + c.tx.intents, s.world.history[k + 1])
            && (!c.direct || Attempt(c) > 0 ==> LeadsTo(s.world.store, s.world.history[k], c.tx.intents, s.world.history[k + 1]))
  {
    hide Step;
    hide LeadsTo;
    SerialRefinement(events, k);
    var s := RunOf(events);
    var c := s.log[k].client;
    ViewsLead(s.world.store, s.world.history[k], c.startOps + c.tx.intents, s.world.history[k + 1]);
    if !c.direct || Attempt(c) > 0 {
      ViewsLead(s.world.store, s.world.history[k], c.tx.intents, s.world.history[k + 1]);
    }
  }
}
