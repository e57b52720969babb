/** A snapshot that declares a table always resolves it. */
module Declarations {
  import opened Tables
  import opened Catalogs
  import opened Convention
  import opened Icechunk
  import opened Intents
  import opened Transactions
  import opened Protocol
  import opened Invariants
  import opened Replay

  /** What looking a table up in a snapshot gives, or why it gives nothing. */
  datatype Resolved =
    | Table(metadata: Metadata)
    | FileMissing
    | NotDeclared
    | Malformed
    | UnreadableBinding

  /** `HybridSnapshot.table`: the pointer decides; the declaration only explains a missing one. */
  function ResolveTable(st: Store, snapshot: Commit, name: string): Resolved {
    var pointers := ReadPointers(snapshot);
    if name in pointers then
      if pointers[name] in st.files then Table(st.files[pointers[name]]) else FileMissing
    else
      match ReadBindings(snapshot.attrs)
      case None => UnreadableBinding
      case Some(declared) => if name !in declared then NotDeclared else Malformed
  }

  function DeclaredNames(attrs: Attrs): set<string> {
    OrElse(attrs.tables, map[]).Keys
  }

  function CreatedNames(intents: seq<Intent>): set<string> {
    set i | 0 <= i < |intents| && intents[i].CreateTable? :: intents[i].name
  }

  ghost predicate Declares(snapshot: Commit) {
    ReadBindings(snapshot.attrs).Some? && DeclaredNames(snapshot.attrs) <= ReadPointers(snapshot).Keys
  }

  ghost predicate AllDeclare(history: seq<Commit>) {
    forall i | 0 <= i < |history| :: Declares(history[i])
  }

  /** What the session declares was declared at its base, or is created by a recorded intent. */
  ghost predicate SessionDeclares(w: World, c: Client)
    requires c.tx.session.base < |w.history|
  {
    c.tx.session.attrs.Some? ==>
      && ReadBindings(c.tx.session.attrs.value).Some?
      && DeclaredNames(c.tx.session.attrs.value)
         <= DeclaredNames(w.history[c.tx.session.base].attrs) + CreatedNames(c.tx.intents)
  }

  lemma CreatedSnoc(intents: seq<Intent>, intent: Intent)
    ensures CreatedNames(intents) <= CreatedNames(intents + [intent])
    ensures intent.CreateTable? ==> intent.name in CreatedNames(intents + [intent])
  {
    var more := intents + [intent];
    assert forall i | 0 <= i < |intents| :: more[i] == intents[i];
    assert more[|intents|] == intent;
  }

  lemma DeclaredOne(attrs: Attrs, name: string, binding: TableBinding)
    requires ReadBindings(attrs).Some?
    ensures var after := Declared(attrs, map[name := binding]);
            ReadBindings(after).Some? && DeclaredNames(after) == DeclaredNames(attrs) + {name}
  {
    DeclareBindings(attrs, map[name := binding]);
  }

  lemma DeclaresCreate(w: World, c: Client, name: string, location: string)
    requires c.tx.session.base < |w.history| && Declares(w.history[c.tx.session.base]) && SessionDeclares(w, c)
    ensures SessionDeclares(w, c.(tx := RecordCreate(w.history, c.tx, name, location)))
  {
    CreatedSnoc(c.tx.intents, CreateTable(name, location));
    DeclaredOne(SessionAttrs(w.history, c.tx.session), name, TableBinding(location));
  }

  lemma DeclaresPlan(w: World, c: Client, intent: Intent)
    requires c.tx.session.base < |w.history| && SessionDeclares(w, c)
    ensures SessionDeclares(w, c.(tx := Record(w.store, c.tx, intent)))
  {
    CreatedSnoc(c.tx.intents, intent);
  }

  lemma DeclaresFinish(w: World, c: Client, solvable: bool)
    requires Shape(w, c) && c.pc.Adopting? && SessionDeclares(w, c)
    ensures DoFinish(w, c, solvable).tx.session.base < |w.history|
    ensures SessionDeclares(w, DoFinish(w, c, solvable))
  {
    hide ValidateAll;
    hide ReadBindings;
  }

  lemma DeclaresAttribute(w: World, c: Client, other: map<string, string>)
    requires c.tx.session.base < |w.history| && Declares(w.history[c.tx.session.base]) && SessionDeclares(w, c)
    ensures SessionDeclares(w, c.(tx := c.tx.(session := WroteAttribute(w.history, c.tx.session, other))))
  {}

  lemma DeclaresSame(w: World, c: Client, w': World, c': Client)
    requires c.tx.session.base < |w.history| && SessionDeclares(w, c) && w.history <= w'.history
    requires c'.tx.session.base == c.tx.session.base && c'.tx.intents == c.tx.intents
    requires c'.tx.session.attrs.None? || c'.tx.session.attrs == c.tx.session.attrs
    ensures SessionDeclares(w', c')
  {}

  /** Steps that write no attributes, record nothing and adopt nothing. */
  lemma ActKeepsAttrs(w: World, c: Client, e: Event)
    requires Shape(w, c) && !(c.pc.Idle? && (e.Create? || e.Plan? || e.WriteAttribute?)) && !(c.pc.Adopting? && e.FinishRecover?)
    ensures var c' := Act(w, c, e).client;
            && c'.tx.session.base == c.tx.session.base && c'.tx.intents == c.tx.intents
            && (c'.tx.session.attrs.None? || c'.tx.session.attrs == c.tx.session.attrs)
  {
    hide Apply;
    hide TryPublish;
    hide DoFinish;
  }

  lemma DeclaresActs(w: World, writer: nat, c: Client, e: Event)
    requires Sane(w) && Basic(w, writer, c) && Shape(w, c) && AllDeclare(w.history) && SessionDeclares(w, c)
    requires Evolves(w, Act(w, c, e).world, writer)
    ensures var a := Act(w, c, e); a.client.tx.session.base < |a.world.history| && SessionDeclares(a.world, a.client)
  {
    hide SessionDeclares;
    hide DoApply;
    hide DoPublish;
    hide DoFinish;
    hide DoDirect;
    if e.Create? && c.pc.Idle? {
      DeclaresCreate(w, c, e.name, e.location);
    } else if e.WriteAttribute? && c.pc.Idle? {
      DeclaresAttribute(w, c, e.other);
    } else if e.Plan? && c.pc.Idle? {
      if !e.intent.CreateTable? { DeclaresPlan(w, c, e.intent); }
    } else if e.FinishRecover? && c.pc.Adopting? {
      DeclaresFinish(w, c, e.solvable);
    } else {
      ActKeepsAttrs(w, c, e);
      DeclaresSame(w, c, Act(w, c, e).world, Act(w, c, e).client);
    }
  }

  lemma LandingDeclares(parent: Commit, session: Session, pointers: Pointers, created: set<string>)
    requires Declares(parent) && ReadPointers(parent).Keys <= pointers.Keys && created <= pointers.Keys
    requires session.attrs.Some? ==>
               && ReadBindings(session.attrs.value).Some?
               && DeclaredNames(session.attrs.value) <= DeclaredNames(parent.attrs) + created
    ensures Declares(Landing(parent, session, CommitMetadata(pointers)))
  {}

  lemma CreatedAreCovered(intents: seq<Intent>)
    ensures CreatedNames(intents) <= Covered(intents)
  {}

  /** The published snapshot resolves what it declares. */
  lemma DeclaresPublish(w: World, writer: nat, c: Client)
    requires Sane(w) && Basic(w, writer, c) && AllDeclare(w.history) && SessionDeclares(w, c) && Books(c)
    requires c.pc.Applying? && c.pc.next == |c.tx.intents| && DoPublish(w, c).published
    ensures AllDeclare(DoPublish(w, c).world.history)
  {
    hide DoPublish;
    hide Landing;
    hide Valid;
    hide Declares;
    PublishedCommit(w, writer, c);
    assert c.tx.intents[..|c.tx.intents|] == c.tx.intents;
    CreatedAreCovered(c.tx.intents);
    assert Declares(w.history[|w.history| - 1]);
    LandingDeclares(Tip(w.history), c.tx.session, CurrentPointers(c.tx.catalog), CreatedNames(c.tx.intents));
  }

  /** A table in such a snapshot loads what its pointer names, and is undeclared if it has none. */
  lemma ResolvesOrUndeclared(st: Store, snapshot: Commit, name: string)
    requires Declares(snapshot) && Resolves(st, ReadPointers(snapshot))
    ensures var r := ResolveTable(st, snapshot, name);
            && (if name in ReadPointers(snapshot) then r == Table(st.files[ReadPointers(snapshot)[name]]) else r == NotDeclared)
            && (name in DeclaredNames(snapshot.attrs) ==> r.Table?)
  {}
}
