/**
 * The part of Icechunk the protocol relies on: one branch as a growing list of
 * snapshots, sessions holding uncommitted changes on a base snapshot, a commit
 * that is a compare-and-swap on the branch tip, and rebase. A snapshot's id is
 * its index on the branch.
 */
module Icechunk {
  import opened Options
  import opened Catalogs
  import opened Convention

  const POINTER_KEY := "iceberg:table_versions"

  type Path = seq<string>

  datatype Node = Node(content: nat)

  datatype Commit = Commit(metadata: map<string, Pointers>, nodes: map<Path, Node>, attrs: Attrs)

  const INITIAL := Commit(map[], map[], NO_ATTRS)

  /** Nodes written (Some) or deleted (None) in a session. */
  type Changes = map<Path, Option<Node>>

  datatype Session = Session(base: nat, changes: Changes, attrs: Option<Attrs>)

  // -- pointers ----------------------------------------------------------------

  function ReadPointers(c: Commit): Pointers {
    if POINTER_KEY in c.metadata then c.metadata[POINTER_KEY] else map[]
  }

  function CommitMetadata(pointers: Pointers): map<string, Pointers> {
    map[POINTER_KEY := pointers]
  }

  function Tip(history: seq<Commit>): Commit
    requires history != []
  {
    history[|history| - 1]
  }

  // -- sessions ------------------------------------------------------------------

  function Overlay(nodes: map<Path, Node>, changes: Changes): map<Path, Node> {
    map p | p in nodes.Keys + changes.Keys && (p in changes ==> changes[p].Some?) ::
      if p in changes then changes[p].value else nodes[p]
  }

  predicate HasUncommittedChanges(s: Session) {
    s.changes != map[] || s.attrs.Some?
  }

  function Discarded(s: Session): Session {
    s.(changes := map[], attrs := None)
  }

  /** The root group's attributes as the session sees them. */
  function SessionAttrs(history: seq<Commit>, s: Session): Attrs
    requires s.base < |history|
  {
    if s.attrs.Some? then s.attrs.value else history[s.base].attrs
  }

  /** Writing attributes dirties the root node only when something changes. */
  function WriteAttrs(history: seq<Commit>, s: Session, attrs: Attrs): Session
    requires s.base < |history|
  {
    if attrs == SessionAttrs(history, s) then s else s.(attrs := Some(attrs))
  }

  /** A session's changes carried onto a parent snapshot. */
  function Landing(parent: Commit, s: Session, metadata: map<string, Pointers>): Commit {
    Commit(metadata, Overlay(parent.nodes, s.changes), if s.attrs.Some? then s.attrs.value else parent.attrs)
  }

  /** Path by path: what the changes name is as they say, and everything else is as it was. */
  ghost predicate LaidOver(parent: map<Path, Node>, changes: Changes, child: map<Path, Node>) {
    forall p: Path ::
      if p in changes then (p in child <==> changes[p].Some?) && (p in child ==> child[p] == changes[p].value)
      else (p in child <==> p in parent) && (p in child ==> child[p] == parent[p])
  }

  /** Nothing else is. */
  lemma LaidOverIsOverlay(parent: map<Path, Node>, changes: Changes, child: map<Path, Node>)
    requires LaidOver(parent, changes, child)
    ensures child == Overlay(parent, changes)
  {
    assert child.Keys == Overlay(parent, changes).Keys;
    forall p | p in child ensures child[p] == Overlay(parent, changes)[p] {}
  }

  /** A snapshot that is its parent with a session's changes, and nothing else. */
  ghost predicate Lands(parent: Commit, s: Session, pointers: Pointers, child: Commit) {
    && LaidOver(parent.nodes, s.changes, child.nodes)
    && (s.attrs.Some? ==> child.attrs == s.attrs.value)
    && (s.attrs.None? ==> child.attrs == parent.attrs)
    && child.metadata == map[POINTER_KEY := pointers]
  }

  lemma LandingLands(parent: Commit, s: Session, pointers: Pointers)
    ensures Lands(parent, s, pointers, Landing(parent, s, CommitMetadata(pointers)))
    ensures ReadPointers(Landing(parent, s, CommitMetadata(pointers))) == pointers
  {}

  datatype CommitResult = Landed(history: seq<Commit>) | Moved | Empty

  function SessionCommit(history: seq<Commit>, s: Session, metadata: map<string, Pointers>, allowEmpty: bool): CommitResult
    requires history != []
  {
    if !HasUncommittedChanges(s) && !allowEmpty then Empty
    else if s.base != |history| - 1 then Moved
    else Landed(history + [Landing(Tip(history), s, metadata)])
  }

  /**
   * Rebase onto the tip. Whether array changes carry over is Icechunk's decision
   * (`solvable`); two changes to the root group's attributes never do.
   */
  function SessionRebase(history: seq<Commit>, s: Session, solvable: bool): Option<Session>
    requires s.base < |history|
  {
    if !solvable || (s.attrs.Some? && Tip(history).attrs != history[s.base].attrs) then None
    else Some(s.(base := |history| - 1))
  }
}
