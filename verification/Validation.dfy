/**
 * The conflict window of a replayed delete: which snapshots after the version it
 * was planned on added files that may hold a matching row.
 */
module Validation {
  import opened Options
  import opened Tables

  // -- sorted(set) -------------------------------------------------------------

  lemma {:induction false} MinBelow(s: set<nat>, k: nat)
    requires k in s
    ensures exists m | m in s :: forall x | x in s :: m <= x
    decreases k
  {
    if x :| x in s && x < k {
      MinBelow(s, x);
    }
  }

  lemma MinExists(s: set<nat>)
    requires s != {}
    ensures exists m | m in s :: forall x | x in s :: m <= x
  {
    var k :| k in s;
    MinBelow(s, k);
  }

  /** Python's `sorted` of a set of ids. */
  function SortedIds(s: set<nat>): (ids: seq<nat>)
    ensures forall id: nat :: id in ids <==> id in s
    decreases |s|
  {
    if s == {} then []
    else
      MinExists(s);
      var m :| m in s && forall x | x in s :: m <= x;
      [m] + SortedIds(s - {m})
  }

  lemma SortedIdsEmpty(s: set<nat>)
    ensures SortedIds(s) == [] ==> s == {}
  {}

  lemma {:induction false} SortedIdsIncrease(s: set<nat>, i: nat, j: nat)
    requires i < j < |SortedIds(s)|
    ensures SortedIds(s)[i] < SortedIds(s)[j]
    decreases |s|
  {
    MinExists(s);
    var m :| m in s && forall x | x in s :: m <= x;
    var rest := SortedIds(s - {m});
    assert SortedIds(s) == [m] + rest;
    if i == 0 {
      assert rest[j - 1] in s - {m};
    } else {
      SortedIdsIncrease(s - {m}, i - 1, j - 1);
    }
  }

  // -- the walk ------------------------------------------------------------------

  /** The snapshots from `tip` down to `base`, both included; None when the walk ends before `base`. */
  function Between(m: Metadata, tip: nat, base: nat): Option<seq<nat>>
    requires Ordered(m) && tip in m.snapshots
    decreases m.snapshots[tip].sequence
  {
    if tip == base then Some([tip])
    else
      var parent := m.snapshots[tip].parent;
      if parent.Some? && parent.value in m.snapshots then
        match Between(m, parent.value, base)
        case None => None
        case Some(path) => Some([tip] + path)
      else None
  }

  /** Some file the snapshot added cannot be ruled out by its statistics. */
  predicate MayAdd(m: Metadata, id: nat, p: Predicate)
    requires id in m.snapshots
  {
    exists f | f in m.snapshots[id].added :: p.mayMatch(f)
  }

  /** The snapshots on the path that may have added a match; the base's own additions do not count. */
  function Hits(m: Metadata, base: nat, path: seq<nat>, p: Predicate): set<nat> {
    set id | id in path && id in m.snapshots && MayAdd(m, id, p) && id != base
  }

  function ConflictingAdds(m: Metadata, base: nat, tip: nat, p: Predicate): seq<nat>
    requires Ordered(m)
  {
    if base == tip then []
    else if base !in m.snapshots || tip !in m.snapshots then [tip]
    else
      match Between(m, tip, base)
      case None => [tip]
      case Some(path) => SortedIds(Hits(m, base, path, p))
  }

  // -- what the walk computes ------------------------------------------------------

  /** The snapshot `k` parent links below `id`. */
  function Nth(m: Metadata, id: nat, k: nat): Option<nat>
    decreases k
  {
    if id !in m.snapshots then None
    else if k == 0 then Some(id)
    else if m.snapshots[id].parent.None? then None
    else Nth(m, m.snapshots[id].parent.value, k - 1)
  }

  /** The walk succeeds when some number of links leads to `base`, and lists every snapshot on the way. */
  lemma {:induction false} BetweenIsNth(m: Metadata, tip: nat, base: nat, n: nat)
    requires Ordered(m) && tip in m.snapshots
    requires Nth(m, tip, n) == Some(base)
    requires forall j | 0 <= j < n :: Nth(m, tip, j) != Some(base)
    ensures Between(m, tip, base).Some?
    ensures var path := Between(m, tip, base).value;
            |path| == n + 1 && forall k | 0 <= k <= n :: Nth(m, tip, k) == Some(path[k])
    decreases n
  {
    if n == 0 {
    } else {
      assert Nth(m, tip, 0) != Some(base);
      var parent := m.snapshots[tip].parent.value;
      forall j | 0 <= j < n - 1 ensures Nth(m, parent, j) != Some(base) {
        assert Nth(m, tip, j + 1) == Nth(m, parent, j);
      }
      BetweenIsNth(m, parent, base, n - 1);
      var path := Between(m, tip, base).value;
      forall k | 0 < k <= n ensures Nth(m, tip, k) == Some(path[k]) {
        assert Nth(m, tip, k) == Nth(m, parent, k - 1);
      }
    }
  }

  lemma {:induction false} BetweenReaches(m: Metadata, tip: nat, base: nat)
    requires Ordered(m) && tip in m.snapshots && Between(m, tip, base).Some?
    ensures exists n: nat :: Nth(m, tip, n) == Some(base)
    decreases m.snapshots[tip].sequence
  {
    if tip == base {
      assert Nth(m, tip, 0) == Some(base);
    } else {
      var parent := m.snapshots[tip].parent.value;
      BetweenReaches(m, parent, base);
      var n: nat :| Nth(m, parent, n) == Some(base);
      assert Nth(m, tip, n + 1) == Some(base);
    }
  }

  /** The snapshot `id` sits fewer than `n` links below `tip` and may have added a match. */
  ghost predicate HitAbove(m: Metadata, tip: nat, n: nat, id: nat, p: Predicate) {
    id in m.snapshots && MayAdd(m, id, p) && exists k: nat :: k < n && Nth(m, tip, k) == Some(id)
  }

  /**
   * When `base` is `n` links below `tip`, the reported ids are exactly the snapshots
   * fewer than `n` links below `tip` that may have added a matching row, in order and once each.
   */
  lemma ConflictingAddsExact(m: Metadata, base: nat, tip: nat, p: Predicate, n: nat)
    requires Ordered(m) && base in m.snapshots && tip in m.snapshots
    requires Nth(m, tip, n) == Some(base)
    requires forall j | 0 <= j < n :: Nth(m, tip, j) != Some(base)
    ensures forall i, j | 0 <= i < j < |ConflictingAdds(m, base, tip, p)| ::
              ConflictingAdds(m, base, tip, p)[i] < ConflictingAdds(m, base, tip, p)[j]
    ensures forall id: nat :: id in ConflictingAdds(m, base, tip, p) <==> HitAbove(m, tip, n, id, p)
  {
    BetweenIsNth(m, tip, base, n);
    if base == tip {
      assert Nth(m, tip, 0) == Some(base);
    } else {
      var path := Between(m, tip, base).value;
      var hits := Hits(m, base, path, p);
      assert ConflictingAdds(m, base, tip, p) == SortedIds(hits);
      forall i, j | 0 <= i < j < |SortedIds(hits)| ensures SortedIds(hits)[i] < SortedIds(hits)[j] {
        SortedIdsIncrease(hits, i, j);
      }
      forall id: nat ensures id in hits <==> HitAbove(m, tip, n, id, p) {
        if id in hits {
          var k :| 0 <= k < |path| && path[k] == id;
          assert Nth(m, tip, k) == Some(id);
        }
        if HitAbove(m, tip, n, id, p) {
          var k: nat :| k < n && Nth(m, tip, k) == Some(id);
          assert path[k] == id;
        }
      }
    }
  }

  /** With an end missing, or the base never reached, the tip alone is reported; equal ends report nothing. */
  lemma ConflictingAddsUnprovable(m: Metadata, base: nat, tip: nat, p: Predicate)
    requires Ordered(m)
    ensures base == tip ==> ConflictingAdds(m, base, tip, p) == []
    ensures base != tip && (base !in m.snapshots || tip !in m.snapshots || forall n: nat :: Nth(m, tip, n) != Some(base))
            ==> ConflictingAdds(m, base, tip, p) == [tip]
  {
    if base != tip && base in m.snapshots && tip in m.snapshots && Between(m, tip, base).Some? {
      BetweenReaches(m, tip, base);
    }
  }

  /** Neither fallback can be taken from a base that lies on the tip's chain. */
  lemma {:induction false} AncestorIsReached(m: Metadata, base: nat, tip: nat)
    requires Ordered(m) && tip in m.snapshots && Ancestor(m, base, tip)
    ensures base in m.snapshots && Between(m, tip, base).Some?
    decreases m.snapshots[tip].sequence
  {
    if base != tip {
      AncestorIsReached(m, base, m.snapshots[tip].parent.value);
    }
  }

  // -- what an empty answer proves ---------------------------------------------------

  /** No snapshot after `base` up to `tip` may have added a matching row. */
  ghost predicate Quiet(m: Metadata, base: nat, tip: nat, p: Predicate)
    requires Ordered(m) && tip in m.snapshots
    decreases m.snapshots[tip].sequence
  {
    tip == base ||
    (var parent := m.snapshots[tip].parent;
     && !MayAdd(m, tip, p)
     && parent.Some? && parent.value in m.snapshots && Quiet(m, base, parent.value, p))
  }

  lemma {:induction false} PathIsQuiet(m: Metadata, base: nat, tip: nat, p: Predicate)
    requires Ordered(m) && tip in m.snapshots && Between(m, tip, base).Some?
    requires forall id | id in Between(m, tip, base).value && id in m.snapshots && id != base :: !MayAdd(m, id, p)
    ensures Quiet(m, base, tip, p)
    decreases m.snapshots[tip].sequence
  {
    var path := Between(m, tip, base).value;
    assert path[0] == tip;
    if tip != base {
      var parent := m.snapshots[tip].parent.value;
      assert path == [tip] + Between(m, parent, base).value;
      PathIsQuiet(m, base, parent, p);
    }
  }

  lemma NoConflictIsQuiet(m: Metadata, base: nat, tip: nat, p: Predicate)
    requires Ordered(m) && tip in m.snapshots
    requires ConflictingAdds(m, base, tip, p) == []
    ensures Quiet(m, base, tip, p)
  {
    if base != tip {
      var hits := Hits(m, base, Between(m, tip, base).value, p);
      assert SortedIds(hits) == [];
      SortedIdsEmpty(hits);
      forall id | id in Between(m, tip, base).value && id in m.snapshots && id != base ensures !MayAdd(m, id, p) {
        assert id !in hits;
      }
      PathIsQuiet(m, base, tip, p);
    }
  }

  lemma {:induction false} QuietPath(m: Metadata, base: nat, tip: nat, p: Predicate)
    requires Ordered(m) && tip in m.snapshots && Quiet(m, base, tip, p)
    ensures base in m.snapshots && Between(m, tip, base).Some?
    ensures forall id | id in Between(m, tip, base).value && id != base :: id in m.snapshots && !MayAdd(m, id, p)
    decreases m.snapshots[tip].sequence
  {
    if tip != base {
      QuietPath(m, base, m.snapshots[tip].parent.value, p);
    }
  }

  /** The check finds nothing exactly when no snapshot in the window may have added a match. */
  lemma NoConflictIffQuiet(m: Metadata, base: nat, tip: nat, p: Predicate)
    requires Ordered(m) && tip in m.snapshots
    ensures ConflictingAdds(m, base, tip, p) == [] <==> Quiet(m, base, tip, p)
  {
    if ConflictingAdds(m, base, tip, p) == [] {
      NoConflictIsQuiet(m, base, tip, p);
    }
    if Quiet(m, base, tip, p) && base != tip {
      QuietPath(m, base, tip, p);
      assert Hits(m, base, Between(m, tip, base).value, p) == {};
    }
  }

  lemma {:induction false} NoMatchIn(files: seq<DataFile>, p: Filter, r: Row)
    requires p.matches(r) && forall f | f in files :: !p.mayMatch(f)
    ensures RowsOf(files)[r] == 0
  {
    if files != [] {
      var f := files[0];
      assert f in files;
      assert r !in f.rows;
      NoMatchIn(files[1..], p, r);
    }
  }

  /** Over a quiet window no matching row is more frequent at the tip than it was at the base. */
  lemma {:induction false} QuietWindow(m: Metadata, base: nat, tip: nat, p: Filter, r: Row)
    requires WellFormed(m) && tip in m.snapshots && Quiet(m, base, tip, p) && p.matches(r)
    ensures base in m.snapshots
    ensures RowsOf(m.snapshots[tip].files)[r] <= RowsOf(m.snapshots[base].files)[r]
    decreases m.snapshots[tip].sequence
  {
    if tip != base {
      var s := m.snapshots[tip];
      var parent := s.parent.value;
      QuietWindow(m, base, parent, p, r);
      RowsOfMonotone(s.files, m.snapshots[parent].files + s.added);
      RowsOfConcat(m.snapshots[parent].files, s.added);
      NoMatchIn(s.added, p, r);
    }
  }

  /**
   * A validated delete only sees rows it was planned on: every matching row at the
   * winner's tip was there, at least as often, in the base version.
   */
  lemma ValidatedWindow(m: Metadata, base: nat, tip: nat, p: Filter)
    requires WellFormed(m) && tip in m.snapshots
    requires ConflictingAdds(m, base, tip, p) == []
    ensures base in m.snapshots
    ensures forall r | p.matches(r) :: RowsOf(m.snapshots[tip].files)[r] <= RowsOf(m.snapshots[base].files)[r]
  {
    NoConflictIsQuiet(m, base, tip, p);
    if base !in m.snapshots {
      QuietReaches(m, base, tip, p);
    }
    forall r | p.matches(r)
      ensures RowsOf(m.snapshots[tip].files)[r] <= RowsOf(m.snapshots[base].files)[r]
    {
      QuietWindow(m, base, tip, p, r);
    }
  }

  lemma {:induction false} QuietReaches(m: Metadata, base: nat, tip: nat, p: Predicate)
    requires Ordered(m) && tip in m.snapshots && Quiet(m, base, tip, p)
    ensures base in m.snapshots
    decreases m.snapshots[tip].sequence
  {
    if base != tip {
      QuietReaches(m, base, m.snapshots[tip].parent.value, p);
    }
  }
}
