/**
 * Reading a TIFF's chain of image file directories (TIFF Revision 6.0, section 2): a
 * linked list threaded through a byte buffer by 32-bit offsets, in either byte order.
 */
module Tiff {
  import opened Options

  type Byte = b: int | 0 <= b < 256

  datatype Endian = Little | Big

  datatype Size = Size(width: nat, height: nat)

  datatype Parsed = Ok(sizes: seq<Size>) | MissingMarker | BadVersion(version: nat)

  const IMAGE_WIDTH := 256
  const IMAGE_LENGTH := 257
  const TYPE_SHORT := 3
  const TYPE_LONG := 4

  // -- reading the buffer ---------------------------------------------------------

  function U16(b: seq<Byte>, at: nat, e: Endian): (v: nat)
    requires at + 2 <= |b|
    ensures v < 0x1_0000
  {
    var first, second: int := b[at], b[at + 1];
    if e.Little? then first + 256 * second else 256 * first + second
  }

  function U32(b: seq<Byte>, at: nat, e: Endian): (v: nat)
    requires at + 4 <= |b|
    ensures v < 0x1_0000_0000
  {
    if e.Little? then U16(b, at, e) + 0x1_0000 * U16(b, at + 2, e) else 0x1_0000 * U16(b, at, e) + U16(b, at + 2, e)
  }

  /** Where the chain starts, or why the buffer is no classic TIFF. */
  datatype Header = Start(endian: Endian, offset: nat) | NoMarker | Unsupported(version: nat)

  function ReadHeader(b: seq<Byte>): Header {
    if |b| < 8 || (b[..2] != [0x49, 0x49] && b[..2] != [0x4D, 0x4D]) then NoMarker
    else
      var e := if b[..2] == [0x49, 0x49] then Little else Big;
      if U16(b, 2, e) != 42 then Unsupported(U16(b, 2, e)) else Start(e, U32(b, 4, e))
  }

  /** Does the whole directory at `offset`, with its link to the next, lie in the buffer? */
  predicate Covered(b: seq<Byte>, e: Endian, offset: nat) {
    offset + 2 <= |b| && offset + 2 + U16(b, offset, e) * 12 + 4 <= |b|
  }

  predicate Stops(b: seq<Byte>, e: Endian, offset: nat) {
    offset == 0 || !Covered(b, e, offset)
  }

  function Count(b: seq<Byte>, e: Endian, offset: nat): nat
    requires Covered(b, e, offset)
  {
    U16(b, offset, e)
  }

  function Next(b: seq<Byte>, e: Endian, offset: nat): nat
    requires Covered(b, e, offset)
  {
    U32(b, offset + 2 + Count(b, e, offset) * 12, e)
  }

  function EntryTag(b: seq<Byte>, e: Endian, offset: nat, index: nat): nat
    requires Covered(b, e, offset) && index < Count(b, e, offset)
  {
    U16(b, offset + 2 + index * 12, e)
  }

  /** A SHORT fills only the first half of the value field; anything else is read as a LONG. */
  function EntryValue(b: seq<Byte>, e: Endian, offset: nat, index: nat): nat
    requires Covered(b, e, offset) && index < Count(b, e, offset)
  {
    var entry := offset + 2 + index * 12;
    if U16(b, entry + 2, e) == TYPE_SHORT then U16(b, entry + 8, e) else U32(b, entry + 8, e)
  }

  /** The last of the first `n` entries with a tag decides, as in a dictionary filled in order. */
  function Lookup(b: seq<Byte>, e: Endian, offset: nat, n: nat, tag: nat): Option<nat>
    requires Covered(b, e, offset) && n <= Count(b, e, offset)
  {
    if n == 0 then None
    else if EntryTag(b, e, offset, n - 1) == tag then Some(EntryValue(b, e, offset, n - 1))
    else Lookup(b, e, offset, n - 1, tag)
  }

  /** One size, unless the directory lacks a width or a height. */
  function DirectorySize(b: seq<Byte>, e: Endian, offset: nat): seq<Size>
    requires Covered(b, e, offset)
  {
    var width := Lookup(b, e, offset, Count(b, e, offset), IMAGE_WIDTH);
    var height := Lookup(b, e, offset, Count(b, e, offset), IMAGE_LENGTH);
    if width.Some? && height.Some? then [Size(width.value, height.value)] else []
  }

  lemma {:induction false} LookupIsLast(b: seq<Byte>, e: Endian, offset: nat, n: nat, tag: nat)
    requires Covered(b, e, offset) && n <= Count(b, e, offset)
    ensures Lookup(b, e, offset, n, tag).None? <==> forall i | 0 <= i < n :: EntryTag(b, e, offset, i) != tag
    ensures Lookup(b, e, offset, n, tag).Some? ==>
              exists i | 0 <= i < n :: EntryTag(b, e, offset, i) == tag
                && Lookup(b, e, offset, n, tag).value == EntryValue(b, e, offset, i)
                && forall j | i < j < n :: EntryTag(b, e, offset, j) != tag
  {
    if n > 0 && EntryTag(b, e, offset, n - 1) != tag {
      LookupIsLast(b, e, offset, n - 1, tag);
    }
  }

  // -- the chain --------------------------------------------------------------------

  /** The offset of the `k`-th directory; None once the chain has ended or left the buffer. */
  function Hop(b: seq<Byte>, e: Endian, first: nat, k: nat): (hop: Option<nat>)
    ensures hop.Some? ==> 0 < hop.value < |b| && Covered(b, e, hop.value)
  {
    var offset := if k == 0 then Some(first)
                  else match Hop(b, e, first, k - 1)
                       case None => None
                       case Some(previous) => Some(Next(b, e, previous));
    if offset.None? || Stops(b, e, offset.value) then None else offset
  }

  /** The sizes of the first `k` directories. */
  function SizesOf(b: seq<Byte>, e: Endian, first: nat, k: nat): seq<Size> {
    if k == 0 then []
    else
      SizesOf(b, e, first, k - 1)
      + match Hop(b, e, first, k - 1) case None => [] case Some(offset) => DirectorySize(b, e, offset)
  }

  /** No directory is visited twice. */
  ghost predicate Acyclic(b: seq<Byte>, e: Endian, first: nat) {
    forall i: nat, j: nat :: i < j && Hop(b, e, first, i).Some? ==> Hop(b, e, first, i) != Hop(b, e, first, j)
  }

  ghost predicate Ends(b: seq<Byte>, e: Endian, first: nat) {
    exists k: nat :: Hop(b, e, first, k).None?
  }

  /** The sizes of the whole chain, wherever it ends. */
  ghost predicate ReadsChain(b: seq<Byte>, e: Endian, first: nat, sizes: seq<Size>) {
    forall k: nat :: Hop(b, e, first, k).None? ==> sizes == SizesOf(b, e, first, k)
  }

  /** What parsing must return: the sizes of all directories up to the end of the chain. */
  ghost predicate Reads(b: seq<Byte>, r: Parsed) {
    match ReadHeader(b)
    case NoMarker => r == MissingMarker
    case Unsupported(version) => r == BadVersion(version)
    case Start(e, first) =>
      r.Ok? && ReadsChain(b, e, first, r.sizes)
  }

  lemma {:induction false} HopStaysNone(b: seq<Byte>, e: Endian, first: nat, k: nat, n: nat)
    requires Hop(b, e, first, k).None? && k <= n
    ensures Hop(b, e, first, n).None? && SizesOf(b, e, first, n) == SizesOf(b, e, first, k)
    decreases n
  {
    if k < n {
      HopStaysNone(b, e, first, k, n - 1);
    }
  }

  /** The end of the chain does not depend on where past it one looks. */
  lemma ReadsFrom(b: seq<Byte>, e: Endian, first: nat, k: nat)
    requires Hop(b, e, first, k).None?
    ensures forall n: nat :: Hop(b, e, first, n).None? ==> SizesOf(b, e, first, n) == SizesOf(b, e, first, k)
  {
    forall n: nat | Hop(b, e, first, n).None? ensures SizesOf(b, e, first, n) == SizesOf(b, e, first, k) {
      if k <= n { HopStaysNone(b, e, first, k, n); } else { HopStaysNone(b, e, first, n, k); }
    }
  }

  // -- the parser ---------------------------------------------------------------------

  /** One turn of the walk: the directory's size and its link, unless it leaves the buffer. */
  method ReadDirectory(b: seq<Byte>, e: Endian, offset: nat) returns (covered: bool, sizes: seq<Size>, next: nat)
    requires offset + 2 <= |b|
    ensures covered == Covered(b, e, offset)
    ensures covered ==> sizes == DirectorySize(b, e, offset) && next == Next(b, e, offset)
    ensures forall fields, link | HasDirectory(b, e, offset, fields, link) :: covered && sizes == SizeIn(fields) && next == link
  {
    hide HasDirectory;
    hide SizeIn;
    forall fields, link | HasDirectory(b, e, offset, fields, link)
      ensures Covered(b, e, offset) && DirectorySize(b, e, offset) == SizeIn(fields) && Next(b, e, offset) == link
    {
      GotDirectory(b, e, offset, fields, link);
    }
    var count := U16(b, offset, e);
    var end := offset + 2 + count * 12;
    if end + 4 > |b| {
      return false, [], 0;
    }
    var dimensions: map<nat, nat> := map[];
    for index := 0 to count
      invariant forall tag | tag == IMAGE_WIDTH || tag == IMAGE_LENGTH ::
                  Lookup(b, e, offset, index, tag) == if tag in dimensions then Some(dimensions[tag]) else None
    {
      var entry := offset + 2 + index * 12;
      var tag, kind := U16(b, entry, e), U16(b, entry + 2, e);
      if tag == IMAGE_WIDTH || tag == IMAGE_LENGTH {
        dimensions := dimensions[tag := if kind == TYPE_SHORT then U16(b, entry + 8, e) else U32(b, entry + 8, e)];
      }
    }
    sizes := [];
    if IMAGE_WIDTH in dimensions && IMAGE_LENGTH in dimensions {
      sizes := [Size(dimensions[IMAGE_WIDTH], dimensions[IMAGE_LENGTH])];
    }
    return true, sizes, U32(b, end, e);
  }

  function Below(n: nat): (s: set<nat>)
    ensures |s| == n && forall o: nat :: o in s <==> o < n
  {
    if n == 0 then {} else Below(n - 1) + {n - 1}
  }

  /** The offsets of the first `k` directories. */
  function Visited(b: seq<Byte>, e: Endian, first: nat, k: nat): set<nat> {
    if k == 0 then {}
    else Visited(b, e, first, k - 1) + match Hop(b, e, first, k - 1) case None => {} case Some(offset) => {offset}
  }

  lemma {:induction false} VisitedEarlier(b: seq<Byte>, e: Endian, first: nat, k: nat, o: nat)
    requires o in Visited(b, e, first, k)
    ensures o < |b| && exists i: nat :: i < k && Hop(b, e, first, i) == Some(o)
  {
    hide Covered;
    if o in Visited(b, e, first, k - 1) {
      VisitedEarlier(b, e, first, k - 1, o);
    }
  }

  lemma {:induction false} VisitedCount(b: seq<Byte>, e: Endian, first: nat, k: nat)
    requires Acyclic(b, e, first) && (k > 0 ==> Hop(b, e, first, k - 1).Some?)
    ensures |Visited(b, e, first, k)| == k
  {
    hide Next;
    if k > 0 {
      VisitedCount(b, e, first, k - 1);
      var offset := Hop(b, e, first, k - 1).value;
      if offset in Visited(b, e, first, k - 1) {
        VisitedEarlier(b, e, first, k - 1, offset);
      }
    }
  }

  lemma {:induction false} SmallerSet(s: set<nat>, t: set<nat>)
    requires s <= t
    ensures |s| <= |t|
  {
    if o :| o in s {
      SmallerSet(s - {o}, t - {o});
    }
  }

  /** Distinct offsets run out: the walk of an acyclic chain takes fewer turns than the buffer has bytes. */
  lemma AcyclicIsShort(b: seq<Byte>, e: Endian, first: nat, k: nat)
    requires Acyclic(b, e, first) && Hop(b, e, first, k).Some?
    ensures k < |b|
  {
    VisitedCount(b, e, first, k + 1);
    forall o | o in Visited(b, e, first, k + 1) ensures o in Below(|b|) {
      VisitedEarlier(b, e, first, k + 1, o);
    }
    SmallerSet(Visited(b, e, first, k + 1), Below(|b|));
  }

  /** The offset the walk looks at after `k` directories. */
  ghost predicate Pending(b: seq<Byte>, e: Endian, first: nat, k: nat, offset: nat) {
    if k == 0 then offset == first
    else Hop(b, e, first, k - 1).Some? && offset == Next(b, e, Hop(b, e, first, k - 1).value)
  }

  lemma PendingHop(b: seq<Byte>, e: Endian, first: nat, k: nat, offset: nat)
    requires Pending(b, e, first, k, offset)
    ensures Hop(b, e, first, k) == if Stops(b, e, offset) then None else Some(offset)
  {}

  /** What the walk knows after `k` directories. */
  ghost predicate Walked(b: seq<Byte>, e: Endian, first: nat, k: nat, offset: nat, sizes: seq<Size>) {
    Pending(b, e, first, k, offset) && sizes == SizesOf(b, e, first, k)
  }

  lemma WalkOn(b: seq<Byte>, e: Endian, first: nat, k: nat, offset: nat, sizes: seq<Size>, size: seq<Size>, next: nat)
    requires Acyclic(b, e, first) && Walked(b, e, first, k, offset, sizes) && offset != 0 && Covered(b, e, offset)
    requires size == DirectorySize(b, e, offset) && next == Next(b, e, offset)
    ensures k < |b| && Walked(b, e, first, k + 1, next, sizes + size)
  {
    PendingHop(b, e, first, k, offset);
    AcyclicIsShort(b, e, first, k);
  }

  lemma WalkEnds(b: seq<Byte>, e: Endian, first: nat, k: nat, offset: nat, sizes: seq<Size>)
    requires Walked(b, e, first, k, offset, sizes)
    requires offset == 0 || offset + 2 > |b| || !Covered(b, e, offset)
    ensures ReadsChain(b, e, first, sizes)
  {
    PendingHop(b, e, first, k, offset);
    ReadsFrom(b, e, first, k);
  }

  /** The walk never looks outside the buffer, and every turn takes it to a directory not seen before. */
  method WalkChain(b: seq<Byte>, e: Endian, first: nat) returns (sizes: seq<Size>)
    requires Acyclic(b, e, first)
    ensures ReadsChain(b, e, first, sizes)
  {
    var offset: nat := first;
    ghost var k := 0;
    sizes := [];
    assert Walked(b, e, first, k, offset, sizes);
    hide *;
    while offset != 0 && offset + 2 <= |b|
      invariant Walked(b, e, first, k, offset, sizes)
      decreases |b| - k
    {
      var covered, size, next := ReadDirectory(b, e, offset);
      if !covered {
        break;
      }
      WalkOn(b, e, first, k, offset, sizes, size, next);
      sizes := sizes + size;
      k, offset := k + 1, next;
    }
    WalkEnds(b, e, first, k, offset, sizes);
  }

  method ParseIfds(b: seq<Byte>) returns (r: Parsed)
    requires ReadHeader(b).Start? ==> Acyclic(b, ReadHeader(b).endian, ReadHeader(b).offset)
    ensures Reads(b, r)
  {
    if |b| < 8 || (b[..2] != [0x49, 0x49] && b[..2] != [0x4D, 0x4D]) {
      return MissingMarker;
    }
    var e := if b[..2] == [0x49, 0x49] then Little else Big;
    var version, offset := U16(b, 2, e), U32(b, 4, e);
    if version != 42 {
      return BadVersion(version);
    }
    var sizes := WalkChain(b, e, offset);
    return Ok(sizes);
  }

  // -- when the walk ends ----------------------------------------------------------------

  lemma {:induction false} Period(b: seq<Byte>, e: Endian, first: nat, i: nat, j: nat, k: nat)
    requires i < j && i <= k && Hop(b, e, first, i).Some? && Hop(b, e, first, i) == Hop(b, e, first, j)
    ensures Hop(b, e, first, k).Some? && Hop(b, e, first, k) == Hop(b, e, first, k + (j - i))
    decreases k
  {
    hide Hop;
    if i < k {
      Period(b, e, first, i, j, k - 1);
      SameNext(b, e, first, k - 1, k - 1 + (j - i));
      if k > j {
        Period(b, e, first, i, j, k - (j - i));
      } else if Hop(b, e, first, k).None? {
        HopStaysNone(b, e, first, k, j);
      }
    }
  }

  /** A chain that comes back to a directory goes round for ever. */
  lemma RepeatsForever(b: seq<Byte>, e: Endian, first: nat, i: nat, j: nat, k: nat)
    requires i < j && Hop(b, e, first, i).Some? && Hop(b, e, first, i) == Hop(b, e, first, j)
    ensures Hop(b, e, first, k).Some?
  {
    hide Hop;
    if k >= i {
      Period(b, e, first, i, j, k);
    } else if Hop(b, e, first, k).None? {
      HopStaysNone(b, e, first, k, i);
    }
  }

  lemma SameNext(b: seq<Byte>, e: Endian, first: nat, i: nat, j: nat)
    requires Hop(b, e, first, i) == Hop(b, e, first, j) && Hop(b, e, first, i).Some?
    ensures Hop(b, e, first, i + 1) == Hop(b, e, first, j + 1)
  {}

  /** The loop has no check for cycles: it ends exactly on the chains that visit no directory twice. */
  lemma EndsIffAcyclic(b: seq<Byte>, e: Endian, first: nat)
    ensures Ends(b, e, first) <==> Acyclic(b, e, first)
  {
    if Acyclic(b, e, first) && Hop(b, e, first, |b|).Some? {
      AcyclicIsShort(b, e, first, |b|);
    }
    if Ends(b, e, first) && !Acyclic(b, e, first) {
      var k: nat :| Hop(b, e, first, k).None?;
      var i: nat, j: nat :| i < j && Hop(b, e, first, i).Some? && Hop(b, e, first, i) == Hop(b, e, first, j);
      RepeatsForever(b, e, first, i, j, k);
    }
  }

  /** A file of fourteen bytes whose only directory, empty, links to itself. */
  const LOOP: seq<Byte> := [0x49, 0x49, 42, 0, 8, 0, 0, 0, 0, 0, 8, 0, 0, 0]

  lemma LoopLinks()
    ensures ReadHeader(LOOP) == Start(Little, 8)
    ensures Covered(LOOP, Little, 8) && Next(LOOP, Little, 8) == 8
  {
    assert LOOP[..2] == [0x49, 0x49];
    assert U16(LOOP, 8, Little) == 0;
  }

  lemma {:induction false} LoopHops(k: nat)
    ensures Hop(LOOP, Little, 8, k) == Some(8)
  {
    hide Next;
    LoopLinks();
    if k > 0 {
      LoopHops(k - 1);
    }
  }

  lemma LoopNeverEnds()
    ensures ReadHeader(LOOP) == Start(Little, 8) && !Ends(LOOP, Little, 8)
  {
    LoopLinks();
    forall k: nat ensures Hop(LOOP, Little, 8, k).Some? {
      LoopHops(k);
    }
  }

  // -- a truncated buffer -----------------------------------------------------------------

  lemma CutReads(b: seq<Byte>, part: seq<Byte>, e: Endian, offset: nat)
    requires part <= b && Covered(part, e, offset)
    ensures Covered(b, e, offset) && Next(part, e, offset) == Next(b, e, offset)
    ensures Count(part, e, offset) == Count(b, e, offset)
    ensures forall i: nat :: i < Count(b, e, offset) ==>
              EntryTag(part, e, offset, i) == EntryTag(b, e, offset, i)
              && EntryValue(part, e, offset, i) == EntryValue(b, e, offset, i)
  {}

  lemma {:induction false} CutLookup(b: seq<Byte>, part: seq<Byte>, e: Endian, offset: nat, n: nat, tag: nat)
    requires part <= b && Covered(part, e, offset) && Covered(b, e, offset)
    requires n <= Count(part, e, offset) && n <= Count(b, e, offset)
    ensures Lookup(part, e, offset, n, tag) == Lookup(b, e, offset, n, tag)
  {
    CutReads(b, part, e, offset);
    if n > 0 {
      CutLookup(b, part, e, offset, n - 1, tag);
    }
  }

  lemma CutDirectory(b: seq<Byte>, part: seq<Byte>, e: Endian, offset: nat)
    requires part <= b && Covered(part, e, offset)
    ensures Covered(b, e, offset) && DirectorySize(part, e, offset) == DirectorySize(b, e, offset)
  {
    CutReads(b, part, e, offset);
    CutLookup(b, part, e, offset, Count(b, e, offset), IMAGE_WIDTH);
    CutLookup(b, part, e, offset, Count(b, e, offset), IMAGE_LENGTH);
  }

  /** A directory reached in the cut buffer is the one reached in the whole. */
  lemma {:induction false} CutHop(b: seq<Byte>, part: seq<Byte>, e: Endian, first: nat, k: nat)
    requires part <= b
    ensures Hop(part, e, first, k).Some? ==> Hop(b, e, first, k) == Hop(part, e, first, k)
  {
    if k > 0 {
      CutHop(b, part, e, first, k - 1);
    }
    if Hop(part, e, first, k).Some? {
      CutReads(b, part, e, Hop(part, e, first, k).value);
      if k > 0 {
        CutReads(b, part, e, Hop(part, e, first, k - 1).value);
      }
    }
  }

  /** The directory behind a hop adds the same size to both. */
  lemma CutSize(b: seq<Byte>, part: seq<Byte>, e: Endian, first: nat, k: nat)
    requires part <= b && Hop(part, e, first, k).Some?
    requires SizesOf(part, e, first, k) == SizesOf(b, e, first, k)
    ensures SizesOf(part, e, first, k + 1) == SizesOf(b, e, first, k + 1)
  {
    hide Hop;
    hide DirectorySize;
    CutHop(b, part, e, first, k);
    CutDirectory(b, part, e, Hop(part, e, first, k).value);
  }

  /** As long as the cut buffer's chain goes on, both give the same sizes. */
  lemma {:induction false} CutSame(b: seq<Byte>, part: seq<Byte>, e: Endian, first: nat, k: nat)
    requires part <= b && (k > 0 ==> Hop(part, e, first, k - 1).Some?)
    ensures SizesOf(part, e, first, k) == SizesOf(b, e, first, k)
  {
    if k > 0 {
      assert k > 1 ==> Hop(part, e, first, k - 2).Some?;
      hide *;
      CutSame(b, part, e, first, k - 1);
      CutSize(b, part, e, first, k - 1);
    }
  }

  lemma SizesGrow(b: seq<Byte>, e: Endian, first: nat, k: nat, sizes: seq<Size>)
    requires sizes <= SizesOf(b, e, first, k)
    ensures sizes <= SizesOf(b, e, first, k + 1)
  {
    hide Hop;
    hide DirectorySize;
  }

  lemma {:induction false} CutSizes(b: seq<Byte>, part: seq<Byte>, e: Endian, first: nat, k: nat)
    requires part <= b
    ensures SizesOf(part, e, first, k) <= SizesOf(b, e, first, k)
  {
    hide Hop;
    hide DirectorySize;
    if k > 0 {
      if Hop(part, e, first, k - 1).Some? {
        CutSame(b, part, e, first, k);
      } else {
        CutSizes(b, part, e, first, k - 1);
        SizesGrow(b, e, first, k - 1, SizesOf(part, e, first, k - 1));
        HopStaysNone(part, e, first, k - 1, k);
      }
    }
  }

  lemma CutHeader(b: seq<Byte>, part: seq<Byte>)
    requires part <= b && 8 <= |part|
    ensures ReadHeader(part) == ReadHeader(b)
  {
    assert part[..2] == b[..2];
  }

  /** A cut of an acyclic file is acyclic. */
  lemma CutAcyclic(b: seq<Byte>, part: seq<Byte>, e: Endian, first: nat)
    requires part <= b && Acyclic(b, e, first)
    ensures Acyclic(part, e, first)
  {
    forall i: nat, j: nat | i < j && Hop(part, e, first, i).Some?
      ensures Hop(part, e, first, i) != Hop(part, e, first, j)
    {
      CutHop(b, part, e, first, i);
      CutHop(b, part, e, first, j);
    }
  }

  /**
   * Truncation: as long as the eight header bytes are there, parsing a first part of the
   * buffer gives the levels it covers, in order, and no error the whole does not give.
   */
  lemma TruncationIsPrefix(b: seq<Byte>, part: seq<Byte>, whole: Parsed, cut: Parsed)
    requires part <= b && 8 <= |part|
    requires ReadHeader(b).Start? ==> Acyclic(b, ReadHeader(b).endian, ReadHeader(b).offset)
    requires Reads(b, whole) && Reads(part, cut)
    ensures ReadHeader(part) == ReadHeader(b)
    ensures ReadHeader(b).Start? ==> Acyclic(part, ReadHeader(b).endian, ReadHeader(b).offset)
    ensures if whole.Ok? then cut.Ok? && cut.sizes <= whole.sizes else cut == whole
  {
    hide Hop;
    hide SizesOf;
    CutHeader(b, part);
    if ReadHeader(b).Start? {
      var e, first := ReadHeader(b).endian, ReadHeader(b).offset;
      CutAcyclic(b, part, e, first);
      EndsIffAcyclic(b, e, first);
      EndsIffAcyclic(part, e, first);
      var n: nat :| Hop(b, e, first, n).None?;
      var k: nat :| Hop(part, e, first, k).None?;
      HopStaysNone(b, e, first, n, n + k);
      HopStaysNone(part, e, first, k, n + k);
      CutSizes(b, part, e, first, n + k);
    }
  }

  // -- a writer to read back ---------------------------------------------------------------

  function Put16(v: nat, e: Endian): (b: seq<Byte>)
    requires v < 0x1_0000
    ensures |b| == 2
  {
    if e.Little? then [v % 256, v / 256] else [v / 256, v % 256]
  }

  function Put32(v: nat, e: Endian): (b: seq<Byte>)
    requires v < 0x1_0000_0000
    ensures |b| == 4
  {
    var low, high := v % 0x1_0000, v / 0x1_0000;
    if e.Little? then Put16(low, e) + Put16(high, e) else Put16(high, e) + Put16(low, e)
  }

  /** What an entry holds: a SHORT and the two bytes behind it, or a value of any other type as one LONG. */
  datatype Content = Short(value: nat, rest: nat) | Other(kind: nat, value: nat)

  /** An entry: its tag, the count it claims, and its content. */
  datatype Field = Field(tag: nat, count: nat, content: Content)

  predicate Storable(f: Field) {
    && f.tag < 0x1_0000 && f.count < 0x1_0000_0000
    && match f.content
       case Short(value, rest) => value < 0x1_0000 && rest < 0x1_0000
       case Other(kind, value) => kind < 0x1_0000 && kind != TYPE_SHORT && value < 0x1_0000_0000
  }

  /** Twelve bytes: tag, type, count, and the value, left-justified. */
  function FieldBytes(f: Field, e: Endian): (b: seq<Byte>)
    requires Storable(f)
    ensures |b| == 12
  {
    match f.content
    case Short(value, rest) => Put16(f.tag, e) + Put16(TYPE_SHORT, e) + Put32(f.count, e) + (Put16(value, e) + Put16(rest, e))
    case Other(kind, value) => Put16(f.tag, e) + Put16(kind, e) + Put32(f.count, e) + Put32(value, e)
  }

  ghost predicate AllStorable(fields: seq<Field>) {
    |fields| < 0x1_0000 && forall i | 0 <= i < |fields| :: Storable(fields[i])
  }

  function FieldsBytes(fields: seq<Field>, e: Endian): (b: seq<Byte>)
    requires forall i | 0 <= i < |fields| :: Storable(fields[i])
    ensures |b| == 12 * |fields|
  {
    if fields == [] then [] else FieldsBytes(fields[..|fields| - 1], e) + FieldBytes(fields[|fields| - 1], e)
  }

  function DirectoryBytes(fields: seq<Field>, next: nat, e: Endian): (b: seq<Byte>)
    requires |fields| < 0x1_0000 && next < 0x1_0000_0000
    requires forall i | 0 <= i < |fields| :: Storable(fields[i])
    ensures |b| == 6 + 12 * |fields|
  {
    Put16(|fields|, e) + FieldsBytes(fields, e) + Put32(next, e)
  }

  /** The last value with a tag. */
  function LastValue(fields: seq<Field>, tag: nat): Option<nat> {
    if fields == [] then None
    else
      var last := fields[|fields| - 1];
      if last.tag == tag then Some(last.content.value) else LastValue(fields[..|fields| - 1], tag)
  }

  /** The size a directory states, if it states both dimensions. */
  function SizeIn(fields: seq<Field>): seq<Size> {
    var width, height := LastValue(fields, IMAGE_WIDTH), LastValue(fields, IMAGE_LENGTH);
    if width.Some? && height.Some? then [Size(width.value, height.value)] else []
  }

  lemma {:induction false} LastValueIs(fields: seq<Field>, tag: nat, i: nat)
    requires i < |fields| && fields[i].tag == tag && forall j | i < j < |fields| :: fields[j].tag != tag
    ensures LastValue(fields, tag) == Some(fields[i].content.value)
  {
    if i < |fields| - 1 {
      LastValueIs(fields[..|fields| - 1], tag, i);
    }
  }

  /** The buffer has this directory at this offset. */
  ghost predicate HasDirectory(b: seq<Byte>, e: Endian, offset: nat, fields: seq<Field>, next: nat) {
    && AllStorable(fields) && next < 0x1_0000_0000
    && offset + 6 + 12 * |fields| <= |b|
    && b[offset..offset + 6 + 12 * |fields|] == DirectoryBytes(fields, next, e)
  }

  lemma Got16(b: seq<Byte>, at: nat, v: nat, e: Endian)
    requires v < 0x1_0000 && at + 2 <= |b| && b[at..at + 2] == Put16(v, e)
    ensures U16(b, at, e) == v
  {
    assert b[at] == b[at..at + 2][0] && b[at + 1] == b[at..at + 2][1];
  }

  lemma Got32(b: seq<Byte>, at: nat, v: nat, e: Endian)
    requires v < 0x1_0000_0000 && at + 4 <= |b| && b[at..at + 4] == Put32(v, e)
    ensures U32(b, at, e) == v
  {
    var low, high := v % 0x1_0000, v / 0x1_0000;
    var first, second := if e.Little? then low else high, if e.Little? then high else low;
    assert b[at..at + 2] == b[at..at + 4][..2] == Put16(first, e);
    assert b[at + 2..at + 4] == b[at..at + 4][2..] == Put16(second, e);
    Got16(b, at, first, e);
    Got16(b, at + 2, second, e);
  }

  lemma PartOf(b: seq<Byte>, at: nat, whole: seq<Byte>, from: nat, to: nat)
    requires at + |whole| <= |b| && b[at..at + |whole|] == whole && from <= to <= |whole|
    ensures b[at + from..at + to] == whole[from..to]
  {
    var part := b[at..at + |whole|];
    forall i | from <= i < to ensures b[at + i] == whole[i] {
      assert part[i] == b[at + i];
    }
  }

  lemma SliceLeft(a: seq<Byte>, c: seq<Byte>, i: nat, j: nat)
    requires i <= j <= |a|
    ensures (a + c)[i..j] == a[i..j]
  {}

  lemma SliceRight(a: seq<Byte>, c: seq<Byte>)
    ensures (a + c)[|a|..|a| + |c|] == c
  {}

  lemma FieldParts(f: Field, e: Endian)
    requires Storable(f)
    ensures var b, kind := FieldBytes(f, e), if f.content.Short? then TYPE_SHORT else f.content.kind;
            && b[0..2] == Put16(f.tag, e) && b[2..4] == Put16(kind, e)
            && (f.content.Short? ==> b[8..10] == Put16(f.content.value, e))
            && (f.content.Other? ==> b[8..12] == Put32(f.content.value, e))
  {
    hide Put16;
    hide Put32;
  }

  lemma GotField(b: seq<Byte>, at: nat, f: Field, e: Endian)
    requires Storable(f) && at + 12 <= |b| && b[at..at + 12] == FieldBytes(f, e)
    ensures U16(b, at, e) == f.tag
    ensures (if U16(b, at + 2, e) == TYPE_SHORT then U16(b, at + 8, e) else U32(b, at + 8, e)) == f.content.value
  {
    hide Put16;
    hide Put32;
    hide FieldBytes;
    hide U16;
    hide U32;
    var bytes := FieldBytes(f, e);
    FieldParts(f, e);
    PartOf(b, at, bytes, 0, 2);
    Got16(b, at, f.tag, e);
    PartOf(b, at, bytes, 2, 4);
    Got16(b, at + 2, if f.content.Short? then TYPE_SHORT else f.content.kind, e);
    if f.content.Short? {
      PartOf(b, at, bytes, 8, 10);
      Got16(b, at + 8, f.content.value, e);
    } else {
      PartOf(b, at, bytes, 8, 12);
      Got32(b, at + 8, f.content.value, e);
    }
  }

  /** Field `i` takes the twelve bytes from `12 * i` on. */
  lemma {:induction false} FieldAt(fields: seq<Field>, e: Endian, i: nat)
    requires i < |fields| && forall j | 0 <= j < |fields| :: Storable(fields[j])
    ensures FieldsBytes(fields, e)[12 * i..12 * i + 12] == FieldBytes(fields[i], e)
  {
    hide FieldBytes;
    var front, last := FieldsBytes(fields[..|fields| - 1], e), FieldBytes(fields[|fields| - 1], e);
    if i < |fields| - 1 {
      FieldAt(fields[..|fields| - 1], e, i);
      SliceLeft(front, last, 12 * i, 12 * i + 12);
    } else {
      SliceRight(front, last);
    }
  }

  lemma DirectoryParts(fields: seq<Field>, next: nat, e: Endian)
    requires AllStorable(fields) && next < 0x1_0000_0000
    ensures var d, n := DirectoryBytes(fields, next, e), 2 + 12 * |fields|;
            d[0..2] == Put16(|fields|, e) && d[2..n] == FieldsBytes(fields, e) && d[n..n + 4] == Put32(next, e)
  {
    hide Put16;
    hide Put32;
    hide FieldsBytes;
  }

  lemma DirectoryField(b: seq<Byte>, e: Endian, offset: nat, fields: seq<Field>, next: nat, i: nat)
    requires HasDirectory(b, e, offset, fields, next) && i < |fields|
    ensures var at := offset + 2 + 12 * i;
            && U16(b, at, e) == fields[i].tag
            && (if U16(b, at + 2, e) == TYPE_SHORT then U16(b, at + 8, e) else U32(b, at + 8, e)) == fields[i].content.value
  {
    hide DirectoryBytes;
    hide FieldsBytes;
    hide FieldBytes;
    hide U16;
    hide U32;
    hide Put16;
    hide Put32;
    var whole, all := DirectoryBytes(fields, next, e), FieldsBytes(fields, e);
    DirectoryParts(fields, next, e);
    FieldAt(fields, e, i);
    PartOf(b, offset, whole, 2, 2 + 12 * |fields|);
    assert b[offset + 2..offset + 2 + |all|] == all;
    PartOf(b, offset + 2, all, 12 * i, 12 * i + 12);
    GotField(b, offset + 2 + 12 * i, fields[i], e);
  }

  lemma DirectoryCount(b: seq<Byte>, e: Endian, offset: nat, fields: seq<Field>, next: nat)
    requires HasDirectory(b, e, offset, fields, next)
    ensures U16(b, offset, e) == |fields|
  {
    hide DirectoryBytes;
    hide FieldsBytes;
    hide U16;
    hide Put16;
    hide Put32;
    hide Storable;
    DirectoryParts(fields, next, e);
    PartOf(b, offset, DirectoryBytes(fields, next, e), 0, 2);
    Got16(b, offset, |fields|, e);
  }

  lemma DirectoryLink(b: seq<Byte>, e: Endian, offset: nat, fields: seq<Field>, next: nat)
    requires HasDirectory(b, e, offset, fields, next)
    ensures U32(b, offset + 2 + 12 * |fields|, e) == next
  {
    hide DirectoryBytes;
    hide FieldsBytes;
    hide U32;
    hide Put16;
    hide Put32;
    hide Storable;
    var end := 2 + 12 * |fields|;
    DirectoryParts(fields, next, e);
    PartOf(b, offset, DirectoryBytes(fields, next, e), end, end + 4);
    Got32(b, offset + end, next, e);
  }

  lemma DirectoryEnds(b: seq<Byte>, e: Endian, offset: nat, fields: seq<Field>, next: nat)
    requires HasDirectory(b, e, offset, fields, next)
    ensures Covered(b, e, offset) && Count(b, e, offset) == |fields| && Next(b, e, offset) == next
  {
    hide DirectoryBytes;
    hide U16;
    hide U32;
    hide AllStorable;
    DirectoryCount(b, e, offset, fields, next);
    DirectoryLink(b, e, offset, fields, next);
  }

  lemma {:induction false} LookupIsValue(b: seq<Byte>, e: Endian, offset: nat, fields: seq<Field>, next: nat, n: nat, tag: nat)
    requires HasDirectory(b, e, offset, fields, next) && n <= |fields|
    requires Covered(b, e, offset) && Count(b, e, offset) == |fields|
    ensures Lookup(b, e, offset, n, tag) == LastValue(fields[..n], tag)
  {
    hide HasDirectory;
    hide U16;
    hide U32;
    hide Covered;
    hide Count;
    if n > 0 {
      LookupIsValue(b, e, offset, fields, next, n - 1, tag);
      DirectoryField(b, e, offset, fields, next, n - 1);
      assert fields[..n][..n - 1] == fields[..n - 1];
    }
  }

  /** Where a directory lies in the buffer, the parser finds its size and its link, whatever else it holds. */
  lemma GotDirectory(b: seq<Byte>, e: Endian, offset: nat, fields: seq<Field>, next: nat)
    requires HasDirectory(b, e, offset, fields, next)
    ensures Covered(b, e, offset) && Next(b, e, offset) == next && DirectorySize(b, e, offset) == SizeIn(fields)
  {
    hide HasDirectory;
    hide Covered;
    hide Next;
    hide Lookup;
    hide LastValue;
    DirectoryEnds(b, e, offset, fields, next);
    LookupIsValue(b, e, offset, fields, next, |fields|, IMAGE_WIDTH);
    LookupIsValue(b, e, offset, fields, next, |fields|, IMAGE_LENGTH);
    assert fields[..|fields|] == fields;
  }

  // -- every covered directory is one ----------------------------------------------------------

  lemma Put16Got(b: seq<Byte>, at: nat, e: Endian)
    requires at + 2 <= |b|
    ensures Put16(U16(b, at, e), e) == b[at..at + 2]
  {
    var first, second: int := b[at], b[at + 1];
    assert (first + 256 * second) % 256 == first && (first + 256 * second) / 256 == second;
    assert (256 * first + second) % 256 == second && (256 * first + second) / 256 == first;
    assert b[at..at + 2] == [b[at], b[at + 1]];
  }

  lemma Put32Got(b: seq<Byte>, at: nat, e: Endian)
    requires at + 4 <= |b|
    ensures Put32(U32(b, at, e), e) == b[at..at + 4]
  {
    hide U16;
    hide Put16;
    var v, first, second := U32(b, at, e), U16(b, at, e), U16(b, at + 2, e);
    assert (first + 0x1_0000 * second) % 0x1_0000 == first && (first + 0x1_0000 * second) / 0x1_0000 == second;
    assert (0x1_0000 * first + second) % 0x1_0000 == second && (0x1_0000 * first + second) / 0x1_0000 == first;
    Put16Got(b, at, e);
    Put16Got(b, at + 2, e);
    assert b[at..at + 4] == b[at..at + 2] + b[at + 2..at + 4];
  }

  /** The field in the twelve bytes from `at` on. */
  function ReadField(b: seq<Byte>, at: nat, e: Endian): (f: Field)
    requires at + 12 <= |b|
    ensures Storable(f)
  {
    Field(U16(b, at, e), U32(b, at + 4, e),
          if U16(b, at + 2, e) == TYPE_SHORT then Short(U16(b, at + 8, e), U16(b, at + 10, e))
          else Other(U16(b, at + 2, e), U32(b, at + 8, e)))
  }

  lemma FieldRead(b: seq<Byte>, at: nat, e: Endian)
    requires at + 12 <= |b|
    ensures FieldBytes(ReadField(b, at, e), e) == b[at..at + 12]
  {
    hide U16;
    hide U32;
    hide Put16;
    hide Put32;
    Put16Got(b, at, e);
    Put16Got(b, at + 2, e);
    Put32Got(b, at + 4, e);
    Put32Got(b, at + 8, e);
    Put16Got(b, at + 8, e);
    Put16Got(b, at + 10, e);
    assert b[at..at + 12] == b[at..at + 2] + b[at + 2..at + 4] + b[at + 4..at + 8] + b[at + 8..at + 12];
    assert b[at + 8..at + 12] == b[at + 8..at + 10] + b[at + 10..at + 12];
  }

  function ReadFields(b: seq<Byte>, at: nat, n: nat, e: Endian): (fields: seq<Field>)
    requires at + 12 * n <= |b|
    ensures |fields| == n && forall i | 0 <= i < n :: Storable(fields[i]) && fields[i] == ReadField(b, at + 12 * i, e)
  {
    if n == 0 then [] else ReadFields(b, at, n - 1, e) + [ReadField(b, at + 12 * (n - 1), e)]
  }

  lemma {:induction false} FieldsRead(b: seq<Byte>, at: nat, n: nat, e: Endian)
    requires at + 12 * n <= |b|
    ensures FieldsBytes(ReadFields(b, at, n, e), e) == b[at..at + 12 * n]
  {
    hide FieldsBytes;
    hide FieldBytes;
    hide ReadField;
    if n > 0 {
      FieldsRead(b, at, n - 1, e);
      FieldRead(b, at + 12 * (n - 1), e);
      FieldsSnoc(ReadFields(b, at, n - 1, e), ReadField(b, at + 12 * (n - 1), e), e);
      SplitSlice(b, at, at + 12 * (n - 1), at + 12 * n);
    }
  }

  lemma FieldsSnoc(fields: seq<Field>, f: Field, e: Endian)
    requires Storable(f) && forall i | 0 <= i < |fields| :: Storable(fields[i])
    ensures FieldsBytes(fields + [f], e) == FieldsBytes(fields, e) + FieldBytes(f, e)
  {
    assert (fields + [f])[..|fields|] == fields;
  }

  lemma SplitSlice(b: seq<Byte>, i: nat, j: nat, k: nat)
    requires i <= j <= k <= |b|
    ensures b[i..k] == b[i..j] + b[j..k]
  {}

  /** Every directory that lies whole in the buffer is some list of fields and a link. */
  lemma EveryDirectory(b: seq<Byte>, e: Endian, offset: nat) returns (fields: seq<Field>, next: nat)
    requires Covered(b, e, offset)
    ensures HasDirectory(b, e, offset, fields, next)
    ensures forall i | 0 <= i < |fields| :: offset + 14 + 12 * i <= |b| && fields[i] == ReadField(b, offset + 2 + 12 * i, e)
  {
    hide U32;
    hide Put16;
    hide Put32;
    hide ReadField;
    hide FieldsBytes;
    var n := U16(b, offset, e);
    var end := offset + 2 + 12 * n;
    fields, next := ReadFields(b, offset + 2, n, e), U32(b, end, e);
    FieldsRead(b, offset + 2, n, e);
    Put16Got(b, offset, e);
    Put32Got(b, end, e);
    assert b[offset..end + 4] == b[offset..offset + 2] + b[offset + 2..end] + b[end..end + 4];
  }

  // -- a whole chain ------------------------------------------------------------------------------

  /** The sizes the first `n` directories state. */
  function SizesIn(directories: seq<seq<Field>>, n: nat): seq<Size>
    requires n <= |directories|
  {
    if n == 0 then [] else SizesIn(directories, n - 1) + SizeIn(directories[n - 1])
  }

  /** Where the `i`-th of these directories is; behind the last, where its link leads. */
  function PlaceOf(offsets: seq<nat>, end: nat, i: nat): nat
    requires i <= |offsets|
  {
    if i < |offsets| then offsets[i] else end
  }

  /** These directories, in this order, each linking to the next; the last one's link ends the chain. */
  ghost predicate Linked(b: seq<Byte>, e: Endian, offsets: seq<nat>, directories: seq<seq<Field>>, end: nat) {
    && |offsets| == |directories|
    && (forall i | 0 <= i < |offsets| ::
          offsets[i] != 0 && HasDirectory(b, e, offsets[i], directories[i], PlaceOf(offsets, end, i + 1)))
    && (end == 0 || !exists fields, next :: HasDirectory(b, e, end, fields, next))
  }

  lemma EndStops(b: seq<Byte>, e: Endian, end: nat)
    requires end == 0 || !exists fields, next :: HasDirectory(b, e, end, fields, next)
    ensures Stops(b, e, end)
  {
    hide HasDirectory;
    if end != 0 && Covered(b, e, end) {
      var fields, next := EveryDirectory(b, e, end);
    }
  }

  lemma {:induction false} LinkedHop(b: seq<Byte>, e: Endian, offsets: seq<nat>, directories: seq<seq<Field>>, end: nat, k: nat)
    requires Linked(b, e, offsets, directories, end) && k <= |offsets|
    ensures Hop(b, e, PlaceOf(offsets, end, 0), k) == if k < |offsets| then Some(offsets[k]) else None
    ensures SizesOf(b, e, PlaceOf(offsets, end, 0), k) == SizesIn(directories, k)
  {
    hide HasDirectory;
    hide Covered;
    hide Next;
    hide DirectorySize;
    hide SizeIn;
    EndStops(b, e, end);
    if k > 0 {
      LinkedHop(b, e, offsets, directories, end, k - 1);
      GotDirectory(b, e, offsets[k - 1], directories[k - 1], PlaceOf(offsets, end, k));
    }
    if k < |offsets| {
      GotDirectory(b, e, offsets[k], directories[k], PlaceOf(offsets, end, k + 1));
    }
  }

  /**
   * Wherever its directories lie and whatever else is in the buffer, a linked chain ends and
   * gives exactly the sizes its directories state, in the order of the links.
   */
  lemma ReadsLinked(b: seq<Byte>, e: Endian, offsets: seq<nat>, directories: seq<seq<Field>>, end: nat, sizes: seq<Size>)
    requires Linked(b, e, offsets, directories, end)
    ensures var first := PlaceOf(offsets, end, 0);
            Acyclic(b, e, first) && (ReadsChain(b, e, first, sizes) <==> sizes == SizesIn(directories, |directories|))
  {
    hide Hop;
    hide SizesOf;
    hide HasDirectory;
    var first := PlaceOf(offsets, end, 0);
    LinkedHop(b, e, offsets, directories, end, |offsets|);
    EndsIffAcyclic(b, e, first);
    ReadsFrom(b, e, first, |offsets|);
  }

  /** The first `k` hops as a chain, with its link still open. */
  ghost predicate Followed(b: seq<Byte>, e: Endian, offsets: seq<nat>, directories: seq<seq<Field>>, end: nat) {
    && |offsets| == |directories|
    && (forall i | 0 <= i < |offsets| ::
          offsets[i] != 0 && HasDirectory(b, e, offsets[i], directories[i], PlaceOf(offsets, end, i + 1)))
  }

  lemma {:induction false} FollowHops(b: seq<Byte>, e: Endian, first: nat, k: nat)
    returns (offsets: seq<nat>, directories: seq<seq<Field>>, end: nat)
    requires k > 0 ==> Hop(b, e, first, k - 1).Some?
    ensures |offsets| == k && Followed(b, e, offsets, directories, end) && PlaceOf(offsets, end, 0) == first
    ensures Pending(b, e, first, k, end)
  {
    hide HasDirectory;
    hide Covered;
    if k == 0 {
      offsets, directories, end := [], [], first;
    } else {
      assert k > 1 ==> Hop(b, e, first, k - 2).Some?;
      var before, fields, last := FollowHops(b, e, first, k - 1);
      PendingHop(b, e, first, k - 1, last);
      var found, next := EveryDirectory(b, e, last);
      GotDirectory(b, e, last, found, next);
      offsets, directories, end := before + [last], fields + [found], next;
      forall i | 0 <= i < k
        ensures offsets[i] != 0 && HasDirectory(b, e, offsets[i], directories[i], PlaceOf(offsets, end, i + 1))
      {
        if i < k - 1 {
          assert PlaceOf(offsets, end, i + 1) == PlaceOf(before, last, i + 1);
        }
      }
    }
  }

  /** Every chain that ends is such a list of directories. */
  lemma ChainIsLinked(b: seq<Byte>, e: Endian, first: nat) returns (offsets: seq<nat>, directories: seq<seq<Field>>, end: nat)
    requires Acyclic(b, e, first)
    ensures Linked(b, e, offsets, directories, end) && PlaceOf(offsets, end, 0) == first
  {
    hide Hop;
    hide HasDirectory;
    EndsIffAcyclic(b, e, first);
    var n: nat :| Hop(b, e, first, n).None?;
    var k := FirstNone(b, e, first, n);
    offsets, directories, end := FollowHops(b, e, first, k);
    PendingHop(b, e, first, k, end);
    if end != 0 {
      forall fields, next | HasDirectory(b, e, end, fields, next) ensures false {
        GotDirectory(b, e, end, fields, next);
      }
    }
  }

  lemma {:induction false} FirstNone(b: seq<Byte>, e: Endian, first: nat, n: nat) returns (k: nat)
    requires Hop(b, e, first, n).None?
    ensures Hop(b, e, first, k).None? && (k > 0 ==> Hop(b, e, first, k - 1).Some?)
  {
    hide Hop;
    if n == 0 || Hop(b, e, first, n - 1).Some? { k := n; } else { k := FirstNone(b, e, first, n - 1); }
  }

  // -- a whole file -------------------------------------------------------------------------------

  /** A directory and the bytes between it and the one before. */
  datatype Level = Level(gap: seq<Byte>, fields: seq<Field>)

  /** Where the first `n` levels end. */
  function EndOf(levels: seq<Level>, n: nat): nat
    requires n <= |levels|
  {
    if n == 0 then 8 else EndOf(levels, n - 1) + |levels[n - 1].gap| + 6 + 12 * |levels[n - 1].fields|
  }

  function OffsetOf(levels: seq<Level>, i: nat): nat
    requires i < |levels|
  {
    EndOf(levels, i) + |levels[i].gap|
  }

  ghost predicate Writable(levels: seq<Level>) {
    (forall i | 0 <= i < |levels| :: AllStorable(levels[i].fields)) && EndOf(levels, |levels|) < 0x1_0000_0000
  }

  /** The offset of the next directory, or zero behind the last. */
  function NextOf(levels: seq<Level>, i: nat): nat
    requires i <= |levels|
  {
    if i == |levels| then 0 else OffsetOf(levels, i)
  }

  lemma {:induction false} EndsGrow(levels: seq<Level>, i: nat, j: nat)
    requires i <= j <= |levels|
    ensures 8 <= EndOf(levels, i) <= EndOf(levels, j)
    decreases j
  {
    if i < j {
      EndsGrow(levels, i, j - 1);
    } else if i > 0 {
      EndsGrow(levels, i - 1, i - 1);
    }
  }

  lemma NextFits(levels: seq<Level>, i: nat)
    requires Writable(levels) && i <= |levels|
    ensures NextOf(levels, i) < 0x1_0000_0000
  {
    if i < |levels| {
      EndsGrow(levels, i + 1, |levels|);
    }
  }

  /** The header and the first `n` directories of a file with all the levels. */
  function Written(levels: seq<Level>, e: Endian, n: nat): (b: seq<Byte>)
    requires Writable(levels) && n <= |levels|
    ensures |b| == EndOf(levels, n)
  {
    NextFits(levels, n);
    if n == 0 then (if e.Little? then [0x49, 0x49] else [0x4D, 0x4D]) + Put16(42, e) + Put32(NextOf(levels, 0), e)
    else Written(levels, e, n - 1) + (levels[n - 1].gap + DirectoryBytes(levels[n - 1].fields, NextOf(levels, n), e))
  }

  function Build(levels: seq<Level>, e: Endian): (b: seq<Byte>)
    requires Writable(levels)
    ensures |b| == EndOf(levels, |levels|)
  {
    Written(levels, e, |levels|)
  }

  /** Each directory lies where the one before it says. */
  lemma {:induction false} WrittenAt(levels: seq<Level>, e: Endian, n: nat, i: nat)
    requires Writable(levels) && i < n <= |levels|
    ensures HasDirectory(Written(levels, e, n), e, OffsetOf(levels, i), levels[i].fields, NextOf(levels, i + 1))
    decreases n
  {
    hide Storable;
    hide Put16;
    hide Put32;
    hide DirectoryBytes;
    NextFits(levels, n);
    var gap, directory := levels[n - 1].gap, DirectoryBytes(levels[n - 1].fields, NextOf(levels, n), e);
    var before := Written(levels, e, n - 1);
    if i < n - 1 {
      WrittenAt(levels, e, n - 1, i);
      SliceLeft(before, gap + directory, OffsetOf(levels, i), OffsetOf(levels, i) + 6 + 12 * |levels[i].fields|);
    } else {
      assert before + (gap + directory) == (before + gap) + directory;
      SliceRight(before + gap, directory);
    }
  }

  lemma {:induction false} WrittenHeader(levels: seq<Level>, e: Endian, n: nat)
    requires Writable(levels) && n <= |levels|
    ensures |Written(levels, e, n)| >= 8 && Written(levels, e, n)[..8] == Written(levels, e, 0)
  {
    hide Put16;
    hide Put32;
    hide EndOf;
    hide NextOf;
    hide DirectoryBytes;
    EndsGrow(levels, 0, n);
    if n > 0 {
      WrittenHeader(levels, e, n - 1);
      EndsGrow(levels, 0, n - 1);
      assert Written(levels, e, n)[..8] == Written(levels, e, n - 1)[..8];
    }
  }

  lemma HeaderParts(levels: seq<Level>, e: Endian)
    requires Writable(levels)
    ensures NextOf(levels, 0) < 0x1_0000_0000
    ensures var h := Written(levels, e, 0);
            && h[0..2] == (if e.Little? then [0x49, 0x49] else [0x4D, 0x4D])
            && h[2..4] == Put16(42, e) && h[4..8] == Put32(NextOf(levels, 0), e)
  {
    hide Put16;
    hide Put32;
    NextFits(levels, 0);
  }

  lemma BuiltHeader(levels: seq<Level>, e: Endian)
    requires Writable(levels)
    ensures ReadHeader(Build(levels, e)) == Start(e, NextOf(levels, 0))
  {
    hide Put16;
    hide Put32;
    hide Written;
    hide U16;
    hide U32;
    hide NextOf;
    var b, header := Build(levels, e), Written(levels, e, 0);
    WrittenHeader(levels, e, |levels|);
    HeaderParts(levels, e);
    assert b[0..8] == header;
    PartOf(b, 0, header, 0, 2);
    assert b[..2] == b[0..2] == if e.Little? then [0x49, 0x49] else [0x4D, 0x4D];
    PartOf(b, 0, header, 2, 4);
    Got16(b, 2, 42, e);
    PartOf(b, 0, header, 4, 8);
    Got32(b, 4, NextOf(levels, 0), e);
    Markers(b);
  }

  lemma Markers(b: seq<Byte>)
    requires |b| >= 2
    ensures b[..2] == [0x4D, 0x4D] ==> b[..2] != [0x49, 0x49]
  {
    if b[..2] == [0x4D, 0x4D] {
      assert b[..2][0] == 0x4D;
    }
  }

  function Offsets(levels: seq<Level>): seq<nat> {
    seq(|levels|, i requires 0 <= i < |levels| => OffsetOf(levels, i))
  }

  function Directories(levels: seq<Level>): seq<seq<Field>> {
    seq(|levels|, i requires 0 <= i < |levels| => levels[i].fields)
  }

  lemma BuiltLinked(levels: seq<Level>, e: Endian)
    requires Writable(levels)
    ensures Linked(Build(levels, e), e, Offsets(levels), Directories(levels), 0)
    ensures PlaceOf(Offsets(levels), 0, 0) == NextOf(levels, 0)
  {
    hide HasDirectory;
    hide Build;
    hide OffsetOf;
    forall i | 0 <= i < |levels|
      ensures OffsetOf(levels, i) != 0
      ensures HasDirectory(Build(levels, e), e, OffsetOf(levels, i), levels[i].fields, NextOf(levels, i + 1))
    {
      BuiltAt(levels, e, i);
    }
  }

  lemma BuiltAt(levels: seq<Level>, e: Endian, i: nat)
    requires Writable(levels) && i < |levels|
    ensures OffsetOf(levels, i) != 0
    ensures HasDirectory(Build(levels, e), e, OffsetOf(levels, i), levels[i].fields, NextOf(levels, i + 1))
  {
    hide HasDirectory;
    hide Written;
    EndsGrow(levels, 0, i);
    WrittenAt(levels, e, |levels|, i);
  }

  /**
   * Round trip: parsing a written file gives back exactly the sizes its directories state, in
   * order: in both byte orders, with any other entries around the two dimensions and any
   * bytes between the directories.
   */
  lemma ReadsWhatWasWritten(levels: seq<Level>, e: Endian, r: Parsed)
    requires Writable(levels)
    ensures var b := Build(levels, e);
            && ReadHeader(b) == Start(e, NextOf(levels, 0)) && Acyclic(b, e, NextOf(levels, 0))
            && (Reads(b, r) <==> r == Ok(SizesIn(Directories(levels), |levels|)))
  {
    hide Build;
    hide ReadsChain;
    hide Linked;
    hide NextOf;
    BuiltHeader(levels, e);
    BuiltLinked(levels, e);
    ReadsLinked(Build(levels, e), e, Offsets(levels), Directories(levels), 0, if r.Ok? then r.sizes else []);
  }

  // -- the header, byte by byte -------------------------------------------------------------------

  /** The two byte-order markers and the version decide; the numbers are weighed byte by byte. */
  lemma HeaderBytes(b: seq<Byte>)
    ensures var marked := |b| >= 8 && ((b[0] == 0x49 && b[1] == 0x49) || (b[0] == 0x4D && b[1] == 0x4D));
            && (ReadHeader(b) == NoMarker <==> !marked)
            && (marked ==>
                  var little := b[0] == 0x49;
                  var v0: int, v1: int, o0: int, o1: int, o2: int, o3: int := b[2], b[3], b[4], b[5], b[6], b[7];
                  var version: nat := if little then v0 + 256 * v1 else 256 * v0 + v1;
                  var offset: nat := if little then o0 + 256 * o1 + 0x1_0000 * o2 + 0x100_0000 * o3
                                     else 0x100_0000 * o0 + 0x1_0000 * o1 + 256 * o2 + o3;
                  ReadHeader(b) == if version == 42 then Start(if little then Little else Big, offset) else Unsupported(version))
  {
    if |b| >= 8 {
      assert b[..2] == [b[0], b[1]];
    }
  }
}
