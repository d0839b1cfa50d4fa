/** The byte allocator behind the trie (fuzzy_log_server/src/byte_trie.rs): regions
    are cut one after the other out of blocks of 8192 bytes, and the blocks hang in
    a radix tree of five levels, the first of which always exists. Blocks are named
    in the order they are allocated; their bytes are not modelled. */
module ByteTries {
  import opened RadixLevels
  import opened RadixArena
  import opened Options

  const LEVEL_BYTES: nat := 8192
  /** Addresses use 63 bits. */
  const MAX_BYTES: nat := 0x8000_0000_0000_0000

  /** size bytes of a block, from an offset on. */
  datatype Slice = Slice(block: nat, offset: nat, size: nat)

  datatype Region = Region(loc: nat, size: nat)

  function RoundUpToNext(n: nat): (r: nat)
    ensures n <= r < n + LEVEL_BYTES && r % LEVEL_BYTES == 0
  {
    (n + LEVEL_BYTES - 1) / LEVEL_BYTES * LEVEL_BYTES
  }

  // ---------------------------------------------------------------------------
  // What the regions handed out satisfy

  ghost predicate Used(r: Region, bytes: nat) {
    r.size > 0 && r.loc + r.size <= bytes && r.loc / LEVEL_BYTES == (r.loc + r.size - 1) / LEVEL_BYTES
  }

  ghost predicate RegionsOk(regions: seq<Region>, bytes: nat) {
    && (forall i :: 0 <= i < |regions| ==> Used(regions[i], bytes))
    && (forall i, j :: 0 <= i < j < |regions| ==> regions[i].loc + regions[i].size <= regions[j].loc)
  }

  ghost function Total(regions: seq<Region>): nat {
    if regions == [] then 0 else Total(regions[..|regions| - 1]) + regions[|regions| - 1].size
  }

  /** Block b holds byte addresses from b * 8192 on. */
  ghost function Blocks(bytes: nat): nat {
    (bytes + LEVEL_BYTES - 1) / LEVEL_BYTES
  }

  /** No bytes are left in the current block. */
  predicate CannotTake(s: Shortcut) {
    s.pos == LEVEL_BYTES
  }

  /** Something is asked for, or the current block is not used up. */
  predicate Sensible(bytes: nat, size: nat) {
    size > 0 || bytes % LEVEL_BYTES != 0
  }

  const WORD: nat := 0x1_0000_0000_0000_0000

  /** The last byte of a region, in 64 bits. */
  function EndByte(bytes: nat, size: nat): nat {
    (bytes + size + WORD - 1) % WORD
  }

  /** The subtraction goes below zero exactly for nothing at address zero; the region
      then counts as not straddling, as it should. */
  lemma EndByteExact(bytes: nat, size: nat)
    requires bytes + size <= MAX_BYTES + LEVEL_BYTES
    ensures EndByte(bytes, size) == bytes + size - 1 <==> bytes + size > 0
    ensures size > 1 && bytes / LEVEL_BYTES != EndByte(bytes, size) / LEVEL_BYTES <==> Straddles(bytes, size)
  {
  }

  predicate Straddles(bytes: nat, size: nat) {
    size > 1 && bytes / LEVEL_BYTES != (bytes + size - 1) / LEVEL_BYTES
  }

  /** Where a region goes: here, or at the next block when it would straddle two. */
  function StartOf(bytes: nat, size: nat): nat {
    if Straddles(bytes, size) then RoundUpToNext(bytes) else bytes
  }

  /** Padding is shorter than the region it makes room for, and afterwards the
      region fits its block. */
  lemma StartFits(bytes: nat, size: nat)
    requires size <= LEVEL_BYTES
    ensures size == 0 ==> !Straddles(bytes, size) && StartOf(bytes, size) == bytes
    ensures bytes <= StartOf(bytes, size) <= RoundUpToNext(bytes) && (size > 0 ==> StartOf(bytes, size) < bytes + size)
    ensures size > 0 ==> StartOf(bytes, size) / LEVEL_BYTES == (StartOf(bytes, size) + size - 1) / LEVEL_BYTES
    ensures StartOf(bytes, size) % LEVEL_BYTES + size <= LEVEL_BYTES
    ensures Sensible(StartOf(bytes, size), size) <==> Sensible(bytes, size)
    ensures Straddles(bytes, size) ==>
      bytes < RoundUpToNext(bytes) && StartOf(bytes, RoundUpToNext(bytes) - bytes) == bytes
  {
  }

  /** Adding one more region keeps all of them apart, and padding below half. */
  lemma OneMore(regions: seq<Region>, bytes: nat, size: nat)
    requires RegionsOk(regions, bytes) && 0 < size <= LEVEL_BYTES
    requires if regions == [] then bytes == 0 else bytes < 2 * Total(regions)
    ensures var loc := StartOf(bytes, size);
      var regions' := regions + [Region(loc, size)];
      RegionsOk(regions', loc + size) && loc + size < 2 * Total(regions')
  {
    StartFits(bytes, size);
    var loc := StartOf(bytes, size);
    var regions' := regions + [Region(loc, size)];
    assert regions'[..|regions|] == regions;
    forall i | 0 <= i < |regions| ensures Used(regions'[i], loc + size) {
      assert Used(regions[i], bytes);
    }
  }

  /** The bytes used and the regions handed out by a whole run of appends. */
  function UsedBy(sizes: seq<nat>): nat {
    if sizes == [] then 0
    else
      var size := sizes[|sizes| - 1];
      StartOf(UsedBy(sizes[..|sizes| - 1]), size) + size
  }

  ghost function LaidOut(sizes: seq<nat>): seq<Region> {
    if sizes == [] then []
    else
      var size := sizes[|sizes| - 1];
      LaidOut(sizes[..|sizes| - 1]) + [Region(StartOf(UsedBy(sizes[..|sizes| - 1]), size), size)]
  }

  /** Whatever the sizes, the regions are disjoint, each lies within one block, and
      the bytes used stay below twice the bytes asked for. */
  lemma {:induction false} EveryRun(sizes: seq<nat>)
    requires forall i :: 0 <= i < |sizes| ==> 0 < sizes[i] <= LEVEL_BYTES
    ensures |LaidOut(sizes)| == |sizes| && forall i :: 0 <= i < |sizes| ==> LaidOut(sizes)[i].size == sizes[i]
    ensures RegionsOk(LaidOut(sizes), UsedBy(sizes))
    ensures if sizes == [] then UsedBy(sizes) == 0 else UsedBy(sizes) < 2 * Total(LaidOut(sizes))
  {
    hide StartOf, RegionsOk, Total;
    if sizes == [] {
      NoRegions();
    } else {
      EveryRun(sizes[..|sizes| - 1]);
      OneMore(LaidOut(sizes[..|sizes| - 1]), UsedBy(sizes[..|sizes| - 1]), sizes[|sizes| - 1]);
    }
  }

  lemma NoRegions()
    ensures RegionsOk([], 0)
  {
  }

  predicate Even(n: nat) {
    n % 2 == 0
  }

  lemma EvenSum(a: nat, b: nat)
    requires Even(a) && Even(b)
    ensures Even(a + b)
  {
  }

  /** Even sizes give even locations, so the low bit of an address is free. */
  lemma {:induction false} EvenRun(sizes: seq<nat>)
    requires forall i :: 0 <= i < |sizes| ==> 0 < sizes[i] <= LEVEL_BYTES && Even(sizes[i])
    ensures Even(UsedBy(sizes))
    ensures forall i :: 0 <= i < |LaidOut(sizes)| ==> Even(LaidOut(sizes)[i].loc)
  {
    hide StartOf, Even;
    if sizes == [] {
      EvenZero();
    } else {
      var before, size := UsedBy(sizes[..|sizes| - 1]), sizes[|sizes| - 1];
      EvenRun(sizes[..|sizes| - 1]);
      EvenStart(before, size);
      EvenSum(StartOf(before, size), size);
    }
  }

  lemma EvenZero()
    ensures Even(0)
  {
  }

  lemma EvenStart(bytes: nat, size: nat)
    requires Even(bytes)
    ensures Even(StartOf(bytes, size))
  {
    EvenOffset(RoundUpToNext(bytes));
  }

  lemma EvenOffset(n: nat)
    ensures Even(n % LEVEL_BYTES) <==> Even(n)
  {
  }

  class ByteTrie {
    var storedBytes: nat
    var storageVal: Shortcut
    var short: seq<Shortcut>
    var root: seq<Edge<nat>>
    var segs: seq<seq<Edge<nat>>>
    var nextBlock: nat
    ghost var ids: Ids
    ghost var blocks: seq<nat>
    ghost var regions: seq<Region>

    ghost predicate ShapedAt(j: nat)
      reads this
    {
      |root| == 1 && Shape(2, Midway(2, |blocks|, j), ids, blocks, root, segs, short)
    }

    /** The current block and the bytes left in it. */
    ghost predicate InBlock()
      reads this
    {
      && storageVal.pos <= LEVEL_BYTES
      && (storedBytes % LEVEL_BYTES == 0 <==> storageVal.pos == LEVEL_BYTES)
      && (storedBytes % LEVEL_BYTES != 0 ==>
            |blocks| > 0 && storageVal == Shortcut(blocks[|blocks| - 1], storedBytes % LEVEL_BYTES))
    }

    ghost predicate Valid()
      reads this
    {
      && storedBytes <= MAX_BYTES && |blocks| == Blocks(storedBytes) && nextBlock == |blocks|
      && (forall b :: 0 <= b < |blocks| ==> blocks[b] == b)
      && ShapedAt(2) && InBlock()
    }

    /** The regions handed out lie apart, each within a block, and take up more
        than half of the bytes used. */
    ghost predicate Sound()
      reads this
    {
      RegionsOk(regions, storedBytes) && if regions == [] then storedBytes == 0 else storedBytes < 2 * Total(regions)
    }

    constructor ()
      ensures Valid() && Sound() && storedBytes == 0 && regions == []
    {
      storedBytes, storageVal, nextBlock := 0, Shortcut(0, LEVEL_BYTES), 0;
      root, segs := [Ptr(0)], [EmptySegment()];
      short := seq(7, _ => Shortcut(0, 1024))[2 := Shortcut(0, 0)];
      ids, blocks, regions := map[(2, 0) := 0], [], [];
      new;
      forall d | 3 <= d <= 7 ensures Midway(2, 0, 2)[d] == 0 {
        NoKeys(d);
      }
      InitShape(Midway(2, 0, 2), ids, root, segs, short);
    }

    static lemma InitShape(c: seq<nat>, ids: Ids, root: seq<Edge<nat>>, segs: seq<seq<Edge<nat>>>, short: seq<Shortcut>)
      requires |c| == 8 && c[2] == 1 && forall d :: 3 <= d <= 7 ==> c[d] == 0
      requires ids == map[(2, 0) := 0] && root == [Ptr(0)] && |segs| == 1
      requires |segs[0]| == 1024 && forall i: nat :: i < 1024 ==> segs[0][i] == Null
      requires |short| == 7 && short[2] == Shortcut(0, 0) && forall d :: 3 <= d <= 6 ==> short[d] == Shortcut(0, 1024)
      ensures Shape(2, c, ids, [], root, segs, short)
    {
      hide SegmentOk;
      assert Named(2, c, ids, 1);
      InitSegment(c, ids, segs[0]);
    }

    static lemma InitSegment(c: seq<nat>, ids: Ids, seg: seq<Edge<nat>>)
      requires |c| == 8 && c[3] == 0 && |seg| == 1024 && forall i: nat :: i < 1024 ==> seg[i] == Null
      ensures SegmentOk(c, ids, [], seg, 2, 0)
    {
    }

    /** One level: a new segment through the shortcut above when the start of the
        region is aligned to it. */
    method OpenLevel(start: nat, d: nat)
      requires 3 <= d <= 6 && ShapedAt(d - 1) && |blocks| < MAX_BYTES / LEVEL_BYTES
      requires start == LEVEL_BYTES * |blocks|
      modifies this`segs, this`short, this`ids
      ensures ShapedAt(d)
    {
      hide Shape, OpenedSegs, OpenedShort, Midway, Span;
      ghost var n, c := |blocks|, Midway(2, |blocks|, d - 1);
      MidwayStep(2, n, d);
      MaskSplits(start, n, Span(d));
      if start % (LEVEL_BYTES * Span(d)) == 0 {
        FirstRoom(n);
        OpenDue(2, 2, n, d, ids, blocks, root, segs, short);
        assert CannotAppend(short[d]) && !CannotAppend(short[d - 1]);
        ids := ids[(d, c[d]) := |segs|];
        segs, short := OpenedSegs(segs, short[d - 1]), OpenedShort(short, d, |segs|);
      }
    }

    /** The first level's one segment is enough for all addresses. */
    static lemma FirstRoom(n: nat)
      requires n < MAX_BYTES / LEVEL_BYTES
      ensures n / Span(3) < 1024
    {
    }

    static lemma MaskSplits(start: nat, n: nat, s: nat)
      requires s > 0 && start == LEVEL_BYTES * n
      ensures LEVEL_BYTES * s > 0
      ensures start % (LEVEL_BYTES * s) == 0 <==> n % s == 0
    {
      ShiftMore(start, LEVEL_BYTES, s);
      assert s * LEVEL_BYTES == LEVEL_BYTES * s;
      assert start / LEVEL_BYTES == n && start % LEVEL_BYTES == 0;
    }

    /** A new block, of which the first size bytes are taken. */
    method NewBlock(size: nat) returns (s: Slice)
      requires ShapedAt(6) && |blocks| < MAX_BYTES / LEVEL_BYTES && nextBlock == |blocks| && size <= LEVEL_BYTES
      requires forall b :: 0 <= b < |blocks| ==> blocks[b] == b
      modifies this`segs, this`short, this`blocks, this`storageVal, this`nextBlock
      ensures blocks == old(blocks) + [|old(blocks)|] && nextBlock == |blocks| && ShapedAt(2)
      ensures s == Slice(|old(blocks)|, 0, size) && storageVal == Shortcut(|old(blocks)|, size)
    {
      hide Shape, Written, Midway;
      PutDue(2, 2, |blocks|, ids, blocks, root, segs, short, nextBlock);
      segs, short := Written(segs, short[6], Val(nextBlock)), short[6 := Shortcut(short[6].seg, short[6].pos + 1)];
      s, storageVal := Slice(nextBlock, 0, size), Shortcut(nextBlock, size);
      blocks := blocks + [nextBlock];
      nextBlock := nextBlock + 1;
    }

    /** append. A region that would straddle two blocks is put at the start of the
        next one, after a padding region that fills the current block. Asking for
        nothing between two blocks takes a block all the same, and the allocator is
        broken: its next append finds that block unused and takes another. Where the
        last byte's address overflows, a build that checks arithmetic stops. */
    method Append(size: nat) returns (s: Slice, loc: nat, overflow: bool)
      requires Valid() && size <= LEVEL_BYTES && RoundUpToNext(storedBytes) + size <= MAX_BYTES
      requires storedBytes < MAX_BYTES
      modifies this
      ensures overflow <==> old(storedBytes) == 0 && size == 0
      ensures Valid() <==> Sensible(old(storedBytes), size)
      ensures loc == StartOf(old(storedBytes), size) && storedBytes == loc + size
      ensures s == Slice(loc / LEVEL_BYTES, loc % LEVEL_BYTES, size) && s.offset + s.size <= LEVEL_BYTES
      ensures regions == old(regions) + if size == 0 then [] else [Region(loc, size)]
      ensures old(Sound()) ==> Sound()
      ensures !Sensible(old(storedBytes), size) ==> storedBytes % LEVEL_BYTES == 0 && !CannotTake(storageVal)
      decreases size
    {
      hide Shape, RegionsOk, Midway, Straddles, RoundUpToNext, Total, Blocks, EndByte;
      ghost var was, sound := regions, Sound();
      StartFits(storedBytes, size);
      if sound && size > 0 {
        OneMore(regions, storedBytes, size);
      }
      loc := storedBytes;
      EndByteExact(loc, size);
      var end := EndByte(loc, size);
      overflow := end != loc + size - 1;
      if size > 1 && loc / LEVEL_BYTES != end / LEVEL_BYTES {
        var next := RoundUpToNext(loc);
        var pad, at, _ := Append(next - loc);
        regions := was;
        loc := next;
      }
      s := Take(loc, size);
      regions := regions + if size == 0 then [] else [Region(loc, size)];
      assert size == 0 ==> regions == was;
    }

    /** The rest of append: open what the start is aligned to. A start that is not
        at a block boundary is aligned to no level. */
    method Take(start: nat, size: nat) returns (s: Slice)
      requires Valid() && start == storedBytes && start + size <= MAX_BYTES && start < MAX_BYTES
      requires start % LEVEL_BYTES + size <= LEVEL_BYTES
      modifies this`segs, this`short, this`blocks, this`storageVal, this`nextBlock, this`ids, this`storedBytes
      ensures Valid() <==> Sensible(start, size)
      ensures storedBytes == start + size && s == Slice(start / LEVEL_BYTES, start % LEVEL_BYTES, size)
      ensures !Sensible(start, size) ==> !CannotTake(storageVal)
    {
      hide Shape, Midway, Blocks;
      BlocksAfter(start, size);
      if start % LEVEL_BYTES == 0 {
        s := TakeNew(start, size);
      } else {
        storedBytes := storedBytes + size;
        s := Slice(storageVal.seg, storageVal.pos, size);
        storageVal := Shortcut(storageVal.seg, storageVal.pos + size);
      }
    }

    /** At a block boundary: open every level that is due, and a block. */
    method TakeNew(start: nat, size: nat) returns (s: Slice)
      requires Valid() && start == storedBytes && start + size <= MAX_BYTES && start < MAX_BYTES
      requires start % LEVEL_BYTES == 0 && size <= LEVEL_BYTES
      modifies this`segs, this`short, this`blocks, this`storageVal, this`nextBlock, this`ids, this`storedBytes
      ensures Valid() <==> size > 0
      ensures storedBytes == start + size && s == Slice(start / LEVEL_BYTES, 0, size)
      ensures size == 0 ==> !CannotTake(storageVal)
    {
      hide Shape, Midway, Blocks;
      BlocksAfter(start, size);
      assert CannotTake(storageVal);
      OpenLevel(start, 3);
      OpenLevel(start, 4);
      OpenLevel(start, 5);
      OpenLevel(start, 6);
      storedBytes := storedBytes + size;
      s := NewBlock(size);
    }

    static lemma BlocksAfter(start: nat, size: nat)
      requires start % LEVEL_BYTES + size <= LEVEL_BYTES
      ensures size > 0 ==> Blocks(start + size) == start / LEVEL_BYTES + 1
      ensures Blocks(start) == if start % LEVEL_BYTES == 0 then start / LEVEL_BYTES else start / LEVEL_BYTES + 1
      ensures (start + size) % LEVEL_BYTES ==
        if start % LEVEL_BYTES + size == LEVEL_BYTES then 0 else start % LEVEL_BYTES + size
    {
    }

    /** get: walk to the block and cut the slice. */
    method Get(loc: nat, size: nat) returns (s: Option<Slice>)
      requires Valid() && loc < MAX_BYTES && loc % LEVEL_BYTES + size <= LEVEL_BYTES
      ensures s == if loc / LEVEL_BYTES < Blocks(storedBytes)
                   then Some(Slice(loc / LEVEL_BYTES, loc % LEVEL_BYTES, size)) else None
    {
      hide SegmentsOk, Named, ShortcutOk, CountsOk, Midway, Walk;
      ghost var c, k := Midway(2, |blocks|, 2), loc / LEVEL_BYTES;
      Lengths(2, c, ids, blocks, root, segs, short);
      OneRoot(c, ids, |segs|, k);
      assert root[0] == EdgeTo(c, ids, blocks, 2, k);
      WalkFinds(2, c, ids, blocks, segs, 2, k);
      match Walk(segs, root[0], 2, loc / LEVEL_BYTES)
      case Val(block) => return Some(Slice(block, loc % LEVEL_BYTES, size));
      case _ => return None;
    }

    static lemma OneRoot(c: seq<nat>, ids: Ids, bound: nat, k: nat)
      requires |c| == 8 && c[2] == 1 && Named(2, c, ids, bound) && k < MAX_BYTES / LEVEL_BYTES
      ensures Ordinal(2, k) == 0 && (2, 0) in ids
    {
      OrdinalIsShift(2, k);
    }
  }

  // ---------------------------------------------------------------------------
  // Reserving space for an entry (AllocPtr in fuzzy_log_server/src/trie.rs)

  const MAX_IN_BLOCK_SIZE: nat := 4096
  /** The location of storage outside the blocks. */
  const BOXED: nat := 0xFFFF_FFFF_FFFF_FFFF

  datatype Place = InBlock(slice: Slice) | Boxed(size: nat)

  /** An address whose low bit marks what has to be freed later: a block, by its
      first region, or a box. */
  datatype ValEdge = ValEdge(place: Place, end: bool)

  class AllocPtr {
    const alloc: ByteTrie

    constructor ()
      ensures alloc.Valid() && alloc.Sound() && alloc.storedBytes == 0 && fresh(alloc)
    {
      alloc := new ByteTrie();
    }

    method ReserveSpace(size: nat) returns (edge: ValEdge, loc: nat, overflow: bool)
      requires alloc.Valid() && Even(alloc.storedBytes)
      requires RoundUpToNext(alloc.storedBytes) + MAX_IN_BLOCK_SIZE <= MAX_BYTES
      modifies alloc
      ensures overflow <==> old(alloc.storedBytes) == 0 && size == 0
      ensures alloc.Valid() <==> Sensible(old(alloc.storedBytes), size)
      ensures Even(alloc.storedBytes) && (old(alloc.Sound()) ==> alloc.Sound())
      ensures edge.end <==> loc == BOXED || loc % LEVEL_BYTES == 0
      ensures size > MAX_IN_BLOCK_SIZE ==> loc == BOXED && edge.place == Boxed(RoundEven(size)) && unchanged(alloc)
      ensures size <= MAX_IN_BLOCK_SIZE ==>
        && edge.place == InBlock(Slice(loc / LEVEL_BYTES, loc % LEVEL_BYTES, RoundEven(size)))
        && loc < MAX_BYTES && Even(loc) && Even(edge.place.slice.offset)
        && alloc.regions == old(alloc.regions) + if size == 0 then [] else [Region(loc, RoundEven(size))]
    {
      hide StartOf, Straddles, RegionsOk, Total, Shape, Midway, Blocks, Even, RoundUpToNext, RoundEven;
      var rounded := RoundEven(size);
      RoundedEven(size);
      if rounded <= MAX_IN_BLOCK_SIZE {
        EvenStart(alloc.storedBytes, rounded);
        StartFits(alloc.storedBytes, rounded);
        var slice;
        slice, loc, overflow := alloc.Append(rounded);
        EvenSum(loc, rounded);
        EvenOffset(loc);
        edge := ValEdge(InBlock(slice), loc % LEVEL_BYTES == 0);
      } else {
        edge, loc, overflow := ValEdge(Boxed(rounded), true), BOXED, false;
      }
    }
  }

  function RoundEven(size: nat): nat {
    if size % 2 != 0 then size + 1 else size
  }

  lemma RoundedEven(size: nat)
    ensures Even(RoundEven(size)) && size <= RoundEven(size) <= size + 1 && (RoundEven(size) == 0 <==> size == 0)
    ensures size <= MAX_IN_BLOCK_SIZE <==> RoundEven(size) <= MAX_IN_BLOCK_SIZE
  {
  }

  /** Nothing asked for when the first block is full: the allocator has hung up a
      second block, and the assertion of the next append fails on it. */
  method NothingAtBlockEnd() returns (trie: ByteTrie)
    ensures !trie.Valid() && trie.storedBytes == LEVEL_BYTES && !CannotTake(trie.storageVal)
  {
    hide Shape, Midway, RegionsOk, Total, Blocks;
    trie := new ByteTrie();
    assert StartOf(0, LEVEL_BYTES) == 0 && RoundUpToNext(0) == 0;
    var s, loc, overflow := trie.Append(LEVEL_BYTES);
    assert StartOf(LEVEL_BYTES, 0) == LEVEL_BYTES && RoundUpToNext(LEVEL_BYTES) == LEVEL_BYTES;
    s, loc, overflow := trie.Append(0);
  }
}
