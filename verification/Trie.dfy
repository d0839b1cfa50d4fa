/** The trie that maps a chain's indices to its entries
    (fuzzy_log_server/src/trie.rs), used append-only: appending goes through
    shortcuts into the last segment of each level, lookup walks from the root. */
module Tries {
  import opened RadixLevels
  import opened RadixArena
  import opened Options

  const ROOT_SLOTS: nat := 16
  /** Indices use at most four of the root's slots. */
  const MAX_ENTRIES: nat := 0x4000_0000_0000_0000

  /** The root's index needs no mask for 64-bit keys, and entries use four slots. */
  lemma RootSlot(k: nat)
    requires k <= 0xFFFF_FFFF_FFFF_FFFF
    ensures k / Span(1) % 1024 == k / Span(1) < ROOT_SLOTS
    ensures k < MAX_ENTRIES ==> k / Span(1) < 4
  {
  }

  // ---------------------------------------------------------------------------
  // When a shortcut is used up

  /** A level's shortcut is used up exactly when the number of segments below it,
      of which the last may be partly filled, is a multiple of 1024. */
  ghost predicate UsedUp(d: nat, n: nat)
    requires 1 <= d <= 6
  {
    Count(d + 1, n) == 1024 * Count(d, n)
  }

  lemma UsedUpExactly(d: nat, n: nat)
    requires 1 <= d <= 6
    ensures UsedUp(d, n) <==> Count(d + 1, n) % 1024 == 0
    ensures Aligned(d, n) ==> UsedUp(d, n)
    ensures Aligned(d + 1, n) ==> (UsedUp(d, n) <==> Aligned(d, n))
  {
    CountGrows(d, n);
    CountGrows(d + 1, n);
  }

  /** Alignment alone does not decide it above level 6: with 2^20 - 5 entries the
      shortcut of level 5 is used up while its last segment is still filling. */
  lemma UsedUpUnaligned()
    ensures UsedUp(5, 0xF_FFFB) && 0xF_FFFB % Span(5) != 0
  {
  }

  // ---------------------------------------------------------------------------

  class Trie<V> {
    var root: seq<Edge<V>>
    var segs: seq<seq<Edge<V>>>
    var short: seq<Shortcut>
    var nextEntry: nat
    ghost var ids: Ids
    ghost var entries: seq<V>

    ghost predicate ShapedAt(j: nat)
      reads this
    {
      |root| == ROOT_SLOTS && |entries| == nextEntry &&
      Shape(1, Midway(0, nextEntry, j), ids, entries, root, segs, short)
    }

    ghost predicate Valid()
      reads this
    {
      nextEntry <= MAX_ENTRIES && ShapedAt(0)
    }

    constructor ()
      ensures Valid() && entries == []
    {
      root, segs, nextEntry := seq(ROOT_SLOTS, _ => Null), [], 0;
      short := seq(7, _ => Shortcut(0, 1024));
      ids, entries := map[], [];
      new;
      forall d | 1 <= d <= 7 ensures Midway(0, 0, 0)[d] == 0 {
        NoKeys(d);
      }
    }

    /** Between appends, each level's shortcut is used up exactly as UsedUp says. */
    lemma ShortcutsExactly(d: nat)
      requires Valid() && 1 <= d <= 6
      ensures |short| == 7 && (CannotAppend(short[d]) <==> Count(d + 1, nextEntry) % 1024 == 0)
      ensures Aligned(d + 1, nextEntry) ==> (CannotAppend(short[d]) <==> Aligned(d, nextEntry))
    {
      hide Shape;
      ghost var c := Midway(0, nextEntry, 0);
      ExhaustedIffFull(1, c, ids, entries, root, segs, short, d);
      UsedUpExactly(d, nextEntry);
      Lengths(1, c, ids, entries, root, segs, short);
    }

    /** The first level of prep_append: a new segment below the root when the next
        entry is aligned. */
    method OpenRoot()
      requires nextEntry < MAX_ENTRIES && ShapedAt(0)
      modifies this`root, this`segs, this`short, this`ids
      ensures ShapedAt(1)
    {
      hide Shape, Midway, Span;
      ghost var n, c := nextEntry, Midway(0, nextEntry, 0);
      MidwayStep(0, n, 1);
      if nextEntry % Span(1) == 0 {
        RootSlot(n);
        MidwayRoom(0, n, 1);
        ExhaustedIffFull(1, c, ids, entries, root, segs, short, 1);
        Lengths(1, c, ids, entries, root, segs, short);
        assert CannotAppend(short[1]);
        var added, index := |segs|, nextEntry / Span(1) % 1024;
        assert index == c[1] && index < 4;
        OpenTop(1, c, ids, entries, root, segs, short);
        root := root[index := Ptr(added)];
        segs := segs + [EmptySegment()];
        short := short[1 := Shortcut(added, 0)];
        ids := ids[(1, c[1]) := added];
      }
    }

    /** The other levels: a new segment through the shortcut of the level above. */
    method OpenLevel(d: nat)
      requires 2 <= d <= 6 && ShapedAt(d - 1)
      modifies this`segs, this`short, this`ids
      ensures ShapedAt(d)
    {
      hide Shape, OpenedSegs, OpenedShort, Midway, Span;
      ghost var n, c := nextEntry, Midway(0, nextEntry, d - 1);
      MidwayStep(0, n, d);
      if nextEntry % Span(d) == 0 {
        OpenDue(1, 0, n, d, ids, entries, root, segs, short);
        assert CannotAppend(short[d]) && !CannotAppend(short[d - 1]);
        ids := ids[(d, c[d]) := |segs|];
        segs, short := OpenedSegs(segs, short[d - 1]), OpenedShort(short, d, |segs|);
      }
    }

    /** prep_append. */
    method PrepAppend(v: V) returns (index: nat)
      requires Valid() && nextEntry < MAX_ENTRIES
      modifies this
      ensures Valid() && index == old(nextEntry) && entries == old(entries) + [v]
    {
      hide Shape;
      index := nextEntry;
      OpenRoot();
      OpenLevel(2);
      OpenLevel(3);
      OpenLevel(4);
      OpenLevel(5);
      OpenLevel(6);
      Fill(v);
    }

    /** The value goes through the shortcut of level 6. */
    method Fill(v: V)
      requires nextEntry < MAX_ENTRIES && ShapedAt(6)
      modifies this
      ensures Valid() && nextEntry == old(nextEntry) + 1 && entries == old(entries) + [v]
    {
      hide Shape, Written, Midway;
      PutDue(1, 0, nextEntry, ids, entries, root, segs, short, v);
      nextEntry := nextEntry + 1;
      segs, short := Written(segs, short[6], Val(v)), short[6 := Shortcut(short[6].seg, short[6].pos + 1)];
      entries := entries + [v];
    }

    /** get: the six-level radix lookup. */
    method Get(k: nat) returns (v: Option<V>)
      requires Valid() && k <= 0xFFFF_FFFF_FFFF_FFFF
      ensures v == if k < |entries| then Some(entries[k]) else None
    {
      hide SegmentsOk, Named, ShortcutOk, CountsOk, Midway, Walk, Span;
      RootSlot(k);
      ghost var c, q := Midway(0, nextEntry, 0), Ordinal(1, k);
      OrdinalIsShift(1, k);
      Lengths(1, c, ids, entries, root, segs, short);
      NamedTop(c, ids, |segs|, q);
      var top := root[k / Span(1) % 1024];
      assert top == EdgeTo(c, ids, entries, 1, k);
      WalkFinds(1, c, ids, entries, segs, 1, k);
      match Walk(segs, top, 1, k)
      case Val(x) => return Some(x);
      case _ => return None;
    }

    static lemma NamedTop(c: seq<nat>, ids: Ids, bound: nat, q: nat)
      requires |c| == 8 && Named(1, c, ids, bound)
      ensures q < c[1] <==> (1, q) in ids
    {
    }
  }
}
