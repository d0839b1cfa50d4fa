/** Segments of 1024 slots that hang below a root, with one shortcut per level
    into its last segment (fuzzy_log_server/src/trie.rs and byte_trie.rs). A
    segment is named by its position in the list of allocations; a shortcut is the
    part of a segment from a position on. Levels run from top down to 6, and level
    d's slots hold the segments of level d + 1, or the values below level 6. */
module RadixArena {
  import opened RadixLevels

  datatype Edge<+V> = Null | Ptr(seg: nat) | Val(value: V)

  datatype Shortcut = Shortcut(seg: nat, pos: nat)

  /** An empty slice: no segment yet, or none of its slots left. */
  predicate CannotAppend(s: Shortcut) {
    s.pos == 1024
  }

  function EmptySegment<V>(): seq<Edge<V>> {
    seq(1024, _ => Null)
  }

  /** The lookup below an edge: one index per level. */
  function Walk<V>(segs: seq<seq<Edge<V>>>, edge: Edge<V>, d: nat, k: nat): Edge<V>
    requires 1 <= d <= 7 && forall s :: 0 <= s < |segs| ==> |segs[s]| == 1024
    decreases 7 - d
  {
    if d == 7 then edge
    else if edge.Ptr? && edge.seg < |segs| then Walk(segs, segs[edge.seg][LevelIndex(d, k)], d + 1, k)
    else Null
  }

  // ---------------------------------------------------------------------------
  // Shape: c[d] segments at level d, named by ids, holding vals

  type Ids = map<(nat, nat), nat>

  /** Every level's segments are full except perhaps its last. */
  ghost predicate CountsOk(top: nat, c: seq<nat>) {
    |c| == 8 && 1 <= top <= 6 && forall d :: top <= d <= 6 ==>
      c[d + 1] <= 1024 * c[d] && (c[d] > 0 ==> 1024 * (c[d] - 1) <= c[d + 1])
  }

  /** What the m-th slot of level d, counted through all its segments, holds. */
  ghost function Slot<V>(c: seq<nat>, ids: Ids, vals: seq<V>, d: nat, m: nat): Edge<V>
    requires |c| == 8 && d <= 6
  {
    if m >= c[d + 1] then Null
    else if d == 6 then if m < |vals| then Val(vals[m]) else Null
    else if (d + 1, m) in ids then Ptr(ids[(d + 1, m)]) else Null
  }

  /** The slot at position i of segment q. */
  ghost function SlotAt<V>(c: seq<nat>, ids: Ids, vals: seq<V>, d: nat, q: nat, i: nat): Edge<V>
    requires |c| == 8 && d <= 6
  {
    Slot(c, ids, vals, d, q * 1024 + i)
  }

  ghost predicate Named(top: nat, c: seq<nat>, ids: Ids, bound: nat)
    requires |c| == 8
  {
    && (forall d: nat, q: nat :: top <= d <= 6 && q < c[d] ==> (d, q) in ids && ids[(d, q)] < bound)
    && (forall x, y :: x in ids && y in ids && ids[x] == ids[y] ==> x == y)
    && (forall d: nat, q: nat :: (d, q) in ids ==> top <= d <= 6 && q < c[d])
  }

  ghost predicate SegmentOk<V>(c: seq<nat>, ids: Ids, vals: seq<V>, seg: seq<Edge<V>>, d: nat, q: nat)
    requires |c| == 8 && d <= 6
  {
    |seg| == 1024 && forall i: nat :: i < 1024 ==> seg[i] == SlotAt(c, ids, vals, d, q, i)
  }

  ghost predicate SegmentsOk<V>(top: nat, c: seq<nat>, ids: Ids, vals: seq<V>, segs: seq<seq<Edge<V>>>)
    requires |c| == 8 && Named(top, c, ids, |segs|)
  {
    && (forall s :: 0 <= s < |segs| ==> |segs[s]| == 1024)
    && (forall d: nat, q: nat :: top <= d <= 6 && q < c[d] ==> SegmentOk(c, ids, vals, segs[ids[(d, q)]], d, q))
  }

  ghost predicate RootOk<V>(top: nat, c: seq<nat>, ids: Ids, root: seq<Edge<V>>)
    requires |c| == 8 && 1 <= top <= 6
  {
    c[top] <= |root| && forall q: nat :: q < |root| ==>
      root[q] == if q < c[top] && (top, q) in ids then Ptr(ids[(top, q)]) else Null
  }

  ghost predicate ShortcutOk(c: seq<nat>, ids: Ids, s: Shortcut, d: nat)
    requires |c| == 8 && d <= 6
  {
    if c[d] == 0 then CannotAppend(s)
    else (d, c[d] - 1) in ids && s.seg == ids[(d, c[d] - 1)] && s.pos + 1024 * (c[d] - 1) == c[d + 1]
  }

  ghost predicate Shape<V>(top: nat, c: seq<nat>, ids: Ids, vals: seq<V>, root: seq<Edge<V>>, segs: seq<seq<Edge<V>>>,
                           short: seq<Shortcut>)
  {
    && |c| == 8 && 1 <= top <= 6 && CountsOk(top, c) && |vals| == c[7] && |short| == 7
    && Named(top, c, ids, |segs|)
    && SegmentsOk(top, c, ids, vals, segs)
    && RootOk(top, c, ids, root)
    && (forall d :: top <= d <= 6 ==> ShortcutOk(c, ids, short[d], d))
  }

  /** A shortcut is used up exactly when all its level's segments are full. */
  lemma ExhaustedIffFull<V>(top: nat, c: seq<nat>, ids: Ids, vals: seq<V>, root: seq<Edge<V>>, segs: seq<seq<Edge<V>>>,
                            short: seq<Shortcut>, d: nat)
    requires Shape(top, c, ids, vals, root, segs, short) && top <= d <= 6
    ensures CannotAppend(short[d]) <==> c[d + 1] == 1024 * c[d]
    ensures short[d].pos <= 1024
    ensures c[d] > 0 ==> short[d].seg < |segs|
  {
  }

  // ---------------------------------------------------------------------------
  // Growing

  /** Shortcut::append: write the first slot of the slice; the shortcut then moves
      past it. */
  function Written<V>(segs: seq<seq<Edge<V>>>, s: Shortcut, e: Edge<V>): seq<seq<Edge<V>>>
    requires s.seg < |segs| && s.pos < |segs[s.seg]|
  {
    segs[s.seg := segs[s.seg][s.pos := e]]
  }

  /** Level d is full, level d - 1 is not, and parent is where it goes on. */
  ghost predicate Ready<V>(top: nat, c: seq<nat>, ids: Ids, vals: seq<V>, segs: seq<seq<Edge<V>>>, parent: Shortcut,
                           d: nat)
  {
    && CountsOk(top, c) && |vals| == c[7] && Named(top, c, ids, |segs|) && SegmentsOk(top, c, ids, vals, segs)
    && top < d <= 6 && c[d + 1] == 1024 * c[d] && c[d] < 1024 * c[d - 1]
    && ShortcutOk(c, ids, parent, d - 1)
  }

  lemma ReadyParent<V>(top: nat, c: seq<nat>, ids: Ids, vals: seq<V>, segs: seq<seq<Edge<V>>>, parent: Shortcut, d: nat)
    requires Ready(top, c, ids, vals, segs, parent, d)
    ensures parent.seg < |segs| && |segs[parent.seg]| == 1024 && parent.pos < 1024
    ensures (d - 1, c[d - 1] - 1) in ids && ids[(d - 1, c[d - 1] - 1)] == parent.seg
    ensures SegmentOk(c, ids, vals, segs[parent.seg], d - 1, c[d - 1] - 1)
    ensures (c[d - 1] - 1) * 1024 + parent.pos == c[d]
    ensures (d, c[d]) !in ids
  {
  }

  lemma OpenNew<V>(c: seq<nat>, ids: Ids, vals: seq<V>, d: nat, id: nat)
    requires |c| == 8 && d <= 6 && c[d + 1] == 1024 * c[d]
    ensures SegmentOk(c[d := c[d] + 1], ids[(d, c[d]) := id], vals, EmptySegment(), d, c[d])
  {
  }

  lemma OpenOther<V>(c: seq<nat>, ids: Ids, vals: seq<V>, seg: seq<Edge<V>>, d: nat, id: nat, e: nat, q: nat)
    requires |c| == 8 && d <= 6 && e <= 6 && SegmentOk(c, ids, vals, seg, e, q)
    requires e == d - 1 ==> (q + 1) * 1024 <= c[d]
    ensures SegmentOk(c[d := c[d] + 1], ids[(d, c[d]) := id], vals, seg, e, q)
  {
  }

  lemma OpenParent<V>(c: seq<nat>, ids: Ids, vals: seq<V>, seg: seq<Edge<V>>, d: nat, id: nat, q: nat, pos: nat)
    requires |c| == 8 && 0 < d <= 6 && SegmentOk(c, ids, vals, seg, d - 1, q)
    requires pos < 1024 && q * 1024 + pos == c[d]
    ensures SegmentOk(c[d := c[d] + 1], ids[(d, c[d]) := id], vals, seg[pos := Ptr(id)], d - 1, q)
  {
  }

  lemma NamedOpen(top: nat, c: seq<nat>, ids: Ids, bound: nat, d: nat)
    requires |c| == 8 && top <= d <= 6 && Named(top, c, ids, bound)
    ensures Named(top, c[d := c[d] + 1], ids[(d, c[d]) := bound], bound + 1)
  {
  }

  lemma CountsOpen(top: nat, c: seq<nat>, d: nat)
    requires CountsOk(top, c) && top <= d <= 6 && c[d + 1] == 1024 * c[d] && (top < d ==> c[d] < 1024 * c[d - 1])
    ensures CountsOk(top, c[d := c[d] + 1])
  {
  }

  lemma ShortcutOpen(c: seq<nat>, ids: Ids, s: Shortcut, d: nat, id: nat, e: nat)
    requires |c| == 8 && d <= 6 && e <= 6 && ShortcutOk(c, ids, s, e) && c[d + 1] == 1024 * c[d]
    requires e == d - 1 ==> c[d] < 1024 * c[d - 1]
    ensures ShortcutOk(c[d := c[d] + 1], ids[(d, c[d]) := id],
                       if e == d then Shortcut(id, 0) else if e == d - 1 then Shortcut(s.seg, s.pos + 1) else s, e)
  {
  }

  /** Each segment of the grown tree, the new one, its parent and the others. */
  lemma OpenOne<V>(top: nat, c: seq<nat>, ids: Ids, vals: seq<V>, segs: seq<seq<Edge<V>>>, parent: Shortcut, d: nat,
                   e: nat, q: nat)
    requires Ready(top, c, ids, vals, segs, parent, d) && top <= e <= 6 && q < c[d := c[d] + 1][e]
    ensures parent.seg < |segs| && |segs[parent.seg]| == 1024 && parent.pos < 1024
    ensures var c', ids' := c[d := c[d] + 1], ids[(d, c[d]) := |segs|];
      var segs' := Written(segs, parent, Ptr(|segs|)) + [EmptySegment()];
      (e, q) in ids' && ids'[(e, q)] < |segs'| && SegmentOk(c', ids', vals, segs'[ids'[(e, q)]], e, q)
  {
    hide SegmentOk;
    ReadyParent(top, c, ids, vals, segs, parent, d);
    var id, p := |segs|, c[d - 1] - 1;
    if (e, q) == (d, c[d]) {
      OpenNew(c, ids, vals, d, id);
    } else if (e, q) == (d - 1, p) {
      OpenParent(c, ids, vals, segs[parent.seg], d, id, p, parent.pos);
    } else {
      assert (e, q) in ids && ids[(e, q)] != parent.seg;
      OpenOther(c, ids, vals, segs[ids[(e, q)]], d, id, e, q);
    }
  }

  /** A new, empty segment at level d, hung into the next slot of level d - 1. */
  lemma OpenSegments<V>(top: nat, c: seq<nat>, ids: Ids, vals: seq<V>, segs: seq<seq<Edge<V>>>, parent: Shortcut,
                        d: nat)
    requires Ready(top, c, ids, vals, segs, parent, d)
    ensures parent.seg < |segs| && |segs[parent.seg]| == 1024 && parent.pos < 1024
    ensures var c', ids' := c[d := c[d] + 1], ids[(d, c[d]) := |segs|];
      var segs' := Written(segs, parent, Ptr(|segs|)) + [EmptySegment()];
      && Named(top, c', ids', |segs'|) && SegmentsOk(top, c', ids', vals, segs')
  {
    hide SegmentOk, Named, ShortcutOk;
    ReadyParent(top, c, ids, vals, segs, parent, d);
    NamedOpen(top, c, ids, |segs|, d);
    var c', ids' := c[d := c[d] + 1], ids[(d, c[d]) := |segs|];
    var segs' := Written(segs, parent, Ptr(|segs|)) + [EmptySegment()];
    forall e: nat, q: nat | top <= e <= 6 && q < c'[e]
      ensures (e, q) in ids' && ids'[(e, q)] < |segs'| && SegmentOk(c', ids', vals, segs'[ids'[(e, q)]], e, q)
    {
      OpenOne(top, c, ids, vals, segs, parent, d, e, q);
    }
  }

  lemma OpenShape<V>(top: nat, c: seq<nat>, ids: Ids, vals: seq<V>, root: seq<Edge<V>>, segs: seq<seq<Edge<V>>>,
                     short: seq<Shortcut>, d: nat)
    requires Shape(top, c, ids, vals, root, segs, short)
    requires top < d <= 6 && c[d + 1] == 1024 * c[d] && c[d] < 1024 * c[d - 1]
    ensures short[d - 1].seg < |segs| && |segs[short[d - 1].seg]| == 1024 && short[d - 1].pos < 1024
    ensures Shape(top, c[d := c[d] + 1], ids[(d, c[d]) := |segs|], vals, root,
                  Written(segs, short[d - 1], Ptr(|segs|)) + [EmptySegment()],
                  short[d - 1 := Shortcut(short[d - 1].seg, short[d - 1].pos + 1)][d := Shortcut(|segs|, 0)])
  {
    hide SegmentsOk, Named, ShortcutOk, CountsOk, Written;
    OpenSegments(top, c, ids, vals, segs, short[d - 1], d);
    CountsOpen(top, c, d);
    var c', ids' := c[d := c[d] + 1], ids[(d, c[d]) := |segs|];
    var short' := short[d - 1 := Shortcut(short[d - 1].seg, short[d - 1].pos + 1)][d := Shortcut(|segs|, 0)];
    forall e | top <= e <= 6 ensures ShortcutOk(c', ids', short'[e], e) {
      ShortcutOpen(c, ids, short[e], d, |segs|, e);
    }
  }

  /** A new segment of the top level, hung into the root. */
  lemma OpenTop<V>(top: nat, c: seq<nat>, ids: Ids, vals: seq<V>, root: seq<Edge<V>>, segs: seq<seq<Edge<V>>>,
                   short: seq<Shortcut>)
    requires Shape(top, c, ids, vals, root, segs, short)
    requires c[top + 1] == 1024 * c[top] && c[top] < |root|
    ensures Shape(top, c[top := c[top] + 1], ids[(top, c[top]) := |segs|], vals, root[c[top] := Ptr(|segs|)],
                  segs + [EmptySegment()], short[top := Shortcut(|segs|, 0)])
  {
    hide SegmentsOk, Named, ShortcutOk, CountsOk;
    OpenTopSegments(top, c, ids, vals, segs);
    CountsOpen(top, c, top);
    var c', ids' := c[top := c[top] + 1], ids[(top, c[top]) := |segs|];
    var short' := short[top := Shortcut(|segs|, 0)];
    forall e | top <= e <= 6 ensures ShortcutOk(c', ids', short'[e], e) {
      ShortcutOpen(c, ids, short[e], top, |segs|, e);
    }
  }

  lemma OpenTopSegments<V>(top: nat, c: seq<nat>, ids: Ids, vals: seq<V>, segs: seq<seq<Edge<V>>>)
    requires CountsOk(top, c) && Named(top, c, ids, |segs|) && SegmentsOk(top, c, ids, vals, segs)
    requires c[top + 1] == 1024 * c[top]
    ensures var c', ids', segs' := c[top := c[top] + 1], ids[(top, c[top]) := |segs|], segs + [EmptySegment()];
      Named(top, c', ids', |segs'|) && SegmentsOk(top, c', ids', vals, segs')
  {
    hide SegmentOk;
    var id := |segs|;
    var c', ids', segs' := c[top := c[top] + 1], ids[(top, c[top]) := id], segs + [EmptySegment()];
    NamedOpen(top, c, ids, id, top);
    OpenNew(c, ids, vals, top, id);
    forall e: nat, q: nat | top <= e <= 6 && q < c'[e] ensures SegmentOk(c', ids', vals, segs'[ids'[(e, q)]], e, q) {
      if (e, q) != (top, c[top]) {
        OpenOther(c, ids, vals, segs[ids[(e, q)]], top, id, e, q);
      }
    }
  }

  lemma PutOther<V>(c: seq<nat>, ids: Ids, vals: seq<V>, v: V, seg: seq<Edge<V>>, e: nat, q: nat)
    requires |c| == 8 && |vals| == c[7] && e <= 6 && SegmentOk(c, ids, vals, seg, e, q)
    requires e == 6 ==> (q + 1) * 1024 <= c[7]
    ensures SegmentOk(c[7 := c[7] + 1], ids, vals + [v], seg, e, q)
  {
  }

  lemma PutHere<V>(c: seq<nat>, ids: Ids, vals: seq<V>, v: V, seg: seq<Edge<V>>, q: nat, pos: nat)
    requires |c| == 8 && |vals| == c[7] && SegmentOk(c, ids, vals, seg, 6, q)
    requires pos < 1024 && q * 1024 + pos == c[7]
    ensures SegmentOk(c[7 := c[7] + 1], ids, vals + [v], seg[pos := Val(v)], 6, q)
  {
  }

  lemma PutSegments<V>(top: nat, c: seq<nat>, ids: Ids, vals: seq<V>, segs: seq<seq<Edge<V>>>, last: Shortcut, v: V)
    requires CountsOk(top, c) && |vals| == c[7] && Named(top, c, ids, |segs|) && SegmentsOk(top, c, ids, vals, segs)
    requires ShortcutOk(c, ids, last, 6) && c[7] < 1024 * c[6]
    ensures last.seg < |segs| && |segs[last.seg]| == 1024 && last.pos < 1024
    ensures |Written(segs, last, Val(v))| == |segs| && Named(top, c[7 := c[7] + 1], ids, |segs|)
    ensures SegmentsOk(top, c[7 := c[7] + 1], ids, vals + [v], Written(segs, last, Val(v)))
  {
    hide SegmentOk;
    var c', p := c[7 := c[7] + 1], c[6] - 1;
    assert Named(top, c', ids, |segs|);
    assert SegmentOk(c, ids, vals, segs[ids[(6, p)]], 6, p);
    PutHere(c, ids, vals, v, segs[last.seg], p, last.pos);
    var segs' := Written(segs, last, Val(v));
    forall e: nat, q: nat | top <= e <= 6 && q < c'[e]
      ensures SegmentOk(c', ids, vals + [v], segs'[ids[(e, q)]], e, q)
    {
      if (e, q) != (6, p) {
        assert ids[(e, q)] != last.seg;
        PutOther(c, ids, vals, v, segs[ids[(e, q)]], e, q);
      }
    }
  }

  lemma PutCounts(top: nat, c: seq<nat>)
    requires CountsOk(top, c) && c[7] < 1024 * c[6]
    ensures CountsOk(top, c[7 := c[7] + 1])
  {
  }

  lemma ShortcutPut(c: seq<nat>, ids: Ids, s: Shortcut, e: nat)
    requires |c| == 8 && e <= 6 && ShortcutOk(c, ids, s, e) && c[7] < 1024 * c[6]
    ensures ShortcutOk(c[7 := c[7] + 1], ids, if e == 6 then Shortcut(s.seg, s.pos + 1) else s, e)
  {
  }

  /** A value in the next slot of level 6. */
  lemma PutShape<V>(top: nat, c: seq<nat>, ids: Ids, vals: seq<V>, root: seq<Edge<V>>, segs: seq<seq<Edge<V>>>,
                    short: seq<Shortcut>, v: V)
    requires Shape(top, c, ids, vals, root, segs, short) && c[7] < 1024 * c[6]
    ensures short[6].seg < |segs| && |segs[short[6].seg]| == 1024 && short[6].pos < 1024
    ensures Shape(top, c[7 := c[7] + 1], ids, vals + [v], root, Written(segs, short[6], Val(v)),
                  short[6 := Shortcut(short[6].seg, short[6].pos + 1)])
  {
    hide SegmentsOk, Named, ShortcutOk, CountsOk, Written;
    PutSegments(top, c, ids, vals, segs, short[6], v);
    PutCounts(top, c);
    var c', short' := c[7 := c[7] + 1], short[6 := Shortcut(short[6].seg, short[6].pos + 1)];
    forall e | top <= e <= 6 ensures ShortcutOk(c', ids, short'[e], e) {
      ShortcutPut(c, ids, short[e], e);
    }
  }

  lemma Lengths<V>(top: nat, c: seq<nat>, ids: Ids, vals: seq<V>, root: seq<Edge<V>>, segs: seq<seq<Edge<V>>>,
                   short: seq<Shortcut>)
    requires Shape(top, c, ids, vals, root, segs, short)
    ensures |short| == 7 && forall s :: 0 <= s < |segs| ==> |segs[s]| == 1024
  {
  }

  // ---------------------------------------------------------------------------
  // Appending value number n, level by level

  /** The segment counts while value n is being appended and levels up to j have been
      seen to. Level base always has its one segment; level 0 is the root. */
  ghost function Midway(base: nat, n: nat, j: nat): (c: seq<nat>)
    requires base <= 6
    ensures |c| == 8 && c[base] == 1
    ensures forall d :: base < d <= 7 ==> c[d] == if d <= j then Count(d, n + 1) else Count(d, n)
  {
    seq(8, d requires 0 <= d < 8 =>
      if d < base then 0 else if d == base then 1 else if d <= j then Count(d, n + 1) else Count(d, n))
  }

  lemma MidwayStep(base: nat, n: nat, d: nat)
    requires base < d <= 7
    ensures var c := Midway(base, n, d - 1);
      Midway(base, n, d) == if n % Span(d) == 0 then c[d := c[d] + 1] else c
  {
    hide Count, Span;
    AlignedIsMask(d, n);
    CountGrows(d, n);
  }

  /** When a level is opened it is full, and the level above has room. */
  lemma MidwayRoom(base: nat, n: nat, d: nat)
    requires base < d <= 7 && n % Span(d) == 0 && (d == base + 1 ==> n / Span(d) < 1024)
    ensures var c := Midway(base, n, d - 1);
      && (d < 7 ==> c[d + 1] == 1024 * c[d])
      && c[d] < 1024 * c[d - 1]
      && c[d] == n / Span(d)
  {
    hide Span;
    AlignedIsMask(d, n);
    OrdinalIsShift(d, n);
    CountGrows(d, n);
    if d > base + 1 {
      assert Midway(base, n, d - 1)[d - 1] == Count(d - 1, n + 1) == (Count(d, n + 1) + 1023) / 1024;
    }
  }

  lemma MidwayDone(base: nat, n: nat)
    requires base <= 6
    ensures Midway(base, n, 7) == Midway(base, n + 1, base)
  {
  }

  /** The last segment of the level above gets a new child. */
  function OpenedSegs<V>(segs: seq<seq<Edge<V>>>, s: Shortcut): seq<seq<Edge<V>>>
    requires s.seg < |segs| && s.pos < |segs[s.seg]|
  {
    Written(segs, s, Ptr(|segs|)) + [EmptySegment()]
  }

  function OpenedShort(short: seq<Shortcut>, d: nat, added: nat): seq<Shortcut>
    requires 0 < d < |short|
  {
    short[d - 1 := Shortcut(short[d - 1].seg, short[d - 1].pos + 1)][d := Shortcut(added, 0)]
  }

  /** Opening a level that is due: its shortcut is used up, the one above is not, and
      the shape is that of the next level's turn. */
  lemma OpenDue<V>(top: nat, base: nat, n: nat, d: nat, ids: Ids, vals: seq<V>, root: seq<Edge<V>>,
                   segs: seq<seq<Edge<V>>>, short: seq<Shortcut>)
    requires base < d <= 6 && top < d && Shape(top, Midway(base, n, d - 1), ids, vals, root, segs, short)
    requires n % Span(d) == 0 && (d == base + 1 ==> n / Span(d) < 1024)
    ensures |short| == 7 && CannotAppend(short[d]) && !CannotAppend(short[d - 1])
    ensures short[d - 1].seg < |segs| && |segs[short[d - 1].seg]| == 1024 && short[d - 1].pos < 1024
    ensures Shape(top, Midway(base, n, d), ids[(d, Midway(base, n, d - 1)[d]) := |segs|], vals, root,
                  OpenedSegs(segs, short[d - 1]), OpenedShort(short, d, |segs|))
  {
    hide Shape, Written, Span;
    var c := Midway(base, n, d - 1);
    MidwayStep(base, n, d);
    MidwayRoom(base, n, d);
    Lengths(top, c, ids, vals, root, segs, short);
    ExhaustedIffFull(top, c, ids, vals, root, segs, short, d);
    ExhaustedIffFull(top, c, ids, vals, root, segs, short, d - 1);
    OpenShape(top, c, ids, vals, root, segs, short, d);
  }

  /** The value's turn, after all levels. */
  lemma PutDue<V>(top: nat, base: nat, n: nat, ids: Ids, vals: seq<V>, root: seq<Edge<V>>,
                  segs: seq<seq<Edge<V>>>, short: seq<Shortcut>, v: V)
    requires base < 6 && Shape(top, Midway(base, n, 6), ids, vals, root, segs, short)
    ensures |short| == 7 && short[6].seg < |segs| && |segs[short[6].seg]| == 1024 && short[6].pos < 1024
    ensures Shape(top, Midway(base, n + 1, base), ids, vals + [v], root, Written(segs, short[6], Val(v)),
                  short[6 := Shortcut(short[6].seg, short[6].pos + 1)])
  {
    hide Shape, Written;
    var c := Midway(base, n, 6);
    assert n % Span(7) == 0;
    MidwayStep(base, n, 7);
    MidwayRoom(base, n, 7);
    MidwayDone(base, n);
    Lengths(top, c, ids, vals, root, segs, short);
    PutShape(top, c, ids, vals, root, segs, short, v);
  }

  // ---------------------------------------------------------------------------
  // Looking up

  /** The edge to the segment of level d that key k belongs to. */
  ghost function EdgeTo<V>(c: seq<nat>, ids: Ids, vals: seq<V>, d: nat, k: nat): Edge<V>
    requires |c| == 8 && 1 <= d <= 7
  {
    if Ordinal(d, k) >= c[d] then Null
    else if d == 7 then if k < |vals| then Val(vals[k]) else Null
    else if (d, Ordinal(d, k)) in ids then Ptr(ids[(d, Ordinal(d, k))]) else Null
  }

  /** One step of the walk leads from one such edge to the next. */
  lemma StepDown<V>(top: nat, c: seq<nat>, ids: Ids, vals: seq<V>, segs: seq<seq<Edge<V>>>, d: nat, k: nat)
    requires |c| == 8 && Named(top, c, ids, |segs|) && SegmentsOk(top, c, ids, vals, segs)
    requires 1 <= top <= d <= 6 && Ordinal(d, k) < c[d]
    ensures (d, Ordinal(d, k)) in ids && ids[(d, Ordinal(d, k))] < |segs|
    ensures segs[ids[(d, Ordinal(d, k))]][LevelIndex(d, k)] == EdgeTo(c, ids, vals, d + 1, k)
  {
    var q, i := Ordinal(d, k), LevelIndex(d, k);
    OrdinalSplits(d, k);
    assert SegmentOk(c, ids, vals, segs[ids[(d, q)]], d, q);
    assert segs[ids[(d, q)]][i] == SlotAt(c, ids, vals, d, q, i);
  }

  /** Walking down from the edge to a key's segment finds its value. */
  lemma {:induction false} WalkFinds<V>(top: nat, c: seq<nat>, ids: Ids, vals: seq<V>, segs: seq<seq<Edge<V>>>,
                                        d: nat, k: nat)
    requires |c| == 8 && CountsOk(top, c) && |vals| == c[7]
    requires Named(top, c, ids, |segs|) && SegmentsOk(top, c, ids, vals, segs) && 1 <= top <= d <= 7
    requires forall s :: 0 <= s < |segs| ==> |segs[s]| == 1024
    ensures Walk(segs, EdgeTo(c, ids, vals, d, k), d, k) == if k < |vals| then Val(vals[k]) else Null
    decreases 7 - d
  {
    hide Named, SegmentsOk, CountsOk, Ordinal;
    if d == 7 {
      ValueLevel(k);
    } else if Ordinal(d, k) < c[d] {
      StepDown(top, c, ids, vals, segs, d, k);
      WalkFinds(top, c, ids, vals, segs, d + 1, k);
    } else {
      Beyond(top, c, d, k);
    }
  }

  lemma ValueLevel(k: nat)
    ensures Ordinal(7, k) == k
  {
  }

  lemma {:induction false} Beyond(top: nat, c: seq<nat>, d: nat, k: nat)
    requires CountsOk(top, c) && top <= d <= 7 && Ordinal(d, k) >= c[d]
    ensures k >= c[7]
    decreases 7 - d
  {
    if d < 7 {
      Beyond(top, c, d + 1, k);
    }
  }
}
