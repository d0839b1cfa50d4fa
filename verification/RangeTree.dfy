/** A total map from 64-bit numbers to values, stored as maximal ranges
    (fuzzy_log_util/src/range_tree.rs). The underlying BTreeMap is a map whose
    keys never overlap; looking up a point finds the range that holds it.
    Values merge exactly when they are equal. */
module RangeTrees {
  import opened Ranges
  import opened Options

  // ---------------------------------------------------------------------------
  // Ranges that tile [0, MAX] apart from a gap

  ghost predicate Valid<V>(m: map<Range, V>) {
    && (forall r :: r in m ==> Ok(r))
    && (forall r, s :: r in m && s in m && r != s ==> Disjoint(r, s))
  }

  ghost predicate Held<V>(m: map<Range, V>, p: int) {
    exists r :: r in m && Has(r, p)
  }

  ghost predicate NeighboursDiffer<V>(m: map<Range, V>) {
    forall r, s :: r in m && s in m && r.last + 1 == s.first ==> m[r] != m[s]
  }

  /** m covers exactly the points outside [lo, hi]. */
  ghost predicate CoversBut<V>(m: map<Range, V>, lo: int, hi: int) {
    forall p :: 0 <= p <= MAX ==> (Held(m, p) <==> !(lo <= p <= hi))
  }

  ghost predicate Tiles<V>(m: map<Range, V>, lo: int, hi: int) {
    Valid(m) && NeighboursDiffer(m) && CoversBut(m, lo, hi)
  }

  /** No gap: the ranges partition [0, MAX] and neighbours differ. */
  ghost predicate Canonical<V>(m: map<Range, V>) {
    Tiles(m, 0, -1)
  }

  ghost function Lookup<V>(m: map<Range, V>, p: int): V
    requires Canonical(m) && 0 <= p <= MAX
  {
    assert Held(m, p);
    var r :| r in m && Has(r, p);
    m[r]
  }

  lemma LookupIs<V>(m: map<Range, V>, r: Range, p: int)
    requires Canonical(m) && r in m && Has(r, p)
    ensures Lookup(m, p) == m[r]
  {
  }

  lemma Owner<V>(m: map<Range, V>, p: int) returns (r: Range)
    requires Canonical(m) && 0 <= p <= MAX
    ensures r in m && Has(r, p) && Lookup(m, p) == m[r]
  {
    assert Held(m, p);
    r :| r in m && Has(r, p);
    LookupIs(m, r, p);
  }

  /** No range starting right after last carries v. */
  ghost predicate FitsBefore<V>(m: map<Range, V>, last: int, v: V) {
    forall s :: s in m && last + 1 == s.first ==> m[s] != v
  }

  ghost predicate FitsAfter<V>(m: map<Range, V>, first: int, v: V) {
    forall s :: s in m && s.last + 1 == first ==> m[s] != v
  }

  /** Taking out a range next to the gap widens the gap. */
  lemma TakeOut<V>(m: map<Range, V>, lo: int, hi: int, r: Range)
    requires Tiles(m, lo, hi) && r in m
    requires lo > hi || r.first == hi + 1 || r.last + 1 == lo
    ensures Tiles(m - {r}, if lo > hi || r.first < lo then r.first else lo,
                  if lo > hi || r.last > hi then r.last else hi)
    ensures FitsBefore(m - {r}, r.last, m[r]) && FitsAfter(m - {r}, r.first, m[r])
  {
    var n := m - {r};
    forall p | 0 <= p <= MAX ensures Held(n, p) <==> Held(m, p) && !Has(r, p) {
      if Held(m, p) && !Has(r, p) {
        var s :| s in m && Has(s, p);
        assert s in n;
      }
      if Held(n, p) {
        var s :| s in n && Has(s, p);
        assert s in m && Disjoint(r, s);
      }
    }
  }

  /** Putting a range with a new value at an end of the gap narrows the gap. */
  lemma PutIn<V>(m: map<Range, V>, lo: int, hi: int, r: Range, v: V)
    requires Tiles(m, lo, hi) && Ok(r) && lo <= r.first && r.last <= hi && 0 <= lo && hi <= MAX
    requires r.first == lo || r.last == hi
    requires r.last == hi ==> FitsBefore(m, hi, v)
    requires r.first == lo ==> FitsAfter(m, lo, v)
    ensures Tiles(m[r := v], if r.first == lo then r.last + 1 else lo, if r.first == lo then hi else r.first - 1)
    ensures r !in m
  {
    var n := m[r := v];
    forall s | s in m
      ensures Disjoint(r, s) && (r.last < hi ==> s.first != r.last + 1) && (lo < r.first ==> s.last + 1 != r.first)
    {
      GapApart(m, lo, hi, s);
    }
    forall p | 0 <= p <= MAX ensures Held(n, p) <==> Held(m, p) || Has(r, p) {
      if Has(r, p) { assert r in n; }
      if Held(m, p) {
        var s :| s in m && Has(s, p);
        assert s in n;
      }
      if Held(n, p) && !Has(r, p) {
        var s :| s in n && Has(s, p);
        assert s in m;
      }
    }
  }

  lemma GapApart<V>(m: map<Range, V>, lo: int, hi: int, s: Range)
    requires Tiles(m, lo, hi) && s in m && 0 <= lo <= hi <= MAX
    ensures s.last < lo || hi < s.first
  {
    if lo <= s.last && s.first <= hi {
      var p := if lo >= s.first then lo else s.first;
      assert Has(s, p);
      assert Held(m, p);
    }
  }

  // ---------------------------------------------------------------------------
  // What the tree denotes

  /** Every range stored in m carries the value was has there. */
  ghost predicate Agrees<V>(m: map<Range, V>, was: map<Range, V>)
    requires Canonical(was)
  {
    forall r, p :: r in m && 0 <= p <= MAX && Has(r, p) ==> m[r] == Lookup(was, p)
  }

  /** The total function of now is that of was with [low, high] set to v. */
  ghost predicate Updated<V>(now: map<Range, V>, was: map<Range, V>, low: int, high: int, v: V)
    requires Canonical(now) && Canonical(was)
  {
    forall p :: 0 <= p <= MAX ==> Lookup(now, p) == if low <= p <= high then v else Lookup(was, p)
  }

  /** The gap holds [low, high], and outside it only points that had v. */
  ghost predicate Absorbed<V>(was: map<Range, V>, gap: Range, low: int, high: int, v: V)
    requires Canonical(was)
  {
    forall p :: 0 <= p <= MAX && Has(gap, p) ==> low <= p <= high || Lookup(was, p) == v
  }

  lemma AgreesSelf<V>(m: map<Range, V>)
    requires Canonical(m)
    ensures Agrees(m, m)
  {
  }

  /** Filling the whole gap with v completes the update. */
  lemma Seal<V>(m: map<Range, V>, gap: Range, v: V, was: map<Range, V>, low: int, high: int)
    requires Canonical(was) && Ok(gap) && Tiles(m, gap.first, gap.last) && Agrees(m, was)
    requires FitsBefore(m, gap.last, v) && FitsAfter(m, gap.first, v)
    requires gap.first <= low && high <= gap.last && Absorbed(was, gap, low, high, v)
    ensures Canonical(m[gap := v]) && Updated(m[gap := v], was, low, high, v)
  {
    var n := m[gap := v];
    PutIn(m, gap.first, gap.last, gap, v);
    forall p | 0 <= p <= MAX ensures Lookup(n, p) == if low <= p <= high then v else Lookup(was, p) {
      if Has(gap, p) {
        LookupIs(n, gap, p);
      } else {
        assert Held(m, p);
        var s :| s in m && Has(s, p);
        LookupIs(n, s, p);
      }
    }
  }

  ghost predicate Carries<V>(was: map<Range, V>, r: Range, v: V)
    requires Canonical(was)
  {
    forall p :: 0 <= p <= MAX && Has(r, p) ==> Lookup(was, p) == v
  }

  /** Inserting a piece with the value was had there. */
  lemma AgreesPut<V>(m: map<Range, V>, was: map<Range, V>, whole: Range, r: Range, v: V)
    requires Canonical(was) && Agrees(m, was) && Carries(was, whole, v) && Spans(whole, r)
    ensures Agrees(m[r := v], was)
  {
  }

  lemma TakeOutAgrees<V>(was: map<Range, V>, r: Range)
    requires Canonical(was) && r in was
    ensures Tiles(was - {r}, r.first, r.last) && Agrees(was - {r}, was) && Carries(was, r, was[r])
    ensures FitsBefore(was - {r}, r.last, was[r]) && FitsAfter(was - {r}, r.first, was[r])
  {
    TakeOut(was, 0, -1, r);
    AgreesSelf(was);
  }

  /** The front of whole goes back with its value. */
  lemma PutBefore<V>(m: map<Range, V>, was: map<Range, V>, whole: Range, pre: Range, kept: V)
    requires Canonical(was) && Ok(whole) && Carries(was, whole, kept)
    requires Tiles(m, whole.first, whole.last) && Agrees(m, was) && FitsAfter(m, whole.first, kept)
    requires pre.first == whole.first <= pre.last < whole.last
    ensures Tiles(m[pre := kept], pre.last + 1, whole.last) && Agrees(m[pre := kept], was)
    ensures FitsBefore(m, whole.last, kept) ==> FitsBefore(m[pre := kept], whole.last, kept)
  {
    hide CoversBut, Lookup, Agrees, NeighboursDiffer;
    PutIn(m, whole.first, whole.last, pre, kept);
    AgreesPut(m, was, whole, pre, kept);
  }

  /** The back of whole goes back with its value. */
  lemma PutAfter<V>(m: map<Range, V>, was: map<Range, V>, whole: Range, lo: nat, post: Range, kept: V)
    requires Canonical(was) && Ok(whole) && Carries(was, whole, kept)
    requires Tiles(m, lo, whole.last) && Agrees(m, was) && FitsBefore(m, whole.last, kept)
    requires lo < post.first <= post.last == whole.last && whole.first <= post.first
    ensures Tiles(m[post := kept], lo, post.first - 1) && Agrees(m[post := kept], was)
  {
    hide CoversBut, Lookup, Agrees, NeighboursDiffer;
    PutIn(m, lo, whole.last, post, kept);
    AgreesPut(m, was, whole, post, kept);
  }

  /** A range beside a piece that carries another value. */
  lemma FitsBesideKept<V>(m: map<Range, V>, piece: Range, v: V)
    requires Valid(m) && piece in m && m[piece] != v
    ensures FitsAfter(m, piece.last + 1, v) && FitsBefore(m, piece.first - 1, v)
  {
  }

  lemma PutBetween<V>(m: map<Range, V>, pre: Range, post: Range, target: Range, kept: V, v: V)
    requires kept != v && Ok(pre) && Ok(post) && Ok(target)
    requires pre.last + 1 == target.first && target.last + 1 == post.first
    requires Valid(m[pre := kept][post := kept])
    ensures m[target := v][pre := kept][post := kept] == m[pre := kept][post := kept][target := v]
    ensures FitsBefore(m[pre := kept][post := kept], target.last, v)
    ensures FitsAfter(m[pre := kept][post := kept], target.first, v)
  {
    var n := m[pre := kept][post := kept];
    assert pre in n && post in n;
    FitsBesideKept(n, pre, v);
    FitsBesideKept(n, post, v);
  }

  lemma AbsorbedInside<V>(was: map<Range, V>, gap: Range, target: Range, v: V)
    requires Canonical(was) && Spans(target, gap)
    ensures Absorbed(was, gap, target.first, target.last, v)
  {
  }

  lemma AbsorbedMore<V>(was: map<Range, V>, gap: Range, more: Range, target: Range, v: V)
    requires Canonical(was) && Absorbed(was, gap, target.first, target.last, v)
    requires forall p :: 0 <= p <= MAX && Has(more, p) ==> Has(gap, p) || Lookup(was, p) == v
    ensures Absorbed(was, more, target.first, target.last, v)
  {
  }

  lemma AbsorbedJoin<V>(was: map<Range, V>, acc: Range, mid: Range, next: Range, target: Range, v: V)
    requires Canonical(was) && Absorbed(was, acc, target.first, target.last, v) && Spans(target, mid)
    requires forall p :: Has(next, p) ==> Has(acc, p) || Has(mid, p)
    ensures Absorbed(was, next, target.first, target.last, v)
  {
  }

  lemma AbsorbedWhole<V>(was: map<Range, V>, acc: Range, whole: Range, next: Range, target: Range, v: V)
    requires Canonical(was) && Carries(was, whole, v) && Absorbed(was, acc, target.first, target.last, v)
    requires forall p :: Has(next, p) ==> Has(acc, p) || Has(whole, p)
    ensures Absorbed(was, next, target.first, target.last, v)
  {
  }

  /** The next range to sweep starts right after the gap and is one of was. */
  lemma SweepOn<V>(m: map<Range, V>, was: map<Range, V>, gap: Range, r: Range)
    requires Canonical(was) && Ok(gap) && Tiles(m, gap.first, gap.last) && Agrees(m, was)
    requires r in m && Has(r, gap.last + 1)
    ensures r.first == gap.last + 1 && Ok(r)
    ensures Tiles(m - {r}, gap.first, r.last) && Agrees(m - {r}, was) && Carries(was, r, m[r])
    ensures FitsBefore(m - {r}, r.last, m[r]) && FitsAfter(m - {r}, r.first, m[r])
  {
    GapApart(m, gap.first, gap.last, r);
    TakeOut(m, gap.first, gap.last, r);
  }

  lemma AlreadySet<V>(m: map<Range, V>, r: Range, low: int, high: int)
    requires Canonical(m) && r in m && r.first <= low && high <= r.last
    ensures Updated(m, m, low, high, m[r])
  {
  }

  /** Everything but the gap is as it was, and the gap may be filled with v. */
  ghost predicate Sealable<V>(m: map<Range, V>, gap: Range, target: Range, v: V, was: map<Range, V>) {
    && Canonical(was) && Ok(gap) && Tiles(m, gap.first, gap.last) && Agrees(m, was)
    && Spans(gap, target) && Absorbed(was, gap, target.first, target.last, v)
  }

  lemma JoinNext<V>(m: map<Range, V>, was: map<Range, V>, gap: Range, r: Range)
    requires Canonical(was) && Ok(gap) && Tiles(m, gap.first, gap.last) && Agrees(m, was)
    requires r in m && Has(r, gap.last + 1)
    ensures Ok(r) && Tiles(m - {r}, gap.first, r.last) && Agrees(m - {r}, was)
    ensures forall p :: 0 <= p <= MAX && gap.last < p <= r.last ==> Lookup(was, p) == m[r]
    ensures FitsBefore(m - {r}, r.last, m[r])
    ensures forall u :: FitsAfter(m, gap.first, u) ==> FitsAfter(m - {r}, gap.first, u)
  {
    hide CoversBut, Lookup;
    GapApart(m, gap.first, gap.last, r);
    TakeOut(m, gap.first, gap.last, r);
  }

  lemma JoinPrior<V>(m: map<Range, V>, was: map<Range, V>, gap: Range, r: Range)
    requires Canonical(was) && Ok(gap) && Tiles(m, gap.first, gap.last) && Agrees(m, was)
    requires r in m && Has(r, gap.first - 1)
    ensures Ok(r) && r.first < gap.first && Tiles(m - {r}, r.first, gap.last) && Agrees(m - {r}, was)
    ensures forall p :: 0 <= p <= MAX && r.first <= p < gap.first ==> Lookup(was, p) == m[r]
    ensures FitsAfter(m - {r}, r.first, m[r])
    ensures forall u :: FitsBefore(m, gap.last, u) ==> FitsBefore(m - {r}, gap.last, u)
  {
    hide CoversBut, Lookup;
    GapApart(m, gap.first, gap.last, r);
    TakeOut(m, gap.first, gap.last, r);
  }

  lemma NothingAfter<V>(m: map<Range, V>, gap: Range, v: V)
    requires Tiles(m, gap.first, gap.last) && gap.last >= MAX
    ensures FitsBefore(m, gap.last, v)
  {
  }

  lemma OtherNext<V>(m: map<Range, V>, gap: Range, next: Option<Range>, v: V)
    requires Tiles(m, gap.first, gap.last) && Ok(gap) && gap.last < MAX
    requires if next.Some? then next.value in m && Has(next.value, gap.last + 1) && m[next.value] != v
             else !Held(m, gap.last + 1)
    ensures FitsBefore(m, gap.last, v)
  {
  }

  lemma OtherPrior<V>(m: map<Range, V>, gap: Range, prior: Option<Range>, v: V)
    requires Tiles(m, gap.first, gap.last) && Ok(gap) && gap.first > 0
    requires if prior.Some? then prior.value in m && Has(prior.value, gap.first - 1) && m[prior.value] != v
             else !Held(m, gap.first - 1)
    ensures FitsAfter(m, gap.first, v)
  {
  }

  /** A target strictly inside a range: both ends stay, the middle is new. */
  lemma CarveMiddle<V>(m: map<Range, V>, was: map<Range, V>, whole: Range, pre: Range, post: Range, target: Range, v: V)
    requires Canonical(was) && whole in was && was[whole] != v && m == was - {whole} && Ok(whole) && Ok(target)
    requires pre.first == whole.first && pre.last + 1 == target.first && target.last + 1 == post.first
    requires post.last == whole.last && pre.first <= pre.last && post.first <= post.last
    ensures var n := m[target := v][pre := was[whole]][post := was[whole]];
      Canonical(n) && Updated(n, was, target.first, target.last, v)
  {
    hide CoversBut, Lookup, Agrees, NeighboursDiffer, Absorbed, Updated, Carries;
    var kept := was[whole];
    TakeOutAgrees(was, whole);
    AbsorbedInside(was, target, target, v);
    PutBefore(m, was, whole, pre, kept);
    PutAfter(m[pre := kept], was, whole, pre.last + 1, post, kept);
    PutBetween(m, pre, post, target, kept, v);
    Seal(m[pre := kept][post := kept], target, v, was, target.first, target.last);
  }

  // ---------------------------------------------------------------------------
  // One tree per function

  lemma NeighboursLookup<V>(m: map<Range, V>, r: Range)
    requires Canonical(m) && r in m
    ensures r.first > 0 ==> Lookup(m, r.first - 1) != m[r]
    ensures r.last < MAX ==> Lookup(m, r.last + 1) != m[r]
  {
  }

  ghost predicate SameFunction<V>(a: map<Range, V>, b: map<Range, V>)
    requires Canonical(a) && Canonical(b)
  {
    forall p :: 0 <= p <= MAX ==> Lookup(a, p) == Lookup(b, p)
  }

  lemma SameRange<V>(a: map<Range, V>, b: map<Range, V>, r: Range)
    requires Canonical(a) && Canonical(b) && SameFunction(a, b) && r in a
    ensures r in b && a[r] == b[r]
  {
    hide Lookup, Tiles;
    Ordered(a, r);
    var s := Owner(b, r.first);
    Ordered(b, s);
    LookupIs(a, r, r.first);
    NeighboursLookup(a, r);
    NeighboursLookup(b, s);
    if s.first < r.first { LookupIs(b, s, r.first - 1); }
    if s.last < r.last { LookupIs(a, r, s.last + 1); }
    if s.last > r.last { LookupIs(b, s, r.last + 1); }
    assert s == r;
  }

  lemma Ordered<V>(m: map<Range, V>, r: Range)
    requires Canonical(m) && r in m
    ensures Ok(r)
  {
  }

  /** Trees with equal denotations are identical. */
  lemma OneTreePerFunction<V>(a: map<Range, V>, b: map<Range, V>)
    requires Canonical(a) && Canonical(b) && SameFunction(a, b)
    ensures a == b
  {
    forall r ensures r in a <==> r in b {
      if r in a { SameRange(a, b, r); }
      if r in b { SameRange(b, a, r); }
    }
    forall r | r in a ensures a[r] == b[r] {
      SameRange(a, b, r);
    }
  }

  // ---------------------------------------------------------------------------
  // The tree

  class RangeTree<V(==)> {
    var inner: map<Range, V>

    ghost predicate Valid()
      reads this
    {
      Canonical(inner)
    }

    constructor WithDefault(v: V)
      ensures Valid() && forall p :: 0 <= p <= MAX ==> Lookup(inner, p) == v
    {
      var all := Range(0, MAX);
      inner := map[all := v];
      new;
      assert all in inner;
      assert forall p :: 0 <= p <= MAX ==> Has(all, p) && Held(inner, p);
      forall p | 0 <= p <= MAX ensures Lookup(inner, p) == v {
        LookupIs(inner, all, p);
      }
    }

    /** The entry whose range holds p: BTreeMap's lookup of Range::point(p). */
    method Find(p: nat) returns (r: Option<Range>)
      ensures r.Some? ==> r.value in inner && Has(r.value, p)
      ensures r.None? ==> !Held(inner, p)
    {
      if s :| s in inner && Has(s, p) {
        r := Some(s);
      } else {
        r := None;
      }
    }

    method Get(p: nat) returns (v: V)
      requires Valid() && p <= MAX
      ensures v == Lookup(inner, p)
    {
      var r := Find(p);
      assert Held(inner, p);
      LookupIs(inner, r.value, p);
      v := inner[r.value];
    }

    /** What merging keeps and gains: the tree around current still carries was,
        and the points current gained had v. */
    ghost predicate Merged(current: Range, merged: Range, v: V, was: map<Range, V>)
      requires Canonical(was)
      reads this
    {
      Ok(merged) && Spans(merged, current) && Tiles(inner, merged.first, merged.last) && Agrees(inner, was)
      && forall p :: 0 <= p <= MAX && Has(merged, p) ==> Has(current, p) || Lookup(was, p) == v
    }

    method TryMergeWithNext(current: Range, v: V, ghost was: map<Range, V>) returns (merged: Range)
      requires Ok(current) && Canonical(was) && Tiles(inner, current.first, current.last) && Agrees(inner, was)
      modifies this
      ensures Merged(current, merged, v, was) && merged.first == current.first
      ensures FitsBefore(inner, merged.last, v)
      ensures old(FitsAfter(inner, current.first, v)) ==> FitsAfter(inner, merged.first, v)
    {
      hide Tiles, Agrees, Lookup;
      if current.last >= MAX {
        NothingAfter(inner, current, v);
        return current;
      }
      var next := Find(current.last + 1);
      if next.Some? && inner[next.value] == v {
        JoinNext(inner, was, current, next.value);
        inner := inner - {next.value};
        merged := Range(current.first, next.value.last);
      } else {
        OtherNext(inner, current, next, v);
        merged := current;
      }
    }

    method TryMergeWithPrior(current: Range, v: V, ghost was: map<Range, V>) returns (merged: Range)
      requires Ok(current) && Canonical(was) && Tiles(inner, current.first, current.last) && Agrees(inner, was)
      modifies this
      ensures Merged(current, merged, v, was) && merged.last == current.last
      ensures FitsAfter(inner, merged.first, v)
      ensures old(FitsBefore(inner, current.last, v)) ==> FitsBefore(inner, merged.last, v)
    {
      hide Tiles, Agrees, Lookup;
      if current.first <= 0 {
        return current;
      }
      var prior := Find(current.first - 1);
      if prior.Some? && inner[prior.value] == v {
        JoinPrior(inner, was, current, prior.value);
        inner := inner - {prior.value};
        merged := Range(prior.value.first, current.last);
      } else {
        OtherPrior(inner, current, prior, v);
        merged := current;
      }
    }

    /** Merge the filled gap with its right neighbour, or its left one, or both, and
        put it in. */
    method SealNext(gap: Range, target: Range, v: V, ghost was: map<Range, V>)
      requires Sealable(inner, gap, target, v, was) && FitsAfter(inner, gap.first, v)
      modifies this
      ensures Valid() && Updated(inner, was, target.first, target.last, v)
    {
      hide Tiles, Agrees, Absorbed, Updated, FitsBefore, FitsAfter;
      var merged := TryMergeWithNext(gap, v, was);
      AbsorbedMore(was, gap, merged, target, v);
      Seal(inner, merged, v, was, target.first, target.last);
      inner := inner[merged := v];
    }

    method SealPrior(gap: Range, target: Range, v: V, ghost was: map<Range, V>)
      requires Sealable(inner, gap, target, v, was) && FitsBefore(inner, gap.last, v)
      modifies this
      ensures Valid() && Updated(inner, was, target.first, target.last, v)
    {
      hide Tiles, Agrees, Absorbed, Updated, FitsBefore, FitsAfter;
      var merged := TryMergeWithPrior(gap, v, was);
      AbsorbedMore(was, gap, merged, target, v);
      Seal(inner, merged, v, was, target.first, target.last);
      inner := inner[merged := v];
    }

    method SealBoth(gap: Range, target: Range, v: V, ghost was: map<Range, V>)
      requires Sealable(inner, gap, target, v, was)
      modifies this
      ensures Valid() && Updated(inner, was, target.first, target.last, v)
    {
      hide Tiles, Agrees, Absorbed, Updated, FitsBefore, FitsAfter;
      var merged := TryMergeWithNext(gap, v, was);
      AbsorbedMore(was, gap, merged, target, v);
      SealPrior(merged, target, v, was);
    }

    /** The branches for a range of was that spans the target: keep what lies
        before and after, and merge with a neighbour where nothing is kept. */
    method Carve(whole: Range, pieces: (Option<Range>, Option<Range>), kept: V, target: Range, v: V,
                 ghost was: map<Range, V>)
      requires Canonical(was) && whole in was && was[whole] == kept && kept != v && inner == was - {whole}
      requires Ok(target) && Spans(whole, target) && pieces == Remove(whole, target)
      modifies this
      ensures Valid() && Updated(inner, was, target.first, target.last, v)
    {
      hide CoversBut, NeighboursDiffer, Lookup, Agrees, Absorbed, Updated, Carries, FitsBefore, FitsAfter;
      TakeOutAgrees(was, whole);
      Ordered(was, whole);
      AbsorbedInside(was, target, target, v);
      match pieces
      case (Some(pre), Some(post)) =>
        CarveMiddle(inner, was, whole, pre, post, target, v);
        inner := inner[target := v];
        inner := inner[pre := kept];
        inner := inner[post := kept];
      case (Some(pre), None) =>
        PutBefore(inner, was, whole, pre, kept);
        inner := inner[pre := kept];
        FitsBesideKept(inner, pre, v);
        SealNext(target, target, v, was);
      case (None, Some(post)) =>
        PutAfter(inner, was, whole, whole.first, post, kept);
        inner := inner[post := kept];
        FitsBesideKept(inner, post, v);
        SealPrior(target, target, v, was);
      case (None, None) =>
        SealBoth(target, target, v, was);
    }

    method SetPointAs(p: nat, v: V) returns (changed: bool)
      requires Valid() && p <= MAX
      modifies this
      ensures Valid() && Updated(inner, old(inner), p, p, v)
      ensures changed == (old(Lookup(inner, p)) != v)
    {
      ghost var was := inner;
      var found := Find(p);
      assert Held(inner, p);
      LookupIs(inner, found.value, p);
      var whole, kept := found.value, inner[found.value];
      if kept == v {
        return false;
      }
      inner := inner - {whole};
      Carve(whole, SplitAt(whole, p), kept, Point(p), v, was);
      return true;
    }

    /** Where set_range_as stands: the gap is what lies between the start of the
        accumulator or of the range just taken out, and the end of the latter. */
    ghost predicate Sweeping(acc: Range, whole: Range, kept: V, low: nat, high: nat, v: V, was: map<Range, V>)
      requires Canonical(was)
      reads this
    {
      && Ok(acc) && Ok(whole) && Carries(was, whole, kept)
      && acc.first <= low <= acc.last <= high && whole.first <= acc.last + 1 && acc.last <= whole.last
      && whole.first <= high
      && (whole.first < low ==> acc == Point(low) && whole.last < high)
      && Tiles(inner, if whole.first < low then whole.first else acc.first, whole.last)
      && Agrees(inner, was) && Absorbed(was, acc, low, high, v)
      && FitsBefore(inner, whole.last, kept) && FitsAfter(inner, whole.first, kept)
    }

    method SetRangeAs(low: nat, high: nat, v: V)
      requires Valid() && low <= high <= MAX
      modifies this
      ensures Valid() && Updated(inner, old(inner), low, high, v)
    {
      hide CoversBut, Lookup, Agrees, NeighboursDiffer, Absorbed, Updated, FitsBefore, FitsAfter, Carries;
      ghost var was := inner;
      var target := Range(low, high);
      var found := FindHeld(low);
      var whole, kept := found, inner[found];
      if Spans(whole, target) && kept == v {
        AlreadySet(inner, whole, low, high);
        return;
      }
      TakeOutAgrees(inner, whole);
      Ordered(inner, whole);
      inner := inner - {whole};
      if Spans(whole, target) {
        Carve(whole, Remove(whole, target), kept, target, v, was);
        return;
      }
      var acc := Point(low);
      AbsorbedInside(was, acc, target, v);
      while true
        invariant Sweeping(acc, whole, kept, low, high, v, was)
        decreases MAX - whole.last
      {
        var done;
        acc, done := Absorb(acc, whole, kept, low, high, v, was);
        if done || acc.last >= high {
          break;
        }
        whole := FindHeld(acc.last + 1);
        kept := inner[whole];
        SweepOn(inner, was, acc, whole);
        inner := inner - {whole};
      }
      SealBoth(acc, target, v, was);
    }

    /** The body of the loop of set_range_as up to its exit test. */
    method Absorb(acc: Range, whole: Range, kept: V, low: nat, high: nat, v: V, ghost was: map<Range, V>)
      returns (next: Range, done: bool)
      requires low <= high <= MAX && Canonical(was) && Sweeping(acc, whole, kept, low, high, v, was)
      modifies this
      ensures Ok(next) && next.first <= low && Tiles(inner, next.first, next.last)
      ensures Agrees(inner, was) && Absorbed(was, next, low, high, v)
      ensures if done then next.last == high else next.last == whole.last
    {
      hide CoversBut, Lookup, Agrees, NeighboursDiffer, Absorbed, Carries, MergeWith;
      var target := Range(low, high);
      done := false;
      if kept == v {
        MergeWithUnion(acc, whole);
        next := MergeWith(acc, whole);
        AbsorbedWhole(was, acc, whole, next, target, v);
      } else {
        // The sweep never trims a target that lies strictly inside a range.
        assert Partitions(whole, target) by { TrimOutPartitions(whole, target); }
        var (prior, mid, post) := TrimOut(whole, target);
        MergeWithUnion(acc, mid);
        next := MergeWith(acc, mid);
        AbsorbedJoin(was, acc, mid, next, target, v);
        if prior.Some? {
          PutBefore(inner, was, whole, prior.value, kept);
          inner := inner[prior.value := kept];
        }
        if post.Some? {
          PutAfter(inner, was, whole, acc.first, post.value, kept);
          inner := inner[post.value := kept];
          done := true;
        }
      }
    }

    method FindHeld(p: nat) returns (r: Range)
      requires exists lo, hi :: Tiles(inner, lo, hi) && !(lo <= p <= hi)
      requires p <= MAX
      ensures r in inner && Has(r, p)
    {
      var found := Find(p);
      ghost var lo, hi :| Tiles(inner, lo, hi) && !(lo <= p <= hi);
      assert Held(inner, p);
      r := found.value;
    }

    method FirstWith(v: V) returns (first: Option<nat>)
      requires Valid()
      ensures first.Some? ==> first.value <= MAX && Lookup(inner, first.value) == v
      ensures forall p :: 0 <= p <= MAX && (first.None? || p < first.value) ==> Lookup(inner, p) != v
    {
      var at := 0;
      while at <= MAX
        invariant 0 <= at <= MAX + 1
        invariant at <= MAX ==> forall r :: r in inner && Has(r, at) ==> r.first == at
        invariant forall p :: 0 <= p < at ==> Lookup(inner, p) != v
      {
        var r := FindHeld(at);
        forall p | Has(r, p) ensures Lookup(inner, p) == inner[r] {
          LookupIs(inner, r, p);
        }
        if inner[r] == v {
          return Some(r.first);
        }
        Ordered(inner, r);
        at := r.last + 1;
      }
      return None;
    }
  }
}
