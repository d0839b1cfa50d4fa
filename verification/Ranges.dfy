/** Closed ranges of 64-bit numbers (struct Range in
    fuzzy_log_util/src/range_tree.rs). */
module Ranges {
  import opened Options

  const MAX: nat := 0xFFFF_FFFF_FFFF_FFFF

  datatype Range = Range(first: nat, last: nat)

  predicate Ok(r: Range) {
    r.first <= r.last <= MAX
  }

  predicate Has(r: Range, p: int) {
    r.first <= p <= r.last
  }

  predicate HasOpt(r: Option<Range>, p: int) {
    r.Some? && Has(r.value, p)
  }

  /** Neither range reaches into the other: what the tree's comparison of keys
      calls Less or Greater. */
  predicate Disjoint(r: Range, s: Range) {
    r.last < s.first || s.last < r.first
  }

  function Point(p: nat): Range {
    Range(p, p)
  }

  predicate Spans(r: Range, o: Range) {
    r.first <= o.first && o.last <= r.last
  }

  /** The code aborts when the ranges neither overlap nor touch in the two
      staggered cases. */
  function MergeWith(r: Range, o: Range): Range
    requires r.first < o.first && r.last < o.last ==> o.first <= r.last + 1
    requires r.first > o.first && r.last > o.last ==> r.first <= o.last + 1
  {
    if r.first == o.first then
      if r.last < o.last then Range(r.first, o.last) else Range(r.first, r.last)
    else if r.first < o.first then
      if r.last < o.last then Range(r.first, o.last) else Range(r.first, r.last)
    else if r.last == o.last then Range(o.first, r.last)
    else if r.last > o.last then Range(o.first, r.last)
    else Range(o.first, o.last)
  }

  /** Merging overlapping or touching ranges is set union. */
  lemma MergeWithUnion(r: Range, o: Range)
    requires Ok(r) && Ok(o) && r.first <= o.last + 1 && o.first <= r.last + 1
    ensures Ok(MergeWith(r, o)) && Spans(MergeWith(r, o), r) && Spans(MergeWith(r, o), o)
    ensures forall p :: Has(MergeWith(r, o), p) <==> Has(r, p) || Has(o, p)
    ensures MergeWith(r, o).first in {r.first, o.first} && MergeWith(r, o).last in {r.last, o.last}
  {
  }

  function SplitAt(r: Range, p: nat): (Option<Range>, Option<Range>) {
    if r.last < p then (Some(r), None)
    else if r.first > p then (None, Some(r))
    else
      (if r.first < p then Some(Range(r.first, p - 1)) else None,
       if r.last > p then Some(Range(p + 1, r.last)) else None)
  }

  /** Unreachable in the code unless r spans o. */
  function Remove(r: Range, o: Range): (Option<Range>, Option<Range>)
    requires Spans(r, o)
  {
    (if r.first < o.first then Some(Range(r.first, o.first - 1)) else None,
     if r.last > o.last then Some(Range(o.last + 1, r.last)) else None)
  }

  /** The pieces are what lies before and after the hole, and nothing else. */
  ghost predicate Around(r: Range, hole: Range, pieces: (Option<Range>, Option<Range>)) {
    && (pieces.0.Some? ==> Ok(pieces.0.value)) && (pieces.1.Some? ==> Ok(pieces.1.value))
    && (forall q :: HasOpt(pieces.0, q) <==> Has(r, q) && q < hole.first)
    && (forall q :: HasOpt(pieces.1, q) <==> Has(r, q) && q > hole.last)
  }

  /** Any point may be split out, of the range or not. */
  lemma SplitAtAround(r: Range, p: nat)
    requires Ok(r) && p <= MAX
    ensures Around(r, Point(p), SplitAt(r, p))
  {
  }

  lemma RemoveAround(r: Range, o: Range)
    requires Ok(r) && Ok(o) && Spans(r, o)
    ensures Around(r, o, Remove(r, o))
  {
  }

  /** The (Less, Greater) branch starts its remainder at o.first + 1, as the code
      does. */
  function TrimOut(r: Range, o: Range): (Option<Range>, Range, Option<Range>)
    requires r.first < o.first && r.last < o.last ==> o.first <= r.last
    requires r.first > o.first && r.last > o.last ==> r.first <= o.last
  {
    if r.first == o.first then
      if r.last > o.last then (None, Range(o.first, o.last), Some(Range(o.last + 1, r.last)))
      else (None, Range(r.first, r.last), None)
    else if r.first < o.first then
      if r.last == o.last then (Some(Range(r.first, o.first - 1)), Range(o.first, r.last), None)
      else if r.last > o.last then
        (Some(Range(r.first, o.first - 1)), Range(o.first, o.last), Some(Range(o.first + 1, r.last)))
      else (Some(Range(r.first, o.first - 1)), Range(o.first, r.last), None)
    else
      if r.last > o.last then (None, Range(r.first, o.last), Some(Range(o.last + 1, r.last)))
      else (None, Range(r.first, r.last), None)
  }

  /** The middle piece is the overlap and the outer pieces are what lies before
      and after it. */
  ghost predicate Partitions(r: Range, o: Range) {
    Ok(r) && Ok(o) && !Disjoint(r, o) &&
    var (pre, mid, post) := TrimOut(r, o);
    forall p :: (Has(mid, p) <==> Has(r, p) && Has(o, p))
      && (HasOpt(pre, p) <==> Has(r, p) && p < o.first)
      && (HasOpt(post, p) <==> Has(r, p) && p > o.last)
  }

  /** Trimming overlapping ranges is right exactly when o does not lie strictly
      inside r, or is a single point. */
  lemma TrimOutPartitions(r: Range, o: Range)
    requires Ok(r) && Ok(o) && !Disjoint(r, o)
    ensures Partitions(r, o) <==> !(r.first < o.first && o.last < r.last) || o.first == o.last
  {
    if r.first < o.first && o.last < r.last && o.first != o.last {
      assert HasOpt(TrimOut(r, o).2, o.first + 1);
    } else {
      var (pre, mid, post) := TrimOut(r, o);
      forall p ensures Has(mid, p) <==> Has(r, p) && Has(o, p) {}
    }
  }

  /** [150, 175] out of [100, 200] leaves [151, 200], where the function's comment and
      its unit test have [176, 200]. */
  lemma TrimOutInside()
    ensures TrimOut(Range(100, 200), Range(150, 175)) == (Some(Range(100, 149)), Range(150, 175), Some(Range(151, 200)))
    ensures !Partitions(Range(100, 200), Range(150, 175))
  {
    TrimOutPartitions(Range(100, 200), Range(150, 175));
  }
}
