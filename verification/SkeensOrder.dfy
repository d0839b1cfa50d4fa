/** The order in which a chain hands out log positions: entries still waiting for
    their final timestamp, entries that have one, and the two comparisons the
    server uses on them (fuzzy_log_server/src/skeens.rs).

    Stored bytes and reply tokens are abstracted to the entry's id. */
module SkeensOrder {

  /** A uuid, compared as the unsigned number its bytes spell. */
  type Id = nat
  type Time = nat
  type QueueIndex = nat

  /** The three flavours of entry that need a round two. */
  datatype Kind = Multi | Senti | Snap

  /** An entry of the phase-one queue. `Replicated` is used on replicas only. */
  datatype Waiting =
    | Wait(kind: Kind, ts: Time, node: QueueIndex, id: Id)
    | HasMax(kind: Kind, ts: Time, node: QueueIndex, id: Id)
    | Single(ts: Time, node: QueueIndex, id: Id)
    | Replicated(origin: Origin, maxTs: Time, index: nat, id: Id)

  /** What a replicated entry was before its round two arrived. */
  datatype Origin = FromMulti(kind: Kind) | FromSingle

  /** An entry whose final timestamp is known. */
  datatype GotMax =
    | GotMulti(kind: Kind, ts: Time, id: Id)
    | GotSingle(ts: Time, id: Id)

  datatype Ordering = Less | Equal | Greater

  function CmpNat(a: nat, b: nat): Ordering {
    if a < b then Less else if a == b then Equal else Greater
  }

  function Reverse(o: Ordering): Ordering {
    match o
    case Less => Greater
    case Equal => Equal
    case Greater => Less
  }

  predicate HasFinalTs(w: Waiting) {
    !w.Wait?
  }

  function IntoGotMax(w: Waiting): GotMax
    requires w.HasMax? || w.Single?
  {
    if w.HasMax? then GotMulti(w.kind, w.ts, w.id) else GotSingle(w.ts, w.id)
  }

  /** The heap's comparison. The heap is a max-heap, so Greater means earlier.
      Two singles with the same timestamp and id abort the server. */
  function Cmp(a: GotMax, b: GotMax): Ordering
    requires a.GotSingle? && b.GotSingle? ==> a != b
  {
    match (a, b)
    case (GotMulti(_, ats, aid), GotMulti(_, bts, bid)) =>
      if CmpNat(ats, bts) == Equal then Reverse(CmpNat(aid, bid)) else Reverse(CmpNat(ats, bts))
    case (GotMulti(_, ats, _), GotSingle(bts, _)) =>
      if CmpNat(ats, bts) == Equal then Greater else Reverse(CmpNat(ats, bts))
    case (GotSingle(ats, aid), GotSingle(bts, bid)) =>
      if CmpNat(ats, bts) == Equal then Reverse(CmpNat(aid, bid)) else Reverse(CmpNat(ats, bts))
    case (GotSingle(ats, _), GotMulti(_, bts, _)) =>
      if CmpNat(ats, bts) == Equal then Less else Reverse(CmpNat(ats, bts))
  }

  /** May g be flushed while w heads the queue? Only entries without a final
      timestamp and singles are ever asked about. */
  predicate HappensBefore(g: GotMax, w: Waiting)
    requires w.Wait? || w.Single?
  {
    match (g, w)
    case (GotMulti(_, ts, id), Wait(_, other, _, otherId)) =>
      ts < other || (ts == other && id < otherId)
    case (_, _) => g.ts <= w.ts
  }

  // ---------------------------------------------------------------------------
  // The reference order: final timestamp, then multis before singles, then id.

  datatype Key = Key(ts: Time, single: bool, id: Id)

  predicate Before(a: Key, b: Key) {
    || a.ts < b.ts
    || (a.ts == b.ts && !a.single && b.single)
    || (a.ts == b.ts && a.single == b.single && a.id < b.id)
  }

  function KeyOf(g: GotMax): Key {
    Key(g.ts, g.GotSingle?, g.id)
  }

  /** The earliest key a queued entry can still end up with, given the timestamp
      this chain proposed for it. */
  function Earliest(w: Waiting, local: Time): Key {
    Key(local, w.Single?, w.id)
  }

  /** The heap comparison is the reference order, with the earlier entry greater. */
  lemma CmpIsKeyOrder(a: GotMax, b: GotMax)
    requires a.GotSingle? && b.GotSingle? ==> a != b
    ensures Cmp(a, b) == Greater <==> Before(KeyOf(a), KeyOf(b))
    ensures Cmp(a, b) == Less <==> Before(KeyOf(b), KeyOf(a))
    ensures Cmp(a, b) == Equal <==> KeyOf(a) == KeyOf(b)
  {
  }

  /** The flush test is the reference order too, except that a single may also
      pass a waiting multi that was proposed the same timestamp. */
  lemma HappensBeforeIsKeyOrder(g: GotMax, w: Waiting)
    requires w.Wait?
    ensures HappensBefore(g, w) <==>
      Before(KeyOf(g), Earliest(w, w.ts)) || (g.GotSingle? && g.ts == w.ts)
  {
  }

  predicate AtMost(a: Key, b: Key) {
    a == b || Before(a, b)
  }

  // ---------------------------------------------------------------------------
  // The heap, as the set of its elements.

  ghost predicate IsTop(heap: set<GotMax>, g: GotMax) {
    g in heap && forall h :: h in heap ==> AtMost(KeyOf(g), KeyOf(h))
  }

  /** Every non-empty heap has a first element. */
  lemma TopExists(heap: set<GotMax>)
    requires heap != {}
    ensures exists g :: IsTop(heap, g)
    decreases heap
  {
    var x :| x in heap;
    var rest := heap - {x};
    if rest == {} {
      assert heap == {x};
      assert IsTop(heap, x);
    } else {
      TopExists(rest);
      var y :| IsTop(rest, y);
      var best := if Before(KeyOf(x), KeyOf(y)) then x else y;
      forall h | h in heap ensures AtMost(KeyOf(best), KeyOf(h)) {
        if h != x { assert h in rest; }
      }
      assert IsTop(heap, best);
    }
  }

  /** No two heap entries share an id. */
  ghost predicate DistinctIds(heap: set<GotMax>) {
    forall a, b :: a in heap && b in heap && a.id == b.id ==> a == b
  }

  ghost function Top(heap: set<GotMax>): (g: GotMax)
    requires heap != {}
    ensures IsTop(heap, g)
  {
    TopExists(heap);
    var g :| IsTop(heap, g);
    g
  }

  /** With distinct ids the first element is unique, whatever finds it. */
  lemma TopUnique(heap: set<GotMax>, g: GotMax)
    requires IsTop(heap, g) && DistinctIds(heap)
    ensures g == Top(heap)
  {
  }
}
