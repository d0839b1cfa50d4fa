/** One chain on its head server, as a value: the Skeen's state
    (fuzzy_log_server/src/skeens.rs), the length of the chain's trie, and two
    history variables. The class in ChainHead.dfy performs the same steps in
    place. */
module SkeensChain {
  import opened SkeensOrder

  datatype Status = Phase1(node: QueueIndex) | Phase2(ts: Time) | Singleton(node: QueueIndex)

  datatype AppendRes =
    | OldPhase1(ts: Time)
    | InPhase2(ts: Time)
    | NewAppend(ts: Time, node: QueueIndex)

  datatype SetMaxRes = NeedsFlush | Ok | Duplicate(ts: Time) | NotWaiting

  /** What happened at one point of a chain's delivery order: a flush out of the
      heap, or a single appended directly by a client that had seen minTs. */
  datatype Event =
    | Flushed(g: GotMax, index: nat)
    | Direct(single: Id, minTs: Time, index: nat)

  function EventId(e: Event): Id {
    if e.Flushed? then e.g.id else e.single
  }

  /** Snapshots and sentinels report a horizon and take no slot of their own. */
  predicate Occupies(e: Event) {
    e.Direct? || e.g.GotSingle? || e.g.kind == Multi
  }

  /** Round one of an entry; its position in `accepted` is its queue number. */
  datatype Accepted = Accepted(origin: Origin, id: Id, ts: Time)

  datatype Chain = Chain(
    nextTs: Time,
    lastFlush: Time,
    start: QueueIndex,
    queue: seq<Waiting>,
    heap: set<GotMax>,
    status: map<Id, Status>,
    len: nat,                  // next free index of the trie
    accepted: seq<Accepted>,   // history: every round one, by queue number
    history: seq<Event>)       // history: the delivery order

  /** A fresh chain: ensure_chain has already put one entry at index 0. */
  const EMPTY_CHAIN := Chain(1, 0, 0, [], {}, map[], 1, [], [])

  // ---------------------------------------------------------------------------
  // Steps

  function Bump(s: Chain, t: Time): Chain {
    if s.nextTs <= t then s.(nextTs := t + 1) else s
  }

  function Entry(origin: Origin, ts: Time, node: QueueIndex, id: Id): Waiting {
    match origin
    case FromMulti(k) => Wait(k, ts, node, id)
    case FromSingle => Single(ts, node, id)
  }

  function StatusOf(w: Waiting): Status {
    match w
    case Wait(_, _, n, _) => Phase1(n)
    case Single(_, n, _) => Singleton(n)
    case HasMax(_, ts, _, _) => Phase2(ts)
    case Replicated(_, ts, _, _) => Phase2(ts)
  }

  /** Queue a new entry under the next timestamp. */
  function Push(s: Chain, origin: Origin, id: Id): Chain {
    var node := s.start + |s.queue|;
    var w := Entry(origin, s.nextTs, node, id);
    s.(nextTs := s.nextTs + 1,
       queue := s.queue + [w],
       status := s.status[id := StatusOf(w)],
       accepted := s.accepted + [Accepted(origin, id, s.nextTs)])
  }

  /** Is the queue slot an occupied status points at still there? The server
      aborts on a repeated id whose slot has been popped. */
  predicate Answerable(s: Chain, id: Id) {
    id in s.status && !s.status[id].Phase2? ==>
      s.start <= s.status[id].node < s.start + |s.queue|
  }

  function Existing(s: Chain, id: Id): AppendRes
    requires id in s.status && Answerable(s, id)
  {
    match s.status[id]
    case Phase2(t) => InPhase2(t)
    case Phase1(n) => FromSlot(s.queue[n - s.start])
    case Singleton(n) => FromSlot(s.queue[n - s.start])
  }

  function FromSlot(w: Waiting): AppendRes {
    if w.Wait? then OldPhase1(w.ts)
    else if w.Replicated? then InPhase2(w.maxTs)
    else InPhase2(w.ts)
  }

  /** Round one of a multi-append, sentinel or snapshot. */
  function AddMulti(s: Chain, kind: Kind, id: Id): (Chain, AppendRes)
    requires Answerable(s, id)
  {
    if id in s.status then (s, Existing(s, id))
    else (Push(s, FromMulti(kind), id), NewAppend(s.nextTs, s.start + |s.queue|))
  }

  /** A single append that has to wait its turn. */
  function AddSingle(s: Chain, id: Id, t: Time): (Chain, AppendRes)
    requires s.queue != []
    requires Answerable(s, id)
  {
    var b := Bump(s, t);
    if id in b.status then (b, Existing(b, id))
    else (Push(b, FromSingle, id), NewAppend(b.nextTs, b.start + |b.queue|))
  }

  predicate NeedSingleAt(s: Chain, t: Time) {
    !((s.queue == [] && s.heap == {}) || s.lastFlush >= t)
  }

  function DirectAppend(s: Chain, id: Id, t: Time): Chain {
    var b := Bump(s, t);
    b.(len := b.len + 1, history := b.history + [Direct(id, t, b.len)])
  }

  /** A single append that saw timestamp t: queued, or written straight away. */
  function HandleSingle(s: Chain, id: Id, t: Time): Chain
    requires NeedSingleAt(s, t) ==> s.queue != []
    requires Answerable(s, id)
  {
    if NeedSingleAt(s, t) then AddSingle(s, id, t).0 else DirectAppend(s, id, t)
  }

  /** Record the final timestamp of the entry waiting at queue number n. */
  function SetAt(s: Chain, n: QueueIndex, m: Time): Chain
    requires s.start <= n < s.start + |s.queue| && s.queue[n - s.start].Wait?
  {
    var w := s.queue[n - s.start];
    s.(queue := s.queue[n - s.start := HasMax(w.kind, m, w.node, w.id)],
       status := s.status[w.id := Phase2(m)])
  }

  predicate FrontReady(s: Chain) {
    s.queue != [] && (s.queue[0].HasMax? || s.queue[0].Single?)
  }

  function PopOne(s: Chain): Chain
    requires FrontReady(s)
  {
    s.(start := s.start + 1, queue := s.queue[1..], heap := s.heap + {IntoGotMax(s.queue[0])})
  }

  function PopReady(s: Chain): Chain
    decreases |s.queue|
  {
    if FrontReady(s) then PopReady(PopOne(s)) else s
  }

  ghost predicate CanFlush(s: Chain) {
    s.heap != {} &&
    (s.queue != [] ==> (s.queue[0].Wait? || s.queue[0].Single?) && HappensBefore(Top(s.heap), s.queue[0]))
  }

  /** Where a flushed entry lands, and the trie length afterwards. */
  function Place(g: GotMax, len: nat): (r: (nat, nat))
    requires len > 0
    ensures r.1 > 0
  {
    if g.GotSingle? || g.kind == Multi then (len, len + 1)
    else if g.kind == Snap || len - 1 > 0 then (len - 1, len)
    else (len, len + 1)
  }

  ghost function FlushOne(s: Chain): Chain
    requires CanFlush(s) && s.len > 0
  {
    var g := Top(s.heap);
    var (index, len) := Place(g, s.len);
    s.(heap := s.heap - {g},
       status := s.status - {g.id},
       lastFlush := if g.ts > s.lastFlush then g.ts else s.lastFlush,
       len := len,
       history := s.history + [Flushed(g, index)])
  }

  ghost function Flush(s: Chain): Chain
    requires s.len > 0
    decreases |s.heap|
  {
    if CanFlush(s) then Flush(FlushOne(s)) else s
  }

  /** Is id waiting here for a round two? */
  predicate Awaiting(s: Chain, id: Id) {
    && id in s.status
    && s.status[id].Phase1?
    && s.start <= s.status[id].node < s.start + |s.queue|
    && s.queue[s.status[id].node - s.start].Wait?
    && s.queue[s.status[id].node - s.start].id == id
  }

  /** The timestamp this chain proposed for a waiting id. */
  function Proposed(s: Chain, id: Id): Time
    requires Awaiting(s, id)
  {
    s.queue[s.status[id].node - s.start].ts
  }

  /** A waiting id with its final timestamp. */
  function Marked(s: Chain, id: Id, m: Time): Chain
    requires Awaiting(s, id)
  {
    SetAt(Bump(s, m), s.status[id].node, m)
  }

  /** Round two, up to the flush. */
  function SetMax(s: Chain, id: Id, m: Time): (r: Chain)
    requires Awaiting(s, id)
    ensures r.len == s.len
  {
    var b := Bump(s, m);
    PopReadyFrame(SetAt(b, b.status[id].node, m));
    PopReady(SetAt(b, b.status[id].node, m))
  }

  lemma PopReadyFrame(s: Chain)
    ensures PopReady(s).len == s.len
    ensures PopReady(s).history == s.history
    ensures PopReady(s).accepted == s.accepted
    ensures PopReady(s).nextTs == s.nextTs
    decreases |s.queue|
  {
  }

  /** Round two with the flush it triggers. */
  ghost function FinishMulti(s: Chain, id: Id, m: Time): Chain
    requires s.len > 0 && Awaiting(s, id)
  {
    Flush(SetMax(s, id, m))
  }

  // ---------------------------------------------------------------------------
  // Invariant. Each part takes the components it speaks about.

  ghost predicate ClockInv(nextTs: Time, lastFlush: Time, accepted: seq<Accepted>, heap: set<GotMax>) {
    && lastFlush < nextTs
    && (forall n :: 0 <= n < |accepted| ==> 0 < accepted[n].ts < nextTs)
    && (forall n, m :: 0 <= n < m < |accepted| ==> accepted[n].ts < accepted[m].ts)
    && (forall g :: g in heap ==> g.ts < nextTs)
  }

  /** w is the queued form of round one a, at queue number n. */
  predicate Matches(w: Waiting, n: QueueIndex, a: Accepted) {
    match w
    case Wait(k, ts, node, id) => node == n && id == a.id && a.origin == FromMulti(k) && ts == a.ts
    case HasMax(k, ts, node, id) => node == n && id == a.id && a.origin == FromMulti(k) && a.ts <= ts
    case Single(ts, node, id) => node == n && id == a.id && a.origin == FromSingle && ts == a.ts
    case Replicated(_, _, _, _) => false
  }

  /** g is the finished form of round one a. */
  predicate Completes(g: GotMax, a: Accepted) {
    match g
    case GotMulti(k, ts, id) => id == a.id && a.origin == FromMulti(k) && a.ts <= ts
    case GotSingle(ts, id) => id == a.id && a.origin == FromSingle && ts == a.ts
  }

  ghost predicate QueueInv(start: QueueIndex, queue: seq<Waiting>, accepted: seq<Accepted>, nextTs: Time) {
    && |accepted| == start + |queue|
    && (forall i :: 0 <= i < |queue| ==> Matches(queue[i], start + i, accepted[start + i]))
    && (forall i :: 0 <= i < |queue| ==> queue[i].ts < nextTs)
  }

  ghost predicate PoppedAs(accepted: seq<Accepted>, start: QueueIndex, g: GotMax, n: int) {
    0 <= n < start && n < |accepted| && Completes(g, accepted[n])
  }

  ghost predicate Popped(accepted: seq<Accepted>, start: QueueIndex, g: GotMax) {
    exists n :: PoppedAs(accepted, start, g, n)
  }

  predicate FlushedAt(history: seq<Event>, j: int) {
    0 <= j < |history| && history[j].Flushed?
  }

  predicate DirectAt(history: seq<Event>, j: int) {
    0 <= j < |history| && history[j].Direct?
  }

  ghost predicate AcceptedIdsInv(accepted: seq<Accepted>) {
    forall n, m :: 0 <= n < m < |accepted| ==> accepted[n].id != accepted[m].id
  }

  ghost predicate PoppedInv(accepted: seq<Accepted>, start: QueueIndex, heap: set<GotMax>, history: seq<Event>) {
    && (forall g :: g in heap ==> Popped(accepted, start, g))
    && (forall j :: FlushedAt(history, j) ==> Popped(accepted, start, history[j].g))
  }

  ghost predicate HistoryIdsInv(heap: set<GotMax>, history: seq<Event>) {
    && DistinctIds(heap)
    && (forall i, j :: 0 <= i < j < |history| ==> EventId(history[i]) != EventId(history[j]))
    && (forall g, j :: g in heap && 0 <= j < |history| ==> g.id != EventId(history[j]))
  }

  ghost predicate DirectIdsInv(accepted: seq<Accepted>, history: seq<Event>) {
    forall n, j :: 0 <= n < |accepted| && DirectAt(history, j) ==> accepted[n].id != EventId(history[j])
  }

  ghost predicate InHeap(heap: set<GotMax>, id: Id) {
    exists g :: g in heap && g.id == id
  }

  ghost predicate Delivered(history: seq<Event>, id: Id) {
    exists j :: FlushedAt(history, j) && history[j].g.id == id
  }

  ghost predicate InQueue(queue: seq<Waiting>, id: Id) {
    exists i :: 0 <= i < |queue| && queue[i].id == id
  }

  /** Nothing is lost: what left the queue is in the heap or delivered. */
  ghost predicate CoverInv(accepted: seq<Accepted>, start: QueueIndex, heap: set<GotMax>, history: seq<Event>) {
    forall n :: 0 <= n < start && n < |accepted| ==>
      InHeap(heap, accepted[n].id) || Delivered(history, accepted[n].id)
  }

  /** The status map's ids are exactly the queued ids and the heap's ids. */
  ghost predicate StatusInv(status: map<Id, Status>, start: QueueIndex, queue: seq<Waiting>, heap: set<GotMax>) {
    && (forall id :: id in status ==> InQueue(queue, id) || InHeap(heap, id))
    && (forall i :: 0 <= i < |queue| ==> queue[i].id in status && status[queue[i].id] == StatusOf(queue[i]))
    && (forall g :: g in heap ==> g.id in status && (g.GotMulti? ==> status[g.id] == Phase2(g.ts)))
    && (forall g :: g in heap && g.GotSingle? ==> status[g.id].Singleton? && status[g.id].node < start)
  }

  /** The earliest key an accepted entry can end up with. */
  function EarliestKey(a: Accepted): Key {
    Key(a.ts, a.origin.FromSingle?, a.id)
  }

  /** Deliveries are strictly increasing, and everything still pending can only
      come out later than everything already delivered. */
  ghost predicate OrderInv(history: seq<Event>, heap: set<GotMax>, start: QueueIndex, accepted: seq<Accepted>) {
    && (forall i, j :: FlushedAt(history, i) && FlushedAt(history, j) && i < j ==>
          Before(KeyOf(history[i].g), KeyOf(history[j].g)))
    && (forall i, g :: FlushedAt(history, i) && g in heap ==> Before(KeyOf(history[i].g), KeyOf(g)))
    && (forall i, n :: FlushedAt(history, i) && start <= n < |accepted| ==>
          Before(KeyOf(history[i].g), EarliestKey(accepted[n])))
  }

  ghost predicate FlushedWith(history: seq<Event>, ts: Time) {
    exists i :: FlushedAt(history, i) && history[i].g.ts == ts
  }

  /** The timestamp of the last flush is the largest one delivered, and everything
      still pending is at or above it. */
  ghost predicate LastFlushInv(lastFlush: Time, history: seq<Event>, heap: set<GotMax>, start: QueueIndex,
                               accepted: seq<Accepted>) {
    && (forall i :: FlushedAt(history, i) ==> history[i].g.ts <= lastFlush)
    && (lastFlush > 0 ==> FlushedWith(history, lastFlush))
    && (forall g :: g in heap ==> lastFlush <= g.ts)
    && (forall n :: start <= n < |accepted| ==> lastFlush <= accepted[n].ts)
  }

  /** Whatever is delivered after a direct append has a timestamp of at least
      the one its client had seen. */
  ghost predicate DirectInv(history: seq<Event>, nextTs: Time, heap: set<GotMax>, start: QueueIndex,
                            accepted: seq<Accepted>) {
    && (forall i :: DirectAt(history, i) ==> history[i].minTs < nextTs)
    && (forall i, j :: DirectAt(history, i) && FlushedAt(history, j) && i < j ==> history[i].minTs <= history[j].g.ts)
    && (forall i, g :: DirectAt(history, i) && g in heap ==> history[i].minTs <= g.ts)
    && (forall i, n :: DirectAt(history, i) && start <= n < |accepted| ==> history[i].minTs <= accepted[n].ts)
  }

  /** The index of the event before position i; index 0 is taken from the start. */
  function Prev(history: seq<Event>, i: int): nat {
    if 0 < i <= |history| then history[i - 1].index else 0
  }

  /** Does an event behind index prev take the next slot of the trie? A sentinel does
      when there is nothing yet that it could name. */
  predicate TakesSlot(e: Event, prev: nat) {
    e.Direct? || e.g.GotSingle? || e.g.kind == Multi || (e.g.kind == Senti && prev == 0)
  }

  /** Event i has the slot after the one before it, or names that one. */
  predicate Indexed(history: seq<Event>, i: int) {
    0 <= i < |history| ==>
      history[i].index == Prev(history, i) + if TakesSlot(history[i], Prev(history, i)) then 1 else 0
  }

  /** Indices follow the delivery order: an entry lies right above everything before
      it, a snapshot's horizon covers exactly what precedes it. */
  ghost predicate IndexInv(history: seq<Event>, len: nat) {
    && len == Prev(history, |history|) + 1
    && (forall i :: Indexed(history, i))
    && (forall i :: 0 <= i < |history| ==> history[i].index < len)
    && (forall i, j :: 0 <= i < j < |history| ==> history[i].index <= history[j].index)
    && (forall i, j :: 0 <= i < j < |history| && Occupies(history[j]) ==> history[i].index < history[j].index)
  }

  ghost predicate Core(s: Chain) {
    && ClockInv(s.nextTs, s.lastFlush, s.accepted, s.heap)
    && QueueInv(s.start, s.queue, s.accepted, s.nextTs)
    && AcceptedIdsInv(s.accepted)
    && PoppedInv(s.accepted, s.start, s.heap, s.history)
    && HistoryIdsInv(s.heap, s.history)
    && DirectIdsInv(s.accepted, s.history)
    && CoverInv(s.accepted, s.start, s.heap, s.history)
    && StatusInv(s.status, s.start, s.queue, s.heap)
    && OrderInv(s.history, s.heap, s.start, s.accepted)
    && LastFlushInv(s.lastFlush, s.history, s.heap, s.start, s.accepted)
    && DirectInv(s.history, s.nextTs, s.heap, s.start, s.accepted)
    && IndexInv(s.history, s.len)
  }

  /** Nothing is held back without a reason: a non-empty queue is headed by an
      entry awaiting its round two, and that entry could still come before
      everything in the heap. */
  ghost predicate Settled(s: Chain) {
    && (s.queue != [] ==> s.queue[0].Wait?)
    && (s.heap != {} ==> s.queue != [])
    && (forall g :: g in s.heap && s.queue != [] ==> !HappensBefore(g, s.queue[0]))
  }

  ghost predicate Inv(s: Chain) {
    Core(s) && Settled(s)
  }

  ghost predicate Fresh(s: Chain, id: Id) {
    && (forall n :: 0 <= n < |s.accepted| ==> s.accepted[n].id != id)
    && (forall j :: 0 <= j < |s.history| ==> EventId(s.history[j]) != id)
  }

  lemma EmptyInv()
    ensures Inv(EMPTY_CHAIN)
  {
  }

  // ---------------------------------------------------------------------------
  // Every step keeps the invariant

  lemma BumpCore(s: Chain, t: Time)
    requires Core(s)
    ensures Core(Bump(s, t))
    ensures Settled(s) ==> Settled(Bump(s, t))
    ensures t < Bump(s, t).nextTs && s.nextTs <= Bump(s, t).nextTs
  {
    hide AcceptedIdsInv, PoppedInv, HistoryIdsInv, DirectIdsInv, CoverInv, StatusInv, OrderInv, LastFlushInv,
      IndexInv;
  }

  lemma PoppedGrows(a: seq<Accepted>, start: QueueIndex, b: seq<Accepted>, later: QueueIndex)
    requires a <= b && start <= later
    ensures forall g :: Popped(a, start, g) ==> Popped(b, later, g)
  {
    forall g | Popped(a, start, g) ensures Popped(b, later, g) {
      var n :| PoppedAs(a, start, g, n);
      assert PoppedAs(b, later, g, n);
    }
  }

  ghost predicate IsAccepted(accepted: seq<Accepted>, id: Id) {
    exists n :: 0 <= n < |accepted| && accepted[n].id == id
  }

  lemma FreshNotInStatus(s: Chain, id: Id)
    requires Core(s) && Fresh(s, id)
    ensures id !in s.status
  {
  }

  lemma PushClock(nextTs: Time, lastFlush: Time, accepted: seq<Accepted>, heap: set<GotMax>, a: Accepted)
    requires ClockInv(nextTs, lastFlush, accepted, heap) && a.ts == nextTs && nextTs > 0
    ensures ClockInv(nextTs + 1, lastFlush, accepted + [a], heap)
  {
  }

  lemma PushQueue(start: QueueIndex, queue: seq<Waiting>, accepted: seq<Accepted>, nextTs: Time, origin: Origin, id: Id)
    requires QueueInv(start, queue, accepted, nextTs)
    ensures QueueInv(start, queue + [Entry(origin, nextTs, start + |queue|, id)],
                     accepted + [Accepted(origin, id, nextTs)], nextTs + 1)
  {
    var q, acc := queue + [Entry(origin, nextTs, start + |queue|, id)], accepted + [Accepted(origin, id, nextTs)];
    forall i | 0 <= i < |q| ensures Matches(q[i], start + i, acc[start + i]) && q[i].ts < nextTs + 1 {
      if i < |queue| {
        assert q[i] == queue[i] && acc[start + i] == accepted[start + i];
        assert Matches(queue[i], start + i, accepted[start + i]);
      } else {
        assert acc[start + i] == Accepted(origin, id, nextTs);
      }
    }
  }

  lemma PushIds(s: Chain, origin: Origin, id: Id)
    requires Core(s) && Fresh(s, id)
    ensures var r := Push(s, origin, id);
      && AcceptedIdsInv(r.accepted)
      && PoppedInv(r.accepted, r.start, r.heap, r.history)
      && DirectIdsInv(r.accepted, r.history)
      && CoverInv(r.accepted, r.start, r.heap, r.history)
  {
    var r := Push(s, origin, id);
    PoppedGrows(s.accepted, s.start, r.accepted, r.start);
  }

  lemma PushStatus(s: Chain, origin: Origin, id: Id)
    requires StatusInv(s.status, s.start, s.queue, s.heap) && id !in s.status
    ensures var r := Push(s, origin, id); StatusInv(r.status, r.start, r.queue, r.heap)
  {
    var r := Push(s, origin, id);
    forall x | x in r.status ensures InQueue(r.queue, x) || InHeap(r.heap, x) {
      if x == id {
        assert r.queue[|s.queue|].id == id;
      } else if i :| 0 <= i < |s.queue| && s.queue[i].id == x {
        assert r.queue[i].id == x;
      } else {
        assert !InQueue(s.queue, x);
      }
    }
  }

  lemma PushOrder(history: seq<Event>, heap: set<GotMax>, start: QueueIndex, accepted: seq<Accepted>, a: Accepted)
    requires OrderInv(history, heap, start, accepted)
    requires forall i :: FlushedAt(history, i) ==> history[i].g.ts < a.ts
    ensures OrderInv(history, heap, start, accepted + [a])
  {
  }

  lemma PushBounds(s: Chain, a: Accepted)
    requires LastFlushInv(s.lastFlush, s.history, s.heap, s.start, s.accepted)
    requires DirectInv(s.history, s.nextTs, s.heap, s.start, s.accepted)
    requires s.lastFlush < s.nextTs == a.ts
    ensures LastFlushInv(s.lastFlush, s.history, s.heap, s.start, s.accepted + [a])
    ensures DirectInv(s.history, s.nextTs + 1, s.heap, s.start, s.accepted + [a])
    ensures forall i :: FlushedAt(s.history, i) ==> s.history[i].g.ts < a.ts
  {
  }

  /** Raising the clock past t goes no further than it has to. */
  lemma BumpLeast(s: Chain, t: Time, n: Time)
    ensures t < Bump(s, t).nextTs && s.nextTs <= Bump(s, t).nextTs
    ensures t < n && s.nextTs <= n ==> Bump(s, t).nextTs <= n
  {
  }

  lemma BumpInv(s: Chain, t: Time)
    requires Inv(s)
    ensures Inv(Bump(s, t))
  {
    hide Core;
    BumpCore(s, t);
  }

  lemma PushCore(s: Chain, origin: Origin, id: Id)
    requires Core(s) && Fresh(s, id)
    ensures Core(Push(s, origin, id))
  {
    hide ClockInv, QueueInv, AcceptedIdsInv, PoppedInv, HistoryIdsInv, DirectIdsInv, CoverInv, StatusInv, OrderInv,
      LastFlushInv, DirectInv, IndexInv;
    FreshNotInStatus(s, id);
    ClockParts(s);
    var a := Accepted(origin, id, s.nextTs);
    PushClock(s.nextTs, s.lastFlush, s.accepted, s.heap, a);
    PushQueue(s.start, s.queue, s.accepted, s.nextTs, origin, id);
    PushIds(s, origin, id);
    PushStatus(s, origin, id);
    PushBounds(s, a);
    PushOrder(s.history, s.heap, s.start, s.accepted, a);
  }

  lemma ClockParts(s: Chain)
    requires ClockInv(s.nextTs, s.lastFlush, s.accepted, s.heap)
    ensures s.lastFlush < s.nextTs
  {
  }

  // --- a final timestamp arrives

  lemma SetAtQueue(start: QueueIndex, queue: seq<Waiting>, accepted: seq<Accepted>, nextTs: Time, k: nat, m: Time)
    requires QueueInv(start, queue, accepted, nextTs)
    requires k < |queue| && queue[k].Wait? && queue[k].ts <= m < nextTs
    ensures QueueInv(start, queue[k := HasMax(queue[k].kind, m, queue[k].node, queue[k].id)], accepted, nextTs)
  {
  }

  lemma SetAtStatus(status: map<Id, Status>, start: QueueIndex, queue: seq<Waiting>, heap: set<GotMax>, k: nat, m: Time)
    requires StatusInv(status, start, queue, heap)
    requires k < |queue| && queue[k].Wait?
    requires forall i :: 0 <= i < |queue| && i != k ==> queue[i].id != queue[k].id
    requires forall g :: g in heap ==> g.id != queue[k].id
    ensures StatusInv(status[queue[k].id := Phase2(m)], start,
                      queue[k := HasMax(queue[k].kind, m, queue[k].node, queue[k].id)], heap)
  {
    var r := queue[k := HasMax(queue[k].kind, m, queue[k].node, queue[k].id)];
    forall x | InQueue(queue, x) ensures InQueue(r, x) {
      var i :| 0 <= i < |queue| && queue[i].id == x;
      assert r[i].id == x;
    }
  }

  lemma SetAtCore(s: Chain, n: QueueIndex, m: Time)
    requires Core(s)
    requires s.start <= n < s.start + |s.queue| && s.queue[n - s.start].Wait?
    requires s.queue[n - s.start].ts <= m < s.nextTs
    ensures Core(SetAt(s, n, m))
  {
    hide ClockInv, QueueInv, AcceptedIdsInv, PoppedInv, HistoryIdsInv, DirectIdsInv, CoverInv, StatusInv, OrderInv,
      LastFlushInv, DirectInv, IndexInv;
    var k := n - s.start;
    QueueIdsDistinct(s);
    forall g | g in s.heap ensures g.id != s.queue[k].id { HeapNotQueued(s, g, k); }
    SetAtQueue(s.start, s.queue, s.accepted, s.nextTs, k, m);
    SetAtStatus(s.status, s.start, s.queue, s.heap, k, m);
  }

  lemma QueueIdsDistinct(s: Chain)
    requires Core(s)
    ensures forall i, j :: 0 <= i < j < |s.queue| ==> s.queue[i].id != s.queue[j].id
  {
  }

  lemma HeapNotQueued(s: Chain, g: GotMax, k: nat)
    requires Core(s) && g in s.heap && k < |s.queue|
    ensures g.id != s.queue[k].id
  {
  }

  // --- the queue's front moves to the heap

  lemma PopOneIds(s: Chain)
    requires Core(s) && FrontReady(s)
    ensures var r := PopOne(s);
      && PoppedInv(r.accepted, r.start, r.heap, r.history)
      && HistoryIdsInv(r.heap, r.history)
      && CoverInv(r.accepted, r.start, r.heap, r.history)
  {
    hide ClockInv, OrderInv, LastFlushInv, DirectInv, StatusInv, IndexInv;
    var r := PopOne(s);
    var w := s.queue[0];
    var g := IntoGotMax(w);
    assert Matches(w, s.start, s.accepted[s.start]);
    assert PoppedAs(r.accepted, r.start, g, s.start);
    PoppedGrows(s.accepted, s.start, r.accepted, r.start);
    forall h | h in s.heap ensures h.id != g.id { HeapNotQueued(s, h, 0); }
    forall j | 0 <= j < |s.history| ensures EventId(s.history[j]) != g.id { HistoryNotQueued(s, j, 0); }
    forall n | 0 <= n < r.start && n < |r.accepted|
      ensures InHeap(r.heap, r.accepted[n].id) || Delivered(r.history, r.accepted[n].id)
    {
      if n == s.start {
        assert g in r.heap;
      } else if h :| h in s.heap && h.id == s.accepted[n].id {
        assert h in r.heap;
      } else {
        assert !InHeap(s.heap, s.accepted[n].id);
      }
    }
  }

  lemma HistoryNotQueued(s: Chain, j: nat, k: nat)
    requires Core(s) && j < |s.history| && k < |s.queue|
    ensures EventId(s.history[j]) != s.queue[k].id
  {
  }

  lemma PopOneStatus(s: Chain)
    requires Core(s) && FrontReady(s)
    ensures var r := PopOne(s); StatusInv(r.status, r.start, r.queue, r.heap)
  {
    var r := PopOne(s);
    var g := IntoGotMax(s.queue[0]);
    forall x | x in r.status ensures InQueue(r.queue, x) || InHeap(r.heap, x) {
      if x == g.id {
        assert g in r.heap;
      } else if i :| 0 <= i < |s.queue| && s.queue[i].id == x {
        assert r.queue[i - 1].id == x;
      } else {
        assert !InQueue(s.queue, x);
        var h :| h in s.heap && h.id == x;
        assert h in r.heap;
      }
    }
  }

  lemma PopOneOrder(s: Chain)
    requires Core(s) && FrontReady(s)
    ensures var r := PopOne(s);
      && ClockInv(r.nextTs, r.lastFlush, r.accepted, r.heap)
      && OrderInv(r.history, r.heap, r.start, r.accepted)
      && LastFlushInv(r.lastFlush, r.history, r.heap, r.start, r.accepted)
      && DirectInv(r.history, r.nextTs, r.heap, r.start, r.accepted)
  {
    hide AcceptedIdsInv, PoppedInv, HistoryIdsInv, DirectIdsInv, CoverInv, StatusInv, IndexInv;
    var w := s.queue[0];
    var g := IntoGotMax(w);
    assert Matches(w, s.start, s.accepted[s.start]);
    assert AtMost(EarliestKey(s.accepted[s.start]), KeyOf(g));
  }

  lemma PopOneCore(s: Chain)
    requires Core(s) && FrontReady(s)
    ensures Core(PopOne(s))
  {
    hide ClockInv, QueueInv, AcceptedIdsInv, PoppedInv, HistoryIdsInv, DirectIdsInv, CoverInv, StatusInv, OrderInv,
      LastFlushInv, DirectInv, IndexInv;
    PopOneIds(s);
    PopOneStatus(s);
    PopOneOrder(s);
    PopQueue(s.start, s.queue, s.accepted, s.nextTs);
  }

  lemma PopQueue(start: QueueIndex, queue: seq<Waiting>, accepted: seq<Accepted>, nextTs: Time)
    requires QueueInv(start, queue, accepted, nextTs) && queue != []
    ensures QueueInv(start + 1, queue[1..], accepted, nextTs)
  {
    forall i | 0 <= i < |queue[1..]| ensures Matches(queue[1..][i], start + 1 + i, accepted[start + 1 + i]) {
      assert Matches(queue[i + 1], start + (i + 1), accepted[start + (i + 1)]);
    }
  }

  lemma {:induction false} PopReadyCore(s: Chain)
    requires Core(s)
    ensures Core(PopReady(s)) && !FrontReady(PopReady(s))
    decreases |s.queue|
  {
    hide Core;
    if FrontReady(s) {
      PopOneCore(s);
      PopReadyCore(PopOne(s));
    }
  }

  // --- the heap's first entry is delivered

  lemma FlushOneIds(s: Chain)
    requires Core(s) && CanFlush(s)
    ensures var r := FlushOne(s);
      && PoppedInv(r.accepted, r.start, r.heap, r.history)
      && HistoryIdsInv(r.heap, r.history)
      && DirectIdsInv(r.accepted, r.history)
  {
    hide ClockInv, QueueInv, OrderInv, LastFlushInv, DirectInv, StatusInv, CoverInv;
    var r := FlushOne(s);
    var g := Top(s.heap);
    forall j | FlushedAt(r.history, j) ensures Popped(r.accepted, r.start, r.history[j].g) {
      if j < |s.history| { assert FlushedAt(s.history, j); }
    }
    forall n, j | 0 <= n < |r.accepted| && DirectAt(r.history, j)
      ensures r.accepted[n].id != EventId(r.history[j])
    {
      assert DirectAt(s.history, j);
    }
  }

  lemma FlushOneCover(s: Chain)
    requires Core(s) && CanFlush(s)
    ensures var r := FlushOne(s); CoverInv(r.accepted, r.start, r.heap, r.history)
  {
    hide ClockInv, QueueInv, OrderInv, LastFlushInv, DirectInv, StatusInv, PoppedInv, DirectIdsInv;
    var r := FlushOne(s);
    var g := Top(s.heap);
    var last := |s.history|;
    assert FlushedAt(r.history, last) && r.history[last].g == g;
    forall n | 0 <= n < r.start && n < |r.accepted|
      ensures InHeap(r.heap, r.accepted[n].id) || Delivered(r.history, r.accepted[n].id)
    {
      if h :| h in s.heap && h.id == s.accepted[n].id {
        if h != g { assert h in r.heap; }
      } else {
        assert !InHeap(s.heap, s.accepted[n].id);
        var j :| FlushedAt(s.history, j) && s.history[j].g.id == s.accepted[n].id;
        assert FlushedAt(r.history, j);
      }
    }
  }

  lemma FlushOneStatus(s: Chain)
    requires Core(s) && CanFlush(s)
    ensures var r := FlushOne(s); StatusInv(r.status, r.start, r.queue, r.heap)
  {
    hide ClockInv, OrderInv, LastFlushInv, DirectInv, CoverInv, DirectIdsInv, AcceptedIdsInv, PoppedInv, QueueInv;
    var r := FlushOne(s);
    var g := Top(s.heap);
    forall x | x in r.status ensures InQueue(r.queue, x) || InHeap(r.heap, x) {
      if h :| h in s.heap && h.id == x {
        assert h in r.heap;
      } else {
        assert !InHeap(s.heap, x);
      }
    }
    forall i | 0 <= i < |r.queue| ensures r.queue[i].id != g.id { HeapNotQueued(s, g, i); }
  }

  /** What may be flushed now precedes everything still queued. */
  lemma FlushablePrecedes(s: Chain, n: nat)
    requires Core(s) && CanFlush(s) && s.start <= n < |s.accepted|
    ensures Before(KeyOf(Top(s.heap)), EarliestKey(s.accepted[n]))
  {
    hide HistoryIdsInv, DirectIdsInv, CoverInv, StatusInv, OrderInv, LastFlushInv, DirectInv, IndexInv;
    var g := Top(s.heap);
    var w := s.queue[0];
    assert Matches(w, s.start, s.accepted[s.start]);
    var p :| PoppedAs(s.accepted, s.start, g, p);
    assert s.accepted[p].ts < s.accepted[s.start].ts;
  }

  lemma DeliverOrder(history: seq<Event>, heap: set<GotMax>, start: QueueIndex, accepted: seq<Accepted>, e: Event)
    requires OrderInv(history, heap, start, accepted)
    requires e.Flushed? && e.g in heap
    requires forall n :: start <= n < |accepted| ==> Before(KeyOf(e.g), EarliestKey(accepted[n]))
    requires forall h :: h in heap && h != e.g ==> Before(KeyOf(e.g), KeyOf(h))
    ensures OrderInv(history + [e], heap - {e.g}, start, accepted)
  {
  }

  lemma DeliverDirect(history: seq<Event>, nextTs: Time, heap: set<GotMax>, start: QueueIndex,
                      accepted: seq<Accepted>, e: Event)
    requires DirectInv(history, nextTs, heap, start, accepted)
    requires e.Flushed? && e.g in heap
    ensures DirectInv(history + [e], nextTs, heap - {e.g}, start, accepted)
  {
  }

  lemma DeliverIndex(history: seq<Event>, len: nat, g: GotMax)
    requires IndexInv(history, len)
    ensures IndexInv(history + [Flushed(g, Place(g, len).0)], Place(g, len).1)
  {
    IndexedMore(history, Flushed(g, Place(g, len).0));
  }

  lemma IndexedMore(history: seq<Event>, e: Event)
    requires forall i :: Indexed(history, i)
    requires e.index == Prev(history, |history|) + if TakesSlot(e, Prev(history, |history|)) then 1 else 0
    ensures forall i :: Indexed(history + [e], i)
  {
    forall i ensures Indexed(history + [e], i) {
      assert Indexed(history, i);
      assert 0 <= i <= |history| ==> Prev(history + [e], i) == Prev(history, i);
    }
  }

  lemma FlushOneLastFlush(s: Chain)
    requires LastFlushInv(s.lastFlush, s.history, s.heap, s.start, s.accepted)
    requires CanFlush(s) && s.len > 0
    requires forall n :: s.start <= n < |s.accepted| ==> Before(KeyOf(Top(s.heap)), EarliestKey(s.accepted[n]))
    ensures var r := FlushOne(s); LastFlushInv(r.lastFlush, r.history, r.heap, r.start, r.accepted)
  {
    var r := FlushOne(s);
    assert FlushedAt(r.history, |s.history|) && r.history[|s.history|].g.ts == r.lastFlush;
  }

  lemma FlushOneOrder(s: Chain)
    requires Core(s) && CanFlush(s)
    ensures var r := FlushOne(s);
      && OrderInv(r.history, r.heap, r.start, r.accepted)
      && LastFlushInv(r.lastFlush, r.history, r.heap, r.start, r.accepted)
      && DirectInv(r.history, r.nextTs, r.heap, r.start, r.accepted)
      && IndexInv(r.history, r.len)
  {
    var g := Top(s.heap);
    forall n | s.start <= n < |s.accepted| ensures Before(KeyOf(g), EarliestKey(s.accepted[n])) {
      FlushablePrecedes(s, n);
    }
    var e := Flushed(g, Place(g, s.len).0);
    DeliverOrder(s.history, s.heap, s.start, s.accepted, e);
    DeliverDirect(s.history, s.nextTs, s.heap, s.start, s.accepted, e);
    DeliverIndex(s.history, s.len, g);
    FlushOneLastFlush(s);
  }

  lemma FlushOneClock(s: Chain)
    requires ClockInv(s.nextTs, s.lastFlush, s.accepted, s.heap) && s.heap != {} && CanFlush(s) && s.len > 0
    requires DistinctIds(s.heap)
    ensures var r := FlushOne(s); ClockInv(r.nextTs, r.lastFlush, r.accepted, r.heap)
  {
  }

  lemma HeapDistinct(s: Chain)
    requires HistoryIdsInv(s.heap, s.history)
    ensures DistinctIds(s.heap)
  {
  }

  lemma FlushOneCore(s: Chain)
    requires Core(s) && CanFlush(s)
    ensures Core(FlushOne(s))
  {
    hide ClockInv, QueueInv, AcceptedIdsInv, PoppedInv, HistoryIdsInv, DirectIdsInv, CoverInv, StatusInv, OrderInv,
      LastFlushInv, DirectInv;
    HeapDistinct(s);
    FlushOneClock(s);
    FlushOneIds(s);
    FlushOneCover(s);
    FlushOneStatus(s);
    FlushOneOrder(s);
  }

  lemma {:induction false} FlushCore(s: Chain)
    requires Core(s) && (s.queue != [] ==> s.queue[0].Wait?)
    ensures Inv(Flush(s))
    decreases |s.heap|
  {
    hide OrderInv, LastFlushInv, DirectInv, StatusInv, CoverInv, DirectIdsInv;
    if CanFlush(s) {
      FlushOneCore(s);
      FlushCore(FlushOne(s));
    } else if s.heap != {} {
      var t := Top(s.heap);
      forall g | g in s.heap ensures !HappensBefore(g, s.queue[0]) {
        assert AtMost(KeyOf(t), KeyOf(g));
        HappensBeforeIsKeyOrder(g, s.queue[0]);
        HappensBeforeIsKeyOrder(t, s.queue[0]);
      }
    }
  }

  // --- whole operations

  lemma RecordDirect(history: seq<Event>, nextTs: Time, heap: set<GotMax>, start: QueueIndex,
                     accepted: seq<Accepted>, e: Event)
    requires DirectInv(history, nextTs, heap, start, accepted)
    requires OrderInv(history, heap, start, accepted)
    requires e.Direct? && e.minTs < nextTs
    requires forall g :: g in heap ==> e.minTs <= g.ts
    requires forall n :: start <= n < |accepted| ==> e.minTs <= accepted[n].ts
    ensures DirectInv(history + [e], nextTs, heap, start, accepted)
    ensures OrderInv(history + [e], heap, start, accepted)
  {
  }

  lemma RecordDirectIds(s: Chain, e: Event)
    requires Core(s) && e.Direct? && Fresh(s, e.single)
    ensures
      && PoppedInv(s.accepted, s.start, s.heap, s.history + [e])
      && HistoryIdsInv(s.heap, s.history + [e])
      && DirectIdsInv(s.accepted, s.history + [e])
      && LastFlushInv(s.lastFlush, s.history + [e], s.heap, s.start, s.accepted)
  {
    hide ClockInv, QueueInv, CoverInv, StatusInv, OrderInv, DirectInv, IndexInv;
    var r := s.history + [e];
    assert forall i :: FlushedAt(r, i) ==> FlushedAt(s.history, i) && r[i] == s.history[i];
    forall g | g in s.heap ensures g.id != e.single {
      var n :| PoppedAs(s.accepted, s.start, g, n);
    }
  }

  lemma RecordCover(accepted: seq<Accepted>, start: QueueIndex, heap: set<GotMax>, history: seq<Event>, e: Event)
    requires CoverInv(accepted, start, heap, history)
    ensures CoverInv(accepted, start, heap, history + [e])
  {
    forall x | Delivered(history, x) ensures Delivered(history + [e], x) {
      var j :| FlushedAt(history, j) && history[j].g.id == x;
      assert FlushedAt(history + [e], j);
    }
  }

  lemma RecordIndex(history: seq<Event>, len: nat, id: Id, t: Time)
    requires IndexInv(history, len)
    ensures IndexInv(history + [Direct(id, t, len)], len + 1)
  {
    IndexedMore(history, Direct(id, t, len));
  }

  /** Nothing held comes before the direct append's timestamp. */
  lemma HeldFrom(s: Chain, t: Time)
    requires QueueInv(s.start, s.queue, s.accepted, s.nextTs)
    requires LastFlushInv(s.lastFlush, s.history, s.heap, s.start, s.accepted)
    requires (s.queue == [] && s.heap == {}) || s.lastFlush >= t
    ensures forall g :: g in s.heap ==> t <= g.ts
    ensures forall n :: s.start <= n < |s.accepted| ==> t <= s.accepted[n].ts
  {
  }

  lemma RecordDirectCore(b: Chain, id: Id, t: Time)
    requires Core(b) && Fresh(b, id) && t < b.nextTs
    requires (b.queue == [] && b.heap == {}) || b.lastFlush >= t
    ensures Core(b.(len := b.len + 1, history := b.history + [Direct(id, t, b.len)]))
  {
    hide ClockInv, QueueInv, AcceptedIdsInv, PoppedInv, HistoryIdsInv, DirectIdsInv, CoverInv, StatusInv, OrderInv,
      LastFlushInv, DirectInv, IndexInv;
    var e := Direct(id, t, b.len);
    HeldFrom(b, t);
    RecordDirect(b.history, b.nextTs, b.heap, b.start, b.accepted, e);
    RecordDirectIds(b, e);
    RecordCover(b.accepted, b.start, b.heap, b.history, e);
    RecordIndex(b.history, b.len, id, t);
  }

  lemma DirectAppendInv(s: Chain, id: Id, t: Time)
    requires Inv(s) && Fresh(s, id) && !NeedSingleAt(s, t)
    ensures Inv(DirectAppend(s, id, t))
  {
    hide ClockInv, QueueInv, AcceptedIdsInv, PoppedInv, HistoryIdsInv, DirectIdsInv, CoverInv, StatusInv, OrderInv,
      LastFlushInv, DirectInv, IndexInv;
    var b := Bump(s, t);
    assert Core(b) && t < b.nextTs by { BumpCore(s, t); }
    RecordDirectCore(b, id, t);
  }

  /** Round one keeps the invariant. */
  lemma AddMultiInv(s: Chain, kind: Kind, id: Id)
    requires Inv(s) && Fresh(s, id)
    ensures Inv(AddMulti(s, kind, id).0)
  {
    hide Core;
    PushCore(s, FromMulti(kind), id);
    FreshNotInStatus(s, id);
  }

  lemma QueueSingleInv(s: Chain, id: Id, t: Time)
    requires Inv(s) && Fresh(s, id) && s.queue != []
    ensures Inv(Push(Bump(s, t), FromSingle, id))
  {
    hide Core;
    BumpCore(s, t);
    PushCore(Bump(s, t), FromSingle, id);
  }

  /** A single append keeps the invariant, and never meets an empty queue. */
  lemma HandleSingleInv(s: Chain, id: Id, t: Time)
    requires Inv(s) && Fresh(s, id)
    ensures NeedSingleAt(s, t) ==> s.queue != []
    ensures id !in s.status
    ensures Inv(HandleSingle(s, id, t))
  {
    hide Core;
    FreshNotInStatus(s, id);
    if NeedSingleAt(s, t) {
      assert HandleSingle(s, id, t) == Push(Bump(s, t), FromSingle, id);
      assert Inv(Push(Bump(s, t), FromSingle, id)) by { QueueSingleInv(s, id, t); }
    } else {
      assert Inv(DirectAppend(s, id, t)) by { DirectAppendInv(s, id, t); }
    }
  }

  lemma SetAtBumpedCore(s: Chain, id: Id, m: Time)
    requires Core(s) && Awaiting(s, id) && Proposed(s, id) <= m
    ensures Core(Marked(s, id, m))
  {
    hide Core;
    BumpCore(s, m);
    SetAtCore(Bump(s, m), s.status[id].node, m);
  }

  lemma SetMaxCore(s: Chain, id: Id, m: Time)
    requires Core(s) && Awaiting(s, id) && Proposed(s, id) <= m
    ensures Core(SetMax(s, id, m))
    ensures SetMax(s, id, m).queue != [] ==> SetMax(s, id, m).queue[0].Wait?
  {
    hide Core;
    var q := SetAt(Bump(s, m), s.status[id].node, m);
    assert Core(q) by { SetAtBumpedCore(s, id, m); }
    PopReadyCore(q);
    PopReadyShape(q);
  }

  /** Round two keeps the invariant. */
  lemma FinishMultiInv(s: Chain, id: Id, m: Time)
    requires Inv(s) && Awaiting(s, id) && Proposed(s, id) <= m
    ensures Inv(FinishMulti(s, id, m))
  {
    SetMaxCore(s, id, m);
    FlushCore(SetMax(s, id, m));
  }

  /** Popping leaves only head-server entries behind. */
  lemma PopReadyShape(s: Chain)
    requires Core(s)
    ensures PopReady(s).queue != [] ==> PopReady(s).queue[0].Wait?
  {
    hide ClockInv, OrderInv, LastFlushInv, DirectInv, StatusInv, CoverInv, PoppedInv, DirectIdsInv, IndexInv;
    PopReadyCore(s);
    var r := PopReady(s);
    if r.queue != [] {
      assert Matches(r.queue[0], r.start + 0, r.accepted[r.start + 0]);
    }
  }

  // --- which slots of the trie are taken

  predicate TakenBy(history: seq<Event>, k: nat, i: int) {
    0 <= i < |history| && TakesSlot(history[i], Prev(history, i)) && history[i].index == k
  }

  /** Every slot up to the last is taken by some event. */
  lemma {:induction false} NoGap(history: seq<Event>, n: nat, k: nat)
    requires (forall i :: Indexed(history, i)) && n <= |history| && 1 <= k <= Prev(history, n)
    ensures exists i :: i < n && TakenBy(history, k, i)
  {
    assert Indexed(history, n - 1);
    if Prev(history, n) == k && TakesSlot(history[n - 1], Prev(history, n - 1)) {
      assert TakenBy(history, k, n - 1);
    } else {
      NoGap(history, n - 1, k);
    }
  }

  /** And by no other. */
  lemma {:induction false} TakenAbove(history: seq<Event>, i: nat, j: nat)
    requires (forall n :: Indexed(history, n)) && i < j < |history| && TakesSlot(history[j], Prev(history, j))
    ensures history[i].index < history[j].index
    decreases j
  {
    assert Indexed(history, j);
    RisesTo(history, i, j - 1);
  }

  lemma TakenOnce(history: seq<Event>, k: nat, i: nat, j: nat)
    requires (forall n :: Indexed(history, n)) && TakenBy(history, k, i) && TakenBy(history, k, j)
    ensures i == j
  {
    hide Indexed;
    if i < j {
      TakenAbove(history, i, j);
    } else if j < i {
      TakenAbove(history, j, i);
    }
  }

  lemma {:induction false} RisesTo(history: seq<Event>, i: nat, j: nat)
    requires (forall n :: Indexed(history, n)) && i <= j < |history|
    ensures history[i].index <= history[j].index
  {
    if i < j {
      RisesTo(history, i, j - 1);
      assert Indexed(history, j);
    }
  }

  // --- what a repeated id is told

  predicate FinishedAt(queue: seq<Waiting>, i: int, g: GotMax) {
    0 <= i < |queue| && (queue[i].HasMax? || queue[i].Single?) && IntoGotMax(queue[i]) == g
  }

  /** g is the record, with its final timestamp, that id has here. */
  ghost predicate FinishedAs(s: Chain, id: Id, g: GotMax) {
    g.id == id && (g in s.heap || exists i :: FinishedAt(s.queue, i, g))
  }

  /** n is the number under which round one of id was accepted with timestamp ts. */
  ghost predicate AcceptedAs(s: Chain, id: Id, ts: Time, n: QueueIndex) {
    n < |s.accepted| && s.accepted[n].id == id && s.accepted[n].ts == ts
  }

  /** A single's final timestamp is the clock's when it was queued, so nothing still
      queued can come before it, and the flush takes it along. */
  lemma OnlyMultisHeld(s: Chain, g: GotMax)
    requires Inv(s) && g in s.heap
    ensures g.GotMulti?
  {
    hide AcceptedIdsInv, HistoryIdsInv, DirectIdsInv, CoverInv, StatusInv, OrderInv, LastFlushInv, DirectInv, IndexInv;
    var n :| PoppedAs(s.accepted, s.start, g, n);
    assert Matches(s.queue[0], s.start + 0, s.accepted[s.start + 0]);
    assert s.accepted[n].ts < s.accepted[s.start].ts;
  }

  /** A known id can always be looked up: its status names a queue number only while
      the entry is queued. */
  lemma AlwaysAnswerable(s: Chain, id: Id)
    requires Inv(s)
    ensures Answerable(s, id)
  {
    hide ClockInv, QueueInv, AcceptedIdsInv, PoppedInv, HistoryIdsInv, DirectIdsInv, CoverInv, OrderInv, LastFlushInv,
      DirectInv, IndexInv;
    if id in s.status {
      if InQueue(s.queue, id) {
        var i :| 0 <= i < |s.queue| && s.queue[i].id == id;
        QueuedTells(s, id, i);
      } else {
        var g :| g in s.heap && g.id == id;
        OnlyMultisHeld(s, g);
      }
    }
  }

  /** A repeated id is told the timestamp its round one proposed while it waits,
      and its final one afterwards. */
  lemma ExistingTells(s: Chain, id: Id)
    requires Inv(s) && id in s.status
    ensures Answerable(s, id)
    ensures Awaiting(s, id) ==>
      && Existing(s, id) == OldPhase1(Proposed(s, id))
      && AcceptedAs(s, id, Proposed(s, id), s.status[id].node)
    ensures !Awaiting(s, id) ==> exists g :: FinishedAs(s, id, g) && Existing(s, id) == InPhase2(g.ts)
  {
    hide ClockInv, AcceptedIdsInv, PoppedInv, HistoryIdsInv, DirectIdsInv, CoverInv, OrderInv, LastFlushInv,
      DirectInv, IndexInv, FinishedAs;
    AlwaysAnswerable(s, id);
    if InQueue(s.queue, id) {
      var i :| 0 <= i < |s.queue| && s.queue[i].id == id;
      QueuedTells(s, id, i);
    } else {
      var g :| g in s.heap && g.id == id;
      HeapTells(s, id, g);
    }
  }

  lemma QueuedTells(s: Chain, id: Id, i: nat)
    requires QueueInv(s.start, s.queue, s.accepted, s.nextTs) && StatusInv(s.status, s.start, s.queue, s.heap)
    requires i < |s.queue| && s.queue[i].id == id
    ensures id in s.status && Answerable(s, id)
    ensures Awaiting(s, id) ==>
      Existing(s, id) == OldPhase1(Proposed(s, id)) && AcceptedAs(s, id, Proposed(s, id), s.status[id].node)
    ensures !Awaiting(s, id) ==> exists g :: FinishedAs(s, id, g) && Existing(s, id) == InPhase2(g.ts)
  {
    assert Matches(s.queue[i], s.start + i, s.accepted[s.start + i]);
    if !s.queue[i].Wait? {
      assert FinishedAt(s.queue, i, IntoGotMax(s.queue[i]));
      assert FinishedAs(s, id, IntoGotMax(s.queue[i]));
    }
  }

  lemma HeapTells(s: Chain, id: Id, g: GotMax)
    requires StatusInv(s.status, s.start, s.queue, s.heap) && g in s.heap && g.id == id && Answerable(s, id)
    ensures id in s.status && !Awaiting(s, id)
    ensures FinishedAs(s, id, g) && Existing(s, id) == InPhase2(g.ts)
  {
  }
}
