/** Whole-run properties of the two-round protocol, for every number of clients
    and chains and every order in which the network delivers messages. */
module SkeensTheorems {
  import opened SkeensOrder
  import opened SkeensChain
  import opened SkeensEffects
  import opened SkeensSystem

  /** t is reached from s by the given steps, none of which trips an assertion. */
  ghost predicate Follows(s: Sys, steps: seq<Step>, t: Sys)
    decreases |steps|
  {
    if steps == [] then s == t
    else Enabled(s, steps[0]) && Safe(s, steps[0]) && Follows(Next(s, steps[0]), steps[1..], t)
  }

  ghost predicate Reachable(s: Sys) {
    exists steps :: Follows(INIT, steps, s)
  }

  lemma {:induction false} FollowsInv(s: Sys, steps: seq<Step>, t: Sys)
    requires SysInv(s) && Follows(s, steps, t)
    ensures SysInv(t)
    decreases |steps|
  {
    hide SysInv;
    if steps != [] {
      StepInv(s, steps[0]);
      FollowsInv(Next(s, steps[0]), steps[1..], t);
    }
  }

  lemma ReachableInv(s: Sys)
    requires Reachable(s)
    ensures SysInv(s)
  {
    hide SysInv;
    InitInv();
    var steps :| Follows(INIT, steps, s);
    FollowsInv(INIT, steps, s);
  }

  /** No run ever trips an assertion of the server or the client: a round two
      always finds its entry waiting and never undercuts the proposal, a queued
      single always finds a multi ahead of it, and no id is accepted twice. */
  lemma NeverUnsafe(s: Sys, step: Step)
    requires Reachable(s) && Enabled(s, step)
    ensures Safe(s, step)
  {
    hide SysInv, Safe;
    ReachableInv(s);
    StepInv(s, step);
  }

  /** Looking up a repeated id never meets a queue number the queue has let go of. */
  lemma AlwaysTold(s: Sys, c: ChainId, id: Id)
    requires Reachable(s)
    ensures Answerable(At(s.chains, c), id)
  {
    hide SysInv;
    ReachableInv(s);
    InvChain(s, c);
    AlwaysAnswerable(At(s.chains, c), id);
  }

  // ---------------------------------------------------------------------------
  // One chain's delivery order

  function History(s: Sys, c: ChainId): seq<Event> {
    At(s.chains, c).history
  }

  /** The multi-append or snapshot id is delivered on chain c at position i. */
  predicate MultiAt(s: Sys, c: ChainId, i: int, id: Id) {
    FlushedAt(History(s, c), i) && History(s, c)[i].g.GotMulti? && History(s, c)[i].g.id == id
  }

  /** Over a whole run the entries flushed on one chain come out strictly
      increasing in (timestamp, multi before single, id), and their indices
      follow that order. */
  lemma DeliveryIncreases(s: Sys, c: ChainId, i: nat, j: nat)
    requires Reachable(s)
    requires FlushedAt(History(s, c), i) && FlushedAt(History(s, c), j)
    ensures i < j <==> Before(KeyOf(History(s, c)[i].g), KeyOf(History(s, c)[j].g))
    ensures i < j ==> History(s, c)[i].index <= History(s, c)[j].index
    ensures i < j && Occupies(History(s, c)[j]) ==> History(s, c)[i].index < History(s, c)[j].index
    ensures var e, before := History(s, c)[i], if i == 0 then 0 else History(s, c)[i - 1].index;
      e.index == before + if e.g.GotSingle? || e.g.kind == Multi || (e.g.kind == Senti && before == 0) then 1 else 0
  {
    hide Core, SysInv;
    ReachableChain(s, c);
    NextIndex(At(s.chains, c), i);
    if i < j {
      ChainOrder(At(s.chains, c), i, j);
    } else if j < i {
      ChainOrder(At(s.chains, c), j, i);
    }
  }

  lemma NextIndex(ch: Chain, i: nat)
    requires Core(ch)
    ensures Indexed(ch.history, i)
  {
    hide ClockInv, QueueInv, AcceptedIdsInv, PoppedInv, HistoryIdsInv, DirectIdsInv, CoverInv, StatusInv, OrderInv,
      LastFlushInv, DirectInv;
  }

  /** Every index of a chain's trie but the first belongs to exactly one delivered
      entry: a multi-append, a single, or a sentinel with nothing before it. */
  lemma EverySlotOnce(s: Sys, c: ChainId, k: nat) returns (i: nat)
    requires Reachable(s) && 1 <= k < At(s.chains, c).len
    ensures TakenBy(History(s, c), k, i)
    ensures forall j :: TakenBy(History(s, c), k, j) ==> j == i
  {
    hide SysInv, Reachable, Indexed;
    hide ClockInv, QueueInv, AcceptedIdsInv, PoppedInv, HistoryIdsInv, DirectIdsInv, CoverInv, StatusInv, OrderInv,
      LastFlushInv, DirectInv;
    ReachableChain(s, c);
    var history := History(s, c);
    NoGap(history, |history|, k);
    i :| TakenBy(history, k, i);
    forall j | TakenBy(history, k, j) ensures j == i {
      TakenOnce(history, k, i, j);
    }
  }

  /** The timestamp up to which a chain counts as flushed is the largest it has
      delivered. */
  lemma FlushedUpTo(s: Sys, c: ChainId)
    requires Reachable(s)
    ensures var t := At(s.chains, c).lastFlush;
      && (forall i :: FlushedAt(History(s, c), i) ==> History(s, c)[i].g.ts <= t)
      && (t > 0 ==> exists i :: FlushedAt(History(s, c), i) && History(s, c)[i].g.ts == t)
  {
    hide SysInv, Reachable;
    hide ClockInv, QueueInv, AcceptedIdsInv, PoppedInv, HistoryIdsInv, DirectIdsInv, CoverInv, StatusInv, OrderInv,
      IndexInv, DirectInv;
    ReachableChain(s, c);
  }

  lemma ReachableChain(s: Sys, c: ChainId)
    requires Reachable(s)
    ensures Inv(At(s.chains, c))
  {
    hide Inv;
    ReachableInv(s);
  }

  lemma ChainOrder(ch: Chain, i: nat, j: nat)
    requires Core(ch) && FlushedAt(ch.history, i) && FlushedAt(ch.history, j) && i < j
    ensures Before(KeyOf(ch.history[i].g), KeyOf(ch.history[j].g))
    ensures ch.history[i].index <= ch.history[j].index
    ensures Occupies(ch.history[j]) ==> ch.history[i].index < ch.history[j].index
  {
  }

  // ---------------------------------------------------------------------------
  // What a chain holds, and why

  /** Everything a chain holds back waits for the front of its queue, a multi-append
      or snapshot without its final timestamp, which could still come out earlier. */
  lemma HeldBack(s: Sys, c: ChainId)
    requires Reachable(s)
    ensures var ch := At(s.chains, c);
      && (ch.queue == [] ==> ch.heap == {})
      && (ch.queue != [] ==> ch.queue[0].Wait?)
      && (forall g :: g in ch.heap ==> Before(Earliest(ch.queue[0], ch.queue[0].ts), KeyOf(g)))
      && (forall k :: 0 < k < |ch.queue| ==> !ch.queue[k].Replicated? && ch.queue[0].ts < ch.queue[k].ts)
  {
    hide Core;
    ReachableChain(s, c);
    var ch := At(s.chains, c);
    forall g | g in ch.heap ensures ch.queue != [] && Before(Earliest(ch.queue[0], ch.queue[0].ts), KeyOf(g)) {
      HeapNotQueued(ch, g, 0);
      HappensBeforeIsKeyOrder(g, ch.queue[0]);
    }
    forall k | 0 < k < |ch.queue| ensures !ch.queue[k].Replicated? && ch.queue[0].ts < ch.queue[k].ts {
      FrontFirst(ch, k);
    }
  }

  lemma FrontFirst(ch: Chain, k: nat)
    requires Core(ch) && 0 < k < |ch.queue| && ch.queue[0].Wait?
    ensures !ch.queue[k].Replicated? && ch.queue[0].ts < ch.queue[k].ts
  {
    hide AcceptedIdsInv, PoppedInv, HistoryIdsInv, DirectIdsInv, CoverInv, StatusInv, OrderInv, LastFlushInv, DirectInv,
      IndexInv;
    assert Matches(ch.queue[0], ch.start + 0, ch.accepted[ch.start + 0]);
    assert Matches(ch.queue[k], ch.start + k, ch.accepted[ch.start + k]);
  }

  /** Nothing is lost or doubled: an accepted entry is queued, in the heap or
      delivered, exactly one of these; the status map knows exactly the first two;
      and all timestamps lie below the clock. */
  lemma Conserved(s: Sys, c: ChainId, id: Id)
    requires Reachable(s)
    ensures var ch := At(s.chains, c);
      var queued, ready, done := InQueue(ch.queue, id), InHeap(ch.heap, id), Delivered(ch.history, id);
      && (id in ch.status <==> queued || ready)
      && !(queued && ready) && !(queued && done) && !(ready && done)
      && (IsAccepted(ch.accepted, id) <==> queued || ready || done)
    ensures var ch := At(s.chains, c);
      && ch.lastFlush < ch.nextTs
      && (forall g :: g in ch.heap ==> g.ts < ch.nextTs)
      && (forall i, j :: 0 <= i < j < |ch.accepted| ==> ch.accepted[i].ts < ch.accepted[j].ts)
  {
    ReachableChain(s, c);
    hide Core;
    var ch := At(s.chains, c);
    KnownExactly(ch, id);
    InOnePlace(ch, id);
    AcceptedSomewhere(ch, id);
    BelowClock(ch);
  }

  lemma BelowClock(ch: Chain)
    requires Core(ch)
    ensures ch.lastFlush < ch.nextTs && forall g :: g in ch.heap ==> g.ts < ch.nextTs
    ensures forall i, j :: 0 <= i < j < |ch.accepted| ==> ch.accepted[i].ts < ch.accepted[j].ts
  {
  }

  lemma KnownExactly(ch: Chain, id: Id)
    requires Core(ch)
    ensures id in ch.status <==> InQueue(ch.queue, id) || InHeap(ch.heap, id)
  {
  }

  lemma InOnePlace(ch: Chain, id: Id)
    requires Core(ch)
    ensures !(InQueue(ch.queue, id) && InHeap(ch.heap, id))
    ensures !(InQueue(ch.queue, id) && Delivered(ch.history, id))
    ensures !(InHeap(ch.heap, id) && Delivered(ch.history, id))
  {
  }

  lemma AcceptedSomewhere(ch: Chain, id: Id)
    requires Core(ch)
    ensures IsAccepted(ch.accepted, id) <==> InQueue(ch.queue, id) || InHeap(ch.heap, id) || Delivered(ch.history, id)
  {
    hide ClockInv, DirectIdsInv, OrderInv, LastFlushInv, DirectInv, IndexInv, StatusInv, HistoryIdsInv,
      AcceptedIdsInv;
    if n :| 0 <= n < |ch.accepted| && ch.accepted[n].id == id {
      if n >= ch.start {
        assert Matches(ch.queue[n - ch.start], n, ch.accepted[n]);
        assert ch.queue[n - ch.start].id == id;
      }
    }
    if i :| 0 <= i < |ch.queue| && ch.queue[i].id == id {
      assert Matches(ch.queue[i], ch.start + i, ch.accepted[ch.start + i]);
    }
    if g :| g in ch.heap && g.id == id {
      var n :| PoppedAs(ch.accepted, ch.start, g, n);
    }
    if j :| FlushedAt(ch.history, j) && ch.history[j].g.id == id {
      var n :| PoppedAs(ch.accepted, ch.start, ch.history[j].g, n);
    }
  }

  // ---------------------------------------------------------------------------
  // Agreement between chains

  /** A multi-append or snapshot has one final timestamp, on every chain. */
  lemma OneTimestamp(s: Sys, c: ChainId, i: nat, id: Id)
    requires SysInv(s) && MultiAt(s, c, i, id)
    ensures id in s.coords && s.coords[id].Finishing? && s.coords[id].max == History(s, c)[i].g.ts
    ensures c in s.coords[id].chains
  {
    hide ChainsInv;
    assert AssignedInHistory(At(s.chains, c).history, id, History(s, c)[i].g.ts);
    assert Assigned(At(s.chains, c), id, History(s, c)[i].g.ts);
  }

  /** Two multi-appends or snapshots delivered on two common chains appear in the
      same relative order on both. */
  lemma SameOrderEverywhere(s: Sys, x: Id, y: Id, c: ChainId, i: nat, j: nat, d: ChainId, p: nat, q: nat)
    requires Reachable(s)
    requires MultiAt(s, c, i, x) && MultiAt(s, c, j, y)
    requires MultiAt(s, d, p, x) && MultiAt(s, d, q, y)
    ensures i < j <==> p < q
  {
    hide SysInv, Reachable;
    ReachableInv(s);
    OneTimestamp(s, c, i, x);
    OneTimestamp(s, c, j, y);
    OneTimestamp(s, d, p, x);
    OneTimestamp(s, d, q, y);
    DeliveryIncreases(s, c, i, j);
    DeliveryIncreases(s, d, p, q);
  }

  // --- the union of all delivery orders is acyclic

  /** x is delivered before y on some chain. */
  ghost predicate Edge(s: Sys, x: Id, y: Id) {
    exists c: ChainId, i: nat, j: nat :: EdgeOn(s, c, i, j, x, y)
  }

  predicate EdgeOn(s: Sys, c: ChainId, i: nat, j: nat, x: Id, y: Id) {
    i < j < |History(s, c)| && EventId(History(s, c)[i]) == x && EventId(History(s, c)[j]) == y
  }

  datatype Rank = Rank(key: Key, pos: nat)

  predicate RankLess(a: Rank, b: Rank) {
    Before(a.key, b.key) || (a.key == b.key && a.pos < b.pos)
  }

  /** The key of the last flush at or before position i. */
  function LastKey(h: seq<Event>, i: int): Key
    requires i < |h|
    decreases i
  {
    if i < 0 then Key(0, false, 0)
    else if h[i].Flushed? then KeyOf(h[i].g)
    else LastKey(h, i - 1)
  }

  /** A direct append ranks just after the flush it follows. */
  function RankAt(h: seq<Event>, i: nat): Rank
    requires i < |h|
  {
    Rank(LastKey(h, i), if h[i].Flushed? then 0 else i + 1)
  }

  ghost predicate KeysIncrease(h: seq<Event>) {
    && (forall i, j :: FlushedAt(h, i) && FlushedAt(h, j) && i < j ==> Before(KeyOf(h[i].g), KeyOf(h[j].g)))
    && (forall i :: FlushedAt(h, i) ==> h[i].g.ts > 0)
  }

  lemma {:induction false} LastKeyBounds(h: seq<Event>, i: int, j: nat)
    requires KeysIncrease(h) && -1 <= i < j < |h|
    ensures h[j].Flushed? ==> Before(LastKey(h, i), LastKey(h, j))
    ensures AtMost(LastKey(h, i), LastKey(h, j))
    ensures FlushedAt(h, j) || LastKey(h, j) == LastKey(h, j - 1)
    decreases j, i
  {
    if h[j].Flushed? {
      assert FlushedAt(h, j);
      if i >= 0 {
        if h[i].Flushed? { assert FlushedAt(h, i); } else { LastKeyBounds(h, i - 1, j); }
      }
    } else if i < j - 1 {
      LastKeyBounds(h, i, j - 1);
    }
  }

  lemma RankIncreases(h: seq<Event>, i: nat, j: nat)
    requires KeysIncrease(h) && i < j < |h|
    ensures RankLess(RankAt(h, i), RankAt(h, j))
  {
    LastKeyBounds(h, i, j);
  }

  lemma ChainKeysIncrease(ch: Chain)
    requires Core(ch)
    ensures KeysIncrease(ch.history)
  {
  }

  /** A single belongs to one chain. */
  lemma SingleHome(s: Sys, c: ChainId, i: nat)
    requires SysInv(s) && i < |History(s, c)|
    requires History(s, c)[i].Direct? || History(s, c)[i].g.GotSingle?
    ensures var x := EventId(History(s, c)[i]);
      && x in s.singles && s.singles[x].0 == c && x !in s.coords
      && (if History(s, c)[i].Direct? then s.singles[x].1 == History(s, c)[i].minTs
          else s.singles[x].1 < History(s, c)[i].g.ts)
  {
    hide WaitingInv, AssignedInv, R1Inv, AckInv, R2Inv, OneInv, CoordsInv, SinglesInv;
    hide ClockInv, OrderInv, LastFlushInv, DirectInv, IndexInv, StatusInv, CoverInv, HistoryIdsInv, DirectIdsInv,
      QueueInv;
    var ch := At(s.chains, c);
    assert Inv(ch);
    if ch.history[i].Direct? {
      assert DirectAt(ch.history, i);
    } else {
      assert FlushedAt(ch.history, i);
      var n :| PoppedAs(ch.accepted, ch.start, ch.history[i].g, n);
      assert KnownAccepted(c, At(s.chains, c).accepted[n], s.coords, s.singles);
    }
  }

  lemma EventIdsDistinct(ch: Chain, i: nat, j: nat)
    requires Core(ch) && i < |ch.history| && j < |ch.history|
    requires EventId(ch.history[i]) == EventId(ch.history[j])
    ensures i == j
  {
  }

  /** An id has the same rank wherever it is delivered. */
  lemma RankUnique(s: Sys, c: ChainId, i: nat, d: ChainId, j: nat)
    requires SysInv(s)
    requires i < |History(s, c)| && j < |History(s, d)|
    requires EventId(History(s, c)[i]) == EventId(History(s, d)[j])
    ensures RankAt(History(s, c), i) == RankAt(History(s, d), j)
  {
    hide SysInv;
    var e, f := History(s, c)[i], History(s, d)[j];
    if e.Flushed? && e.g.GotMulti? { OneTimestamp(s, c, i, e.g.id); } else { SingleHome(s, c, i); }
    if f.Flushed? && f.g.GotMulti? { OneTimestamp(s, d, j, f.g.id); } else { SingleHome(s, d, j); }
    if !(e.Flushed? && e.g.GotMulti?) {
      InvChain(s, c);
      hide Core;
      EventIdsDistinct(At(s.chains, c), i, j);
    }
  }

  lemma InvChain(s: Sys, c: ChainId)
    requires SysInv(s)
    ensures Inv(At(s.chains, c))
  {
  }

  /** p is a non-trivial path along delivery orders, whatever chains they are on. */
  ghost predicate Path(s: Sys, p: seq<Id>) {
    |p| >= 2 && forall k :: 0 <= k < |p| - 1 ==> Edge(s, p[k], p[k + 1])
  }

  ghost predicate Ranked(s: Sys, x: Id, r: Rank) {
    exists c: ChainId, i: nat :: i < |History(s, c)| && EventId(History(s, c)[i]) == x && RankAt(History(s, c), i) == r
  }

  lemma RankedOnce(s: Sys, x: Id, a: Rank, b: Rank)
    requires SysInv(s) && Ranked(s, x, a) && Ranked(s, x, b)
    ensures a == b
  {
    hide SysInv;
    var c: ChainId, i: nat :| i < |History(s, c)| && EventId(History(s, c)[i]) == x && RankAt(History(s, c), i) == a;
    var d: ChainId, j: nat :| j < |History(s, d)| && EventId(History(s, d)[j]) == x && RankAt(History(s, d), j) == b;
    RankUnique(s, c, i, d, j);
  }

  lemma EdgeRanks(s: Sys, x: Id, y: Id) returns (a: Rank, b: Rank)
    requires SysInv(s) && Edge(s, x, y)
    ensures Ranked(s, x, a) && Ranked(s, y, b) && RankLess(a, b)
  {
    hide SysInv, Core;
    var c: ChainId, i: nat, j: nat :| EdgeOn(s, c, i, j, x, y);
    InvChain(s, c);
    ChainKeysIncrease(At(s.chains, c));
    RankIncreases(History(s, c), i, j);
    a, b := RankAt(History(s, c), i), RankAt(History(s, c), j);
  }

  lemma {:induction false} PathRanks(s: Sys, p: seq<Id>) returns (a: Rank, b: Rank)
    requires SysInv(s) && Path(s, p)
    ensures Ranked(s, p[0], a) && Ranked(s, p[|p| - 1], b) && RankLess(a, b)
    decreases |p|
  {
    hide SysInv, Ranked, Edge;
    if |p| == 2 {
      assert Edge(s, p[0], p[0 + 1]);
      a, b := EdgeRanks(s, p[0], p[1]);
    } else {
      var n := |p| - 1;
      var init := p[..n];
      assert Edge(s, p[n - 1], p[n - 1 + 1]);
      var m: Rank;
      a, m := PathRanks(s, init);
      var m';
      m', b := EdgeRanks(s, p[n - 1], p[n]);
      RankedOnce(s, p[n - 1], m, m');
    }
  }

  /** The union of all per-chain delivery orders, over multi-appends, snapshots
      and singles however they were appended, has no cycle. */
  lemma NoCycle(s: Sys, p: seq<Id>)
    requires Reachable(s) && Path(s, p)
    ensures p[0] != p[|p| - 1]
  {
    hide SysInv, Ranked, Path;
    ReachableInv(s);
    PathLong(s, p);
    var a, b := PathRanks(s, p);
    if p[0] == p[|p| - 1] {
      RankedOnce(s, p[0], a, b);
    }
  }

  lemma PathLong(s: Sys, p: seq<Id>)
    requires Path(s, p)
    ensures |p| >= 2
  {
  }

  // ---------------------------------------------------------------------------
  // Snapshots

  /** id, of the given kind, is delivered on chain c at position i with this index. */
  predicate LandsAt(s: Sys, c: ChainId, i: int, kind: Kind, id: Id, index: nat) {
    MultiAt(s, c, i, id) && History(s, c)[i].g.kind == kind && History(s, c)[i].index == index
  }

  /** What a chain has delivered precedes everything it has yet to deliver. */
  lemma DeliveredPrecedesWaiting(ch: Chain, i: nat, id: Id, ts: Time)
    requires Core(ch) && FlushedAt(ch.history, i) && WaitsWith(ch, id, ts)
    ensures Before(KeyOf(ch.history[i].g), Key(ts, false, id))
  {
  }

  lemma DeliveredPrecedesAssigned(ch: Chain, i: nat, id: Id, m: Time)
    requires Core(ch) && FlushedAt(ch.history, i)
    requires AssignedInQueue(ch.queue, id, m) || AssignedInHeap(ch.heap, id, m)
    ensures Before(KeyOf(ch.history[i].g), Key(m, false, id))
  {
    hide ClockInv, LastFlushInv, DirectInv, IndexInv, StatusInv, CoverInv, HistoryIdsInv, DirectIdsInv, PoppedInv,
      AcceptedIdsInv;
    if k :| 0 <= k < |ch.queue| && ch.queue[k].HasMax? && ch.queue[k].id == id && ch.queue[k].ts == m {
      assert Matches(ch.queue[k], ch.start + k, ch.accepted[ch.start + k]);
    } else {
      assert !AssignedInQueue(ch.queue, id, m);
      var g :| g in ch.heap && g.GotMulti? && g.id == id && g.ts == m;
    }
  }

  /** A multi-append that precedes a delivered entry in key order has itself been
      delivered, on every chain it shares with that entry. */
  lemma EarlierIsDelivered(s: Sys, d: ChainId, p: nat, x: Id) returns (q: nat)
    requires SysInv(s) && FlushedAt(History(s, d), p)
    requires x in s.coords && s.coords[x].Finishing? && d in s.coords[x].chains
    requires Before(Key(s.coords[x].max, false, x), KeyOf(History(s, d)[p].g))
    ensures MultiAt(s, d, q, x) && q < p
  {
    hide SysInv, Core;
    InvChain(s, d);
    var ch, m := At(s.chains, d), s.coords[x].max;
    var ts := FinishingPlaces(s, d, x);
    if WaitsWith(ch, x, ts) && ts <= m {
      DeliveredPrecedesWaiting(ch, p, x, ts);
      assert false;
    } else if AssignedInQueue(ch.queue, x, m) || AssignedInHeap(ch.heap, x, m) {
      DeliveredPrecedesAssigned(ch, p, x, m);
      assert false;
    } else {
      q :| FlushedAt(ch.history, q) && ch.history[q].g.GotMulti? && ch.history[q].g.id == x && ch.history[q].g.ts == m;
      if p < q { ChainOrder(ch, p, q); }
    }
  }

  /** Once its final timestamp is known, a multi-append is on each of its chains
      still waiting for it, or holds it, or is delivered with it. */
  lemma FinishingPlaces(s: Sys, d: ChainId, x: Id) returns (ts: Time)
    requires SysInv(s) && x in s.coords && s.coords[x].Finishing? && d in s.coords[x].chains
    ensures var ch, m := At(s.chains, d), s.coords[x].max;
      || (WaitsWith(ch, x, ts) && ts <= m)
      || AssignedInQueue(ch.queue, x, m) || AssignedInHeap(ch.heap, x, m) || AssignedInHistory(ch.history, x, m)
  {
    hide ChainsInv, R1Inv, AckInv, OneInv, KnownInv, SinglesInv, WaitingInv, AssignedInv;
    var ch, m := At(s.chains, d), s.coords[x].max;
    assert CoordInv(s.chains, s.net, x, s.coords[x]);
    ts := 0;
    if R2(x, d, m) in s.net {
      ts :| ts <= m && WaitsWith(ch, x, ts);
    }
  }

  /** A two-round snapshot is a consistent cut. If a multi-append lies at or below
      the snapshot's horizon on one chain, then on every other chain the two
      share where the snapshot has been answered, the multi-append has been
      delivered too and lies at or below the horizon there. */
  lemma ConsistentCut(s: Sys, snap: Id, x: Id, c: ChainId, i: nat, j: nat, at: nat, horizon: nat,
                      d: ChainId, p: nat, other: nat)
    returns (q: nat, index: nat)
    requires Reachable(s)
    requires LandsAt(s, c, i, Snap, snap, horizon) && LandsAt(s, c, j, Multi, x, at) && at <= horizon
    requires LandsAt(s, d, p, Snap, snap, other) && x in s.coords && d in s.coords[x].chains
    ensures LandsAt(s, d, q, Multi, x, index) && index <= other
  {
    hide SysInv, Core, Reachable;
    ReachableInv(s);
    OneTimestamp(s, c, i, snap);
    OneTimestamp(s, c, j, x);
    OneTimestamp(s, d, p, snap);
    DeliveryIncreases(s, c, i, j);
    DeliveryIncreases(s, c, j, i);
    q := EarlierIsDelivered(s, d, p, x);
    DeliveryIncreases(s, d, q, p);
    KindEverywhere(s, c, j, x);
    KindEverywhere(s, d, q, x);
    index := History(s, d)[q].index;
  }

  /** On chains that both have reached, the multi-append is at or below the horizon on
      one exactly when it is on the other. */
  lemma CutAgrees(s: Sys, snap: Id, x: Id, c: ChainId, i: nat, j: nat, at: nat, horizon: nat,
                  d: ChainId, p: nat, q: nat, index: nat, other: nat)
    requires Reachable(s)
    requires LandsAt(s, c, i, Snap, snap, horizon) && LandsAt(s, c, j, Multi, x, at)
    requires LandsAt(s, d, p, Snap, snap, other) && LandsAt(s, d, q, Multi, x, index)
    ensures at <= horizon <==> index <= other
  {
    hide SysInv, Core, Reachable;
    ReachableInv(s);
    OneTimestamp(s, c, j, x);
    OneTimestamp(s, d, q, x);
    if at <= horizon {
      var k, found := ConsistentCut(s, snap, x, c, i, j, at, horizon, d, p, other);
      InvChain(s, d);
      EventIdsDistinct(At(s.chains, d), k, q);
    } else if index <= other {
      var k, found := ConsistentCut(s, snap, x, d, p, q, index, other, c, i, horizon);
      InvChain(s, c);
      EventIdsDistinct(At(s.chains, c), k, j);
    }
  }

  lemma KindEverywhere(s: Sys, c: ChainId, i: nat, x: Id)
    requires SysInv(s) && MultiAt(s, c, i, x)
    ensures x in s.coords && s.coords[x].kind == History(s, c)[i].g.kind
  {
    hide WaitingInv, AssignedInv, R1Inv, AckInv, R2Inv, OneInv, CoordsInv, SinglesInv;
    hide ClockInv, OrderInv, LastFlushInv, DirectInv, IndexInv, StatusInv, CoverInv, HistoryIdsInv, DirectIdsInv,
      QueueInv;
    var ch := At(s.chains, c);
    assert Inv(ch);
    var n :| PoppedAs(ch.accepted, ch.start, ch.history[i].g, n);
    assert KnownAccepted(c, At(s.chains, c).accepted[n], s.coords, s.singles);
  }

  // ---------------------------------------------------------------------------
  // Singles

  /** A single sent by a client that had seen timestamp t lands after every
      multi-append or snapshot its chain ever delivers with a timestamp below t. */
  lemma SingleAfterSeen(s: Sys, y: Id, c: ChainId, i: nat, j: nat)
    requires Reachable(s)
    requires i < |History(s, c)| && EventId(History(s, c)[i]) == y && y in s.singles
    requires FlushedAt(History(s, c), j) && History(s, c)[j].g.GotMulti?
    requires History(s, c)[j].g.ts < s.singles[y].1
    ensures j < i
  {
    hide SysInv, Core, Reachable;
    ReachableInv(s);
    var e := History(s, c)[i];
    if e.Flushed? && e.g.GotMulti? {
      OneTimestamp(s, c, i, y);
      CoordsAreNotSingles(s, y);
      assert false;
    }
    SingleHome(s, c, i);
    if e.Direct? {
      InvChain(s, c);
      DirectFirst(At(s.chains, c), i, j);
    } else {
      DeliveryIncreases(s, c, j, i);
    }
  }

  lemma CoordsAreNotSingles(s: Sys, y: Id)
    requires SysInv(s)
    ensures !(y in s.coords && y in s.singles)
  {
  }

  lemma DirectFirst(ch: Chain, i: nat, j: nat)
    requires Core(ch) && DirectAt(ch.history, i) && FlushedAt(ch.history, j)
    requires ch.history[j].g.ts < ch.history[i].minTs
    ensures j < i
  {
  }

  // ---------------------------------------------------------------------------
  // Nothing is stuck

  /** A client still gathering proposals has a message in flight. */
  lemma GatheringBusy(s: Sys, id: Id)
    requires SysInv(s) && id in s.coords && s.coords[id].Gathering?
    ensures s.net != {}
  {
    hide ChainsInv, WaitingInv, R1Inv, AckInv, OneInv, KnownInv, SinglesInv, AssignedInv, R2Inv;
    var k := s.coords[id];
    assert CoordInv(s.chains, s.net, id, k);
    var d :| d in k.chains && d !in k.acks;
    assert R1(id, d, k.kind) in s.net || AckPending(s.net, id, d);
  }

  lemma WaitingBusy(s: Sys, c: ChainId, id: Id, ts: Time)
    requires SysInv(s) && WaitsWith(At(s.chains, c), id, ts)
    ensures s.net != {}
  {
    assert WaitingInv(s.chains, s.coords, s.net);
    hide SysInv;
    if s.coords[id].Gathering? { GatheringBusy(s, id); }
  }

  /** Once no message is in flight every queue and heap is empty. */
  lemma QuietChain(s: Sys, c: ChainId)
    requires SysInv(s) && s.net == {}
    ensures At(s.chains, c).queue == [] && At(s.chains, c).heap == {}
  {
    hide SysInv, Core;
    InvChain(s, c);
    var ch := At(s.chains, c);
    if ch.queue != [] {
      var w := ch.queue[0];
      assert WaitsAt(ch.queue, w.id, w.ts, 0);
      WaitingBusy(s, c, w.id, w.ts);
    }
  }

  /** In a quiet state every multi-append and snapshot is delivered on all its
      chains, and every single on its chain. */
  lemma QuietDelivered(s: Sys)
    requires Reachable(s) && s.net == {}
    ensures forall id, c :: id in s.coords && c in s.coords[id].chains ==> exists i :: MultiAt(s, c, i, id)
    ensures forall id :: id in s.singles ==>
      exists i :: 0 <= i < |History(s, s.singles[id].0)| && EventId(History(s, s.singles[id].0)[i]) == id
  {
    hide SysInv, Core;
    ReachableInv(s);
    forall id, c | id in s.coords && c in s.coords[id].chains ensures exists i :: MultiAt(s, c, i, id) {
      QuietChain(s, c);
      QuietMulti(s, id, c);
    }
    forall id | id in s.singles
      ensures exists i :: 0 <= i < |History(s, s.singles[id].0)| && EventId(History(s, s.singles[id].0)[i]) == id
    {
      QuietChain(s, s.singles[id].0);
      QuietSingle(s, id);
    }
  }

  lemma QuietMulti(s: Sys, id: Id, c: ChainId)
    requires SysInv(s) && s.net == {} && id in s.coords && c in s.coords[id].chains
    requires At(s.chains, c).queue == [] && At(s.chains, c).heap == {}
    ensures exists i :: MultiAt(s, c, i, id)
  {
    hide ChainsInv, WaitingInv, R1Inv, AckInv, OneInv, KnownInv, SinglesInv, AssignedInv, R2Inv;
    var k := s.coords[id];
    assert CoordInv(s.chains, s.net, id, k);
    if k.Gathering? { GatheringBusy(s, id); }
    var h := At(s.chains, c).history;
    assert AssignedInHistory(h, id, k.max);
    var j :| FlushedAt(h, j) && h[j].g.GotMulti? && h[j].g.id == id && h[j].g.ts == k.max;
    assert MultiAt(s, c, j, id);
  }

  lemma QuietSingle(s: Sys, id: Id)
    requires SysInv(s) && s.net == {} && id in s.singles
    requires At(s.chains, s.singles[id].0).queue == [] && At(s.chains, s.singles[id].0).heap == {}
    ensures exists i :: 0 <= i < |History(s, s.singles[id].0)| && EventId(History(s, s.singles[id].0)[i]) == id
  {
    hide WaitingInv, R1Inv, AckInv, OneInv, KnownInv, AssignedInv, R2Inv, CoordsInv;
    hide ClockInv, OrderInv, LastFlushInv, DirectInv, IndexInv, StatusInv, HistoryIdsInv, DirectIdsInv, PoppedInv,
      AcceptedIdsInv;
    var ch := At(s.chains, s.singles[id].0);
    assert Inv(ch);
    assert !Unseen(ch, id);
    if n :| 0 <= n < |ch.accepted| && ch.accepted[n].id == id {
      assert !InHeap(ch.heap, ch.accepted[n].id);
      var j :| FlushedAt(ch.history, j) && ch.history[j].g.id == id;
      assert EventId(History(s, s.singles[id].0)[j]) == id;
    } else {
      assert !IsAccepted(ch.accepted, id);
      var j :| DirectAt(ch.history, j) && ch.history[j].single == id;
      assert EventId(History(s, s.singles[id].0)[j]) == id;
    }
  }

  // --- and the messages in flight can always be drained

  ghost function Count(net: set<Msg>, tag: int): nat {
    |set m | m in net && Tag(m) == tag|
  }

  function Tag(m: Msg): int {
    match m
    case R1(_, _, _) => 2
    case Ack(_, _, _) => 1
    case R2(_, _, _) => 0
    case One(_, _, _) => 0
  }

  lemma CountDrops(net: set<Msg>, now: set<Msg>, m: Msg)
    requires m in net && m !in now
    requires forall x :: x in now && x !in net ==> Tag(x) < Tag(m)
    ensures forall t :: t > Tag(m) ==> Count(now, t) <= Count(net, t)
    ensures Count(now, Tag(m)) < Count(net, Tag(m))
  {
    forall t | t > Tag(m) ensures Count(now, t) <= Count(net, t) {
      SubsetSize((set x | x in now && Tag(x) == t), (set x | x in net && Tag(x) == t));
    }
    var a, b := (set x | x in now && Tag(x) == Tag(m)), (set x | x in net && Tag(x) == Tag(m));
    SubsetSize(a, b - {m});
  }

  lemma SubsetSize(a: set<Msg>, b: set<Msg>)
    requires a <= b
    ensures |a| <= |b|
  {
    assert b == a + (b - a);
  }

  /** Delivering a message replaces it by messages of a later stage only. */
  lemma DeliverDrains(s: Sys, m: Msg)
    requires Enabled(s, Deliver(m)) && Safe(s, Deliver(m))
    ensures var now := Next(s, Deliver(m)).net;
      m !in now && forall x :: x in now && x !in s.net ==> Tag(x) < Tag(m)
  {
  }

  ghost predicate OnlyDeliveries(steps: seq<Step>) {
    forall k :: 0 <= k < |steps| ==> steps[k].Deliver?
  }

  /** From every reachable state, delivering what is in flight, with no further
      client action, leads to a quiet state: no append waits for ever. */
  lemma {:induction false} Drains(s: Sys) returns (steps: seq<Step>, t: Sys)
    requires SysInv(s)
    ensures Follows(s, steps, t) && OnlyDeliveries(steps) && t.net == {}
    decreases Count(s.net, 2), Count(s.net, 1), Count(s.net, 0)
  {
    hide SysInv, Safe;
    if s.net == {} {
      return [], s;
    }
    var m :| m in s.net;
    StepInv(s, Deliver(m));
    var n := Next(s, Deliver(m));
    DeliverDrains(s, m);
    CountDrops(s.net, n.net, m);
    var rest;
    rest, t := Drains(n);
    steps := [Deliver(m)] + rest;
    assert steps[1..] == rest;
  }
}
