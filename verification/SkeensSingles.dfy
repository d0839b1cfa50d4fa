/** Where a single append comes to lie among the multi-appends its client knows to be
    decided: the client sends the largest timestamp it has seen on the chain
    (fuzzy_log_client/src/store.rs), and the chain queues the single or writes it at
    once (fuzzy_log_server/src/skeens.rs, need_single_at). */
module SkeensSingles {
  import opened SkeensOrder
  import opened SkeensChain
  import opened SkeensEffects
  import opened SkeensSystem
  import opened SkeensTheorems
  import opened SkeensRuns

  ghost predicate DeliveredHere(s: Sys, c: ChainId, x: Id) {
    exists j :: MultiAt(s, c, j, x)
  }

  ghost predicate DeliveredBefore(s: Sys, c: ChainId, x: Id, i: nat) {
    exists j :: j < i && MultiAt(s, c, j, x)
  }

  /** y is delivered on chain c at position i. */
  predicate EventAt(s: Sys, c: ChainId, i: nat, y: Id) {
    i < |History(s, c)| && EventId(History(s, c)[i]) == y
  }

  /** However the run goes on from s, y comes to lie after x on chain c. */
  ghost predicate LandsAfter(s: Sys, c: ChainId, x: Id, y: Id) {
    forall steps, u, i :: Follows(s, steps, u) && EventAt(u, c, i, y) ==> DeliveredBefore(u, c, x, i)
  }

  /** x is a decided write of chain c, with a timestamp of at most t. */
  ghost predicate DecidedBy(s: Sys, c: ChainId, x: Id, t: Time) {
    x in s.coords && s.coords[x].Finishing? && c in s.coords[x].chains && s.coords[x].max <= t
  }

  /** A single that was queued got a timestamp above the one its client had seen, so
      the flush has taken everything its client knew to be decided before it. */
  lemma QueuedAfter(u: Sys, c: ChainId, x: Id, y: Id, t: Time, i: nat)
    requires SysInv(u) && DecidedBy(u, c, x, t) && EventAt(u, c, i, y) && y in u.singles && u.singles[y].1 == t
    requires History(u, c)[i].Flushed?
    ensures DeliveredBefore(u, c, x, i)
  {
    hide SysInv;
    if History(u, c)[i].g.GotMulti? {
      OneTimestamp(u, c, i, y);
      CoordsAreNotSingles(u, y);
      assert false;
    } else {
      SingleHome(u, c, i);
      var q := EarlierIsDelivered(u, c, i, x);
    }
  }

  /** The single reaches its chain. */
  ghost predicate Arrived(s: Sys, r: Sys, c: ChainId, y: Id, t: Time) {
    var step := Deliver(One(y, c, t));
    Enabled(s, step) && Safe(s, step) && r == Next(s, step)
  }

  lemma ArrivedChain(s: Sys, r: Sys, c: ChainId, y: Id, t: Time)
    requires SysInv(s) && Arrived(s, r, c, y, t)
    ensures SysInv(r) && y in r.singles && r.singles[y] == (c, t) && y !in r.coords
    ensures !NeedSingleAt(At(s.chains, c), t) ==> At(r.chains, c) == DirectAppend(At(s.chains, c), y, t)
    ensures NeedSingleAt(At(s.chains, c), t) ==> IsAccepted(At(r.chains, c).accepted, y)
  {
    hide SysInv, Inv;
    StepInv(s, Deliver(One(y, c, t)));
    KnownSingle(s, c, y, t);
    CoordsAreNotSingles(s, y);
    var ch, n := At(s.chains, c), |At(s.chains, c).accepted|;
    if NeedSingleAt(ch, t) {
      assert At(r.chains, c).accepted[n].id == y;
    }
  }

  lemma KnownSingle(s: Sys, c: ChainId, y: Id, t: Time)
    requires SysInv(s) && One(y, c, t) in s.net
    ensures y in s.singles && s.singles[y] == (c, t)
  {
    hide ChainsInv, WaitingInv, AssignedInv, R1Inv, AckInv, R2Inv, CoordsInv, KnownInv, SinglesInv;
  }

  /** Nothing decided is missing from a chain that holds nothing. */
  lemma NothingHeld(s: Sys, c: ChainId, x: Id, t: Time)
    requires SysInv(s) && DecidedBy(s, c, x, t) && At(s.chains, c).queue == [] && At(s.chains, c).heap == {}
    ensures DeliveredHere(s, c, x)
  {
    hide SysInv;
    var ts := FinishingPlaces(s, c, x);
    var j :| FlushedAt(History(s, c), j) && History(s, c)[j].g.GotMulti? && History(s, c)[j].g.id == x;
    assert MultiAt(s, c, j, x);
  }

  /** Written at once, the single lies where the chain's history ended. */
  lemma DirectPlace(s: Sys, r: Sys, c: ChainId, y: Id, t: Time, steps: seq<Step>, u: Sys, i: nat)
    requires SysInv(s) && Arrived(s, r, c, y, t) && !NeedSingleAt(At(s.chains, c), t)
    requires Follows(r, steps, u) && EventAt(u, c, i, y)
    ensures i == |History(s, c)| && History(s, c) <= History(u, c)
  {
    hide SysInv, Core, Arrived, Follows;
    ArrivedChain(s, r, c, y, t);
    RunGrows(r, steps, u, c);
    InvChain(u, c);
    var n := |History(s, c)|;
    assert EventId(History(r, c)[n]) == y;
    assert History(u, c)[n] == History(r, c)[n];
    EventIdsDistinct(At(u.chains, c), i, n);
  }

  /** A single that was queued never turns into one written at once. */
  lemma QueuedNotDirect(s: Sys, r: Sys, c: ChainId, y: Id, t: Time, steps: seq<Step>, u: Sys, i: nat)
    requires SysInv(s) && Arrived(s, r, c, y, t) && NeedSingleAt(At(s.chains, c), t)
    requires Follows(r, steps, u) && EventAt(u, c, i, y)
    ensures History(u, c)[i].Flushed?
  {
    hide SysInv, Core, Arrived, Follows;
    ArrivedChain(s, r, c, y, t);
    RunGrows(r, steps, u, c);
    InvChain(u, c);
    var n :| 0 <= n < |At(r.chains, c).accepted| && At(r.chains, c).accepted[n].id == y;
    assert At(u.chains, c).accepted[n].id == y;
    AcceptedNotDirect(At(u.chains, c), n, i);
  }

  lemma AcceptedNotDirect(ch: Chain, n: nat, i: nat)
    requires Core(ch) && n < |ch.accepted| && i < |ch.history| && ch.accepted[n].id == EventId(ch.history[i])
    ensures ch.history[i].Flushed?
  {
    hide ClockInv, QueueInv, PoppedInv, HistoryIdsInv, CoverInv, StatusInv, OrderInv, LastFlushInv, DirectInv, IndexInv;
    assert DirectAt(ch.history, i) <==> ch.history[i].Direct?;
  }

  /** In every run that goes on from where the single arrived. */
  lemma AfterDecided(s: Sys, r: Sys, c: ChainId, x: Id, y: Id, t: Time, steps: seq<Step>, u: Sys, i: nat)
    requires SysInv(s) && Arrived(s, r, c, y, t) && DecidedBy(s, c, x, t)
    requires DeliveredHere(s, c, x) || At(s.chains, c).lastFlush < t
    requires Follows(r, steps, u) && EventAt(u, c, i, y)
    ensures DeliveredBefore(u, c, x, i)
  {
    hide SysInv, Follows, Arrived;
    ArrivedChain(s, r, c, y, t);
    if NeedSingleAt(At(s.chains, c), t) {
      QueuedNotDirect(s, r, c, y, t, steps, u, i);
      StillDecided(s, r, c, x, y, t, steps, u);
      RunGrows(r, steps, u, c);
      QueuedAfter(u, c, x, y, t, i);
    } else {
      if !DeliveredHere(s, c, x) {
        NothingHeld(s, c, x, t);
      }
      DirectPlace(s, r, c, y, t, steps, u, i);
      var j :| MultiAt(s, c, j, x);
      assert MultiAt(u, c, j, x);
    }
  }

  lemma StillDecided(s: Sys, r: Sys, c: ChainId, x: Id, y: Id, t: Time, steps: seq<Step>, u: Sys)
    requires SysInv(s) && Arrived(s, r, c, y, t) && DecidedBy(s, c, x, t) && Follows(r, steps, u)
    ensures DecidedBy(u, c, x, t) && y in u.singles && u.singles[y] == (c, t)
  {
    hide SysInv, Follows, Safe, Next;
    KnownSingle(s, c, y, t);
    StepKeeps(s, Deliver(One(y, c, t)));
    RunKeeps(r, steps, u);
  }

  /** A single whose client knew x to be decided comes to lie after x, however the run
      goes on, exactly when x is delivered as the single arrives, or the chain has
      flushed nothing yet that reaches the timestamp the single carries. */
  lemma SingleAfterDecided(s: Sys, r: Sys, c: ChainId, x: Id, y: Id, t: Time)
    requires Reachable(s) && Arrived(s, r, c, y, t) && DecidedBy(s, c, x, t)
    ensures LandsAfter(r, c, x, y) <==> DeliveredHere(s, c, x) || At(s.chains, c).lastFlush < t
  {
    hide SysInv, Follows, Arrived, Reachable;
    ReachableInv(s);
    if DeliveredHere(s, c, x) || At(s.chains, c).lastFlush < t {
      forall steps, u, i | Follows(r, steps, u) && EventAt(u, c, i, y) ensures DeliveredBefore(u, c, x, i) {
        AfterDecided(s, r, c, x, y, t, steps, u, i);
      }
    } else {
      NotBefore(s, r, c, x, y, t);
    }
  }

  lemma NotBefore(s: Sys, r: Sys, c: ChainId, x: Id, y: Id, t: Time)
    requires SysInv(s) && Arrived(s, r, c, y, t) && !DeliveredHere(s, c, x) && At(s.chains, c).lastFlush >= t
    ensures !LandsAfter(r, c, x, y)
  {
    hide SysInv, Arrived;
    ArrivedChain(s, r, c, y, t);
    var n := |History(s, c)|;
    assert EventAt(r, c, n, y);
    assert Follows(r, [], r);
    forall j | j < n ensures !MultiAt(r, c, j, x) {
      assert !MultiAt(s, c, j, x);
    }
  }

  // ---------------------------------------------------------------------------
  // A run in which the single lands before

  lemma Go(s: Sys, step: Step)
    requires Reachable(s) && Enabled(s, step)
    ensures Safe(s, step) && Reachable(Next(s, step))
  {
    hide SysInv, Follows;
    NeverUnsafe(s, step);
    assert Follows(s, [step], Next(s, step)) by { OneStep(s, step); }
    StillReachable(s, [step], Next(s, step));
  }

  lemma OneStep(s: Sys, step: Step)
    requires Enabled(s, step) && Safe(s, step)
    ensures Follows(s, [step], Next(s, step))
  {
    hide Enabled, Safe, Next;
    assert [step][1..] == [];
    assert Follows(Next(s, step), [], Next(s, step));
  }

  lemma Start()
    ensures Reachable(INIT)
  {
    assert Follows(INIT, [], INIT);
  }

  lemma Begin(s: Sys, id: Id, cs: set<ChainId>) returns (t: Sys)
    requires Reachable(s) && Enabled(s, BeginMulti(id, Multi, cs))
    ensures Reachable(t) && t == s.(coords := s.coords[id := Gathering(Multi, cs, map[])], net := t.net)
    ensures t.net == s.net + set c | c in cs :: R1(id, c, Multi)
  {
    Go(s, BeginMulti(id, Multi, cs));
    t := Next(s, BeginMulti(id, Multi, cs));
  }

  lemma Call(s: Sys, id: Id, c: ChainId) returns (t: Sys)
    requires Reachable(s) && R1(id, c, Multi) in s.net && id !in At(s.chains, c).status
    ensures Reachable(t) && Answerable(At(s.chains, c), id)
    ensures t == s.(chains := s.chains[c := AddMulti(At(s.chains, c), Multi, id).0], net := t.net)
    ensures t.net == s.net - {R1(id, c, Multi)} + {Ack(id, c, At(s.chains, c).nextTs)}
  {
    Go(s, Deliver(R1(id, c, Multi)));
    t := Next(s, Deliver(R1(id, c, Multi)));
  }

  /** A chain that has taken round one of a, and one that has then taken that of b. */
  function First(a: Id): Chain {
    Chain(2, 0, 0, [Wait(Multi, 1, 0, a)], {}, map[a := Phase1(0)], 1, [Accepted(FromMulti(Multi), a, 1)], [])
  }

  function Both(a: Id, b: Id): Chain {
    Chain(3, 0, 0, [Wait(Multi, 1, 0, a), Wait(Multi, 2, 1, b)], {}, map[a := Phase1(0), b := Phase1(1)], 1,
          [Accepted(FromMulti(Multi), a, 1), Accepted(FromMulti(Multi), b, 2)], [])
  }

  lemma Stamps(a: Id, b: Id)
    requires a != b
    ensures AddMulti(EMPTY_CHAIN, Multi, a).0 == First(a) && AddMulti(First(a), Multi, b).0 == Both(a, b)
  {
  }

  /** Writes 1 and 2 reach chains 1 and 2 in opposite orders. */
  lemma Crossing() returns (s: Sys)
    ensures Reachable(s) && s.chains == map[1 := Both(1, 2), 2 := Both(2, 1)] && s.singles == map[]
    ensures s.coords == map[1 := Gathering(Multi, {1, 2}, map[]), 2 := Gathering(Multi, {1, 2}, map[])]
    ensures s.net == {Ack(1, 1, 1), Ack(2, 1, 2), Ack(2, 2, 1), Ack(1, 2, 2)}
  {
    hide Reachable, AddMulti;
    Stamps(1, 2);
    Stamps(2, 1);
    s := INIT;
    Start();
    s := Begin(s, 1, {1, 2});
    s := Begin(s, 2, {1, 2});
    assert s.net == {R1(1, 1, Multi), R1(1, 2, Multi), R1(2, 1, Multi), R1(2, 2, Multi)};
    s := Call(s, 1, 1);
    s := Call(s, 2, 1);
    s := Call(s, 2, 2);
    s := Call(s, 1, 2);
  }

  lemma Answer(s: Sys, id: Id, c: ChainId, ts: Time) returns (t: Sys)
    requires Reachable(s) && Ack(id, c, ts) in s.net && id in s.coords && s.coords[id].Gathering?
    ensures Reachable(t) && t == ReceiveAck(s, id, c, ts)
  {
    Go(s, Deliver(Ack(id, c, ts)));
    t := Next(s, Deliver(Ack(id, c, ts)));
  }

  /** Both answers of a write to chains 1 and 2. */
  lemma Decide(s: Sys, id: Id, a: Time, b: Time, m: Time) returns (t: Sys)
    requires Reachable(s) && Ack(id, 1, a) in s.net && Ack(id, 2, b) in s.net && m == (if a < b then b else a)
    requires id in s.coords && s.coords[id] == Gathering(Multi, {1, 2}, map[])
    ensures Reachable(t) && t.chains == s.chains && t.singles == s.singles
    ensures t.coords == s.coords[id := Finishing(Multi, {1, 2}, map[1 := a, 2 := b], m)]
    ensures t.net == s.net - {Ack(id, 1, a), Ack(id, 2, b)} + {R2(id, 1, m), R2(id, 2, m)}
  {
    hide Reachable, MaxOf;
    t := Answer(s, id, 1, a);
    assert 2 !in map[1 := a].Keys;
    assert map[][1 := a] == map[1 := a];
    assert t.coords[id] == Gathering(Multi, {1, 2}, map[1 := a]);
    t := Answer(t, id, 2, b);
    var acks := map[1 := a][2 := b];
    assert acks.Keys == {1, 2} && IsMax(acks, MaxOf(acks));
    assert MaxOf(acks) == m;
  }

  /** Round two of write 1 on chain 1: it is flushed past write 2, whose proposal is the
      same timestamp. */
  lemma FlushPast(ch: Chain)
    requires ch == Both(1, 2)
    ensures Awaiting(ch, 1) && FinishMulti(ch, 1, 2).lastFlush == 2
    ensures |FinishMulti(ch, 1, 2).history| == 1 && EventId(FinishMulti(ch, 1, 2).history[0]) == 1
  {
    var g := GotMulti(Multi, 2, 1);
    var marked := SetAt(Bump(ch, 2), 0, 2);
    assert marked.queue == [HasMax(Multi, 2, 0, 1), Wait(Multi, 2, 1, 2)];
    var popped := PopOne(marked);
    assert popped.queue == [Wait(Multi, 2, 1, 2)] && popped.heap == {g};
    assert PopReady(popped) == popped && PopReady(marked) == popped;
    assert Top(popped.heap) == g;
    var flushed := FlushOne(popped);
    assert flushed.heap == {} && Flush(flushed) == flushed;
  }

  /** A single that carries the timestamp of a decided write of its own client, and
      lands before that write: another write with that timestamp has been flushed, so
      the chain takes the single to be late enough. */
  lemma SingleOvertakes() returns (s: Sys, r: Sys)
    ensures Reachable(s) && Arrived(s, r, 1, 3, 2) && DecidedBy(s, 1, 2, 2) && !LandsAfter(r, 1, 2, 3)
  {
    hide Reachable, FinishMulti, LandsAfter, MaxOf;
    s := Crossing();
    s := Decide(s, 1, 1, 2, 2);
    s := Decide(s, 2, 2, 1, 2);
    FlushPast(s.chains[1]);
    Go(s, Deliver(R2(1, 1, 2)));
    s := Next(s, Deliver(R2(1, 1, 2)));
    Go(s, BeginSingle(3, 1, 2));
    s := Next(s, BeginSingle(3, 1, 2));
    Go(s, Deliver(One(3, 1, 2)));
    r := Next(s, Deliver(One(3, 1, 2)));
    assert forall j :: !MultiAt(s, 1, j, 2);
    SingleAfterDecided(s, r, 1, 2, 3, 2);
  }
}
