/** A head server: the chains it stores and the two rounds of a multi-append or
    snapshot over all of them (fuzzy_log_server/src/ordering_thread.rs). One packet
    makes one step on each of the server's chains it names. */
module HeadServers {
  import opened SkeensOrder
  import S = SkeensChain
  import E = SkeensEffects
  import opened ChainHeads
  import Sys = SkeensSystem
  import Client = StoreClients

  /** The chains a server stores, as values. */
  type View = map<nat, S.Chain>

  /** Which of a packet's chains are this server's. With separators, chain 0 is none;
      round one of a snapshot has no such exception. */
  datatype Share = Share(total: nat, num: nat, separators: bool)

  predicate Stores(share: Share, c: nat)
    requires share.total > 0
  {
    c % share.total == share.num
  }

  /** The packet names a chain of this server at position i. */
  predicate Mine(share: Share, chains: seq<nat>, i: int)
    requires share.total > 0
  {
    0 <= i < |chains| && (share.separators ==> chains[i] != 0) && Stores(share, chains[i])
  }

  ghost predicate Named(share: Share, chains: seq<nat>, n: nat, c: nat)
    requires share.total > 0
  {
    exists i :: 0 <= i < n && Mine(share, chains, i) && chains[i] == c
  }

  /** A packet names a chain once. */
  ghost predicate Once(share: Share, chains: seq<nat>)
    requires share.total > 0
  {
    forall i, j :: 0 <= i < j < |chains| && Mine(share, chains, i) && Mine(share, chains, j) ==> chains[i] != chains[j]
  }

  // ---------------------------------------------------------------------------
  // The rounds, chain by chain

  /** Round one can be taken on this chain. */
  ghost predicate Open(ch: S.Chain, id: Id) {
    S.Inv(ch) && S.Fresh(ch, id) && ch.nextTs < MAX_TIME
  }

  ghost function Stamped(ch: S.Chain, kind: Kind, id: Id): S.Chain {
    if S.Answerable(ch, id) then S.AddMulti(ch, kind, id).0 else ch
  }

  /** Round two can be taken on this chain. */
  ghost predicate Due(ch: S.Chain, id: Id, m: Time) {
    S.Inv(ch) && S.Awaiting(ch, id) && S.Proposed(ch, id) <= m
  }

  ghost function Finished(ch: S.Chain, id: Id, m: Time): S.Chain {
    if ch.len > 0 && S.Awaiting(ch, id) then S.FinishMulti(ch, id, m) else ch
  }

  /** After the first n positions of the packet, each chain of the server among them
      has taken its step and no other chain has moved. */
  ghost predicate Advanced(share: Share, before: View, chains: seq<nat>, n: nat, step: S.Chain -> S.Chain, after: View)
    requires share.total > 0
  {
    && (forall c :: Named(share, chains, n, c) ==> Sys.At(after, c) == step(Sys.At(before, c)))
    && (forall c :: !Named(share, chains, n, c) ==> Sys.At(after, c) == Sys.At(before, c))
  }

  lemma AdvanceNone(share: Share, view: View, chains: seq<nat>, step: S.Chain -> S.Chain)
    requires share.total > 0
    ensures Advanced(share, view, chains, 0, step, view)
  {
  }

  lemma AdvanceOne(share: Share, before: View, chains: seq<nat>, i: nat, step: S.Chain -> S.Chain, now: View)
    requires share.total > 0 && i < |chains| && Once(share, chains) && Advanced(share, before, chains, i, step, now)
    ensures Mine(share, chains, i) ==> Sys.At(now, chains[i]) == Sys.At(before, chains[i])
    ensures Mine(share, chains, i) ==>
      Advanced(share, before, chains, i + 1, step, now[chains[i] := step(Sys.At(before, chains[i]))])
    ensures !Mine(share, chains, i) ==> Advanced(share, before, chains, i + 1, step, now)
  {
  }

  lemma AdvancedAt(share: Share, before: View, chains: seq<nat>, step: S.Chain -> S.Chain, after: View, i: nat)
    requires share.total > 0 && Mine(share, chains, i) && Advanced(share, before, chains, |chains|, step, after)
    ensures Sys.At(after, chains[i]) == step(Sys.At(before, chains[i]))
  {
    assert Named(share, chains, |chains|, chains[i]);
  }

  /** Position i of the answer: the chain's clock and next queue number, or what is
      left there for a chain that is not this server's. */
  ghost predicate Proposes(share: Share, before: View, chains: seq<nat>, i: int, left: (Time, QueueIndex),
                           ts: Time, num: QueueIndex)
    requires share.total > 0
  {
    if Mine(share, chains, i)
    then ts > 0 && ts == Sys.At(before, chains[i]).nextTs
      && num == Sys.At(before, chains[i]).start + |Sys.At(before, chains[i]).queue|
    else (ts, num) == left
  }

  /** Position i of round two: what the chain delivers, in order. */
  ghost predicate HandsOut(share: Share, before: View, chains: seq<nat>, i: int, id: Id, m: Time, events: seq<S.Event>)
    requires share.total > 0
  {
    if Mine(share, chains, i)
    then Finished(Sys.At(before, chains[i]), id, m).history == Sys.At(before, chains[i]).history + events
    else events == []
  }

  /** A server's answer to round one is what the client relies on: it stamps all the
      chains the client expects that server to answer for. */
  lemma AnswerFitsClient(cfg: Client.Config, writer: nat, before: View, st: Client.WriteState, pkt: Client.Packet)
    requires Client.Sane(cfg) && writer < cfg.servers && Client.Chains(pkt.locs) == Client.Chains(st.locs)
    requires var share, chains := Share(cfg.servers, writer, !st.snapshot), Client.Chains(pkt.locs);
      forall i :: 0 <= i < |chains| ==>
        exists left, num :: Proposes(share, before, chains, i, left, pkt.locs[i].index, num)
    ensures Client.PacketOk(cfg, st, Client.ReaderOf(cfg, writer), pkt)
  {
  }

  /** Round two is never the first thing that happens to a chain. */
  lemma DueExists(view: View, c: nat, id: Id, m: Time)
    requires Due(Sys.At(view, c), id, m)
    ensures c in view
  {
  }

  // ---------------------------------------------------------------------------
  // A snapshot's packet with a separator

  lemma StampedAwaits(ch: S.Chain, kind: Kind, id: Id)
    requires S.Inv(ch) && S.Fresh(ch, id)
    ensures S.Awaiting(Stamped(ch, kind, id), id)
  {
    hide S.Core;
    ChainHead.RoundOne(ch, kind, id);
    S.FreshNotInStatus(ch, id);
  }

  lemma StampedDue(ch: S.Chain, kind: Kind, id: Id)
    requires S.Inv(ch) && S.Fresh(ch, id)
    ensures Due(Stamped(ch, kind, id), id, ch.nextTs)
  {
    hide S.Core;
    StampedAwaits(ch, kind, id);
    ChainHead.RoundOne(ch, kind, id);
    S.FreshNotInStatus(ch, id);
  }

  lemma EmptyOpen(id: Id)
    ensures S.Inv(S.EMPTY_CHAIN) && S.Fresh(S.EMPTY_CHAIN, id) && Open(S.EMPTY_CHAIN, id)
  {
    S.EmptyInv();
  }

  lemma FinishedAwaitsNot(ch: S.Chain, id: Id, m: Time)
    requires Due(ch, id, m)
    ensures !S.Awaiting(Finished(ch, id, m), id)
  {
    hide S.Core;
    E.CoreLen(ch);
    var r := S.FinishMulti(ch, id, m);
    if S.Awaiting(r, id) {
      AwaitsWaits(r, id);
      E.FinishMultiPending(ch, id, m);
    }
  }

  lemma AwaitsWaits(ch: S.Chain, id: Id)
    requires S.Awaiting(ch, id)
    ensures E.WaitsWith(ch, id, S.Proposed(ch, id))
  {
    assert E.WaitsAt(ch.queue, id, S.Proposed(ch, id), ch.status[id].node - ch.start);
  }

  /** After both rounds of a snapshot, which take a separator for chain 0 and for none,
      a chain still awaits a final timestamp exactly when it is chain 0, the packet has
      a separator, and chain 0 would be this server's. */
  lemma SeparatorStays(share: Share, before: View, chains: seq<nat>, id: Id, m: Time, stamped: S.Chain -> S.Chain,
                       mid: View, finished: S.Chain -> S.Chain, after: View, c: nat)
    requires share.total > 0 && share.separators && S.Inv(Sys.At(before, c)) && S.Fresh(Sys.At(before, c), id)
    requires forall ch :: stamped(ch) == Stamped(ch, Snap, id)
    requires forall ch :: finished(ch) == Finished(ch, id, m)
    requires Advanced(share.(separators := false), before, chains, |chains|, stamped, mid)
    requires Advanced(share, mid, chains, |chains|, finished, after)
    requires forall i :: Mine(share, chains, i) ==> Due(Sys.At(mid, chains[i]), id, m)
    ensures S.Awaiting(Sys.At(after, c), id) <==> c == 0 && 0 in chains && Stores(share, 0)
  {
    hide S.Inv, S.Fresh, S.Awaiting, Stamped, Finished, Due;
    var snapshots := share.(separators := false);
    FreshAwaitsNot(Sys.At(before, c), id);
    StampedAwaits(Sys.At(before, c), Snap, id);
    if Named(share, chains, |chains|, c) {
      var i :| 0 <= i < |chains| && Mine(share, chains, i) && chains[i] == c;
      assert Mine(snapshots, chains, i);
      FinishedAwaitsNot(Sys.At(mid, c), id, m);
    } else if c in chains && Stores(share, c) {
      var i :| 0 <= i < |chains| && chains[i] == c;
      assert Mine(snapshots, chains, i) && !Mine(share, chains, i);
    }
  }

  lemma FreshAwaitsNot(ch: S.Chain, id: Id)
    requires S.Inv(ch) && S.Fresh(ch, id)
    ensures !S.Awaiting(ch, id)
  {
    hide S.Core;
    S.FreshNotInStatus(ch, id);
  }

  class HeadServer {
    const share: Share
    var log: map<nat, ChainHead>

    ghost var repr: set<object>

    ghost predicate Valid()
      reads this, repr
    {
      && share.total > 0
      && (forall c :: c in log ==> log[c] in repr && log[c].queue in repr && log[c].Valid())
      && (forall c, d :: c in log && d in log && c != d ==> log[c] != log[d] && log[c].queue != log[d].queue)
    }

    ghost function Chains(): View
      requires Valid()
      reads this, repr
    {
      map c | c in log :: log[c].Abs()
    }

    constructor (total: nat, num: nat)
      requires num < total
      ensures Valid() && share == Share(total, num, true) && Chains() == map[] && repr == {}
    {
      share, log, repr := Share(total, num, true), map[], {};
    }

    lemma SomeServers()
      requires Valid()
      ensures share.total > 0
    {
    }

    /** A chain without a trie yet starts empty. */
    method EnsureChain(c: nat)
      requires Valid()
      modifies this
      ensures Valid() && c in log && fresh(repr - old(repr))
      ensures Chains() == old(Chains())[c := Sys.At(old(Chains()), c)]
    {
      if c !in log {
        AddChain(c);
      }
    }

    method AddChain(c: nat)
      requires Valid() && c !in log
      modifies this
      ensures Valid() && c in log && fresh(repr - old(repr))
      ensures Chains() == old(Chains())[c := S.EMPTY_CHAIN]
    {
      var head := new ChainHead();
      log := log[c := head];
      repr := repr + {head, head.queue};
      NewChain(c, head);
    }

    /** A new chain leaves the others as they are. */
    twostate lemma NewChain(c: nat, new head: ChainHead)
      requires old(Valid()) && c !in old(log) && log == old(log)[c := head] && repr == old(repr) + {head, head.queue}
      requires fresh(head) && fresh(head.queue) && head.Valid()
      requires forall d :: d in old(log) ==> unchanged(log[d]) && unchanged(log[d].queue)
      ensures Valid() && Chains() == old(Chains())[c := head.Abs()]
    {
      hide ChainHead.Abs, ChainHead.Valid;
      forall d | d in old(log) ensures log[d].Valid() && log[d].Abs() == old(log[d].Abs()) {
        assert unchanged(log[d]);
      }
    }

    /** A step of one chain leaves the others as they are. */
    twostate lemma OneChain(c: nat)
      requires old(Valid()) && log == old(log) && repr == old(repr) && c in log && log[c].Valid()
      requires forall d :: d in log && d != c ==> unchanged(log[d]) && unchanged(log[d].queue)
      ensures Valid() && repr == old(repr) && Chains() == old(Chains())[c := log[c].Abs()]
    {
      forall d | d in log && d != c ensures log[d].Valid() && log[d].Abs() == old(log[d].Abs()) {
        assert unchanged(log[d]);
      }
    }

    /** timestamp_for_multi and timestamp_for_snap. */
    method Stamp(c: nat, kind: Kind, id: Id) returns (ts: Time, num: QueueIndex)
      requires Valid() && c in log && Open(Chains()[c], id)
      modifies log[c], log[c].queue
      ensures Valid() && repr == old(repr)
      ensures Chains() == old(Chains())[c := Stamped(old(Chains())[c], kind, id)] && S.Inv(Chains()[c])
      ensures ts == old(Chains())[c].nextTs && ts > 0 && num == old(Chains())[c].start + |old(Chains())[c].queue|
    {
      hide S.AddMulti, S.Inv, S.Fresh, S.Answerable;
      ChainHead.RoundOne(log[c].Abs(), kind, id);
      var res := log[c].AddMulti(kind, id);
      OneChain(c);
      ts, num := res.ts, res.node;
    }

    method StampChain(c: nat, kind: Kind, id: Id) returns (ts: Time, num: QueueIndex)
      requires Valid() && Open(Sys.At(Chains(), c), id)
      modifies this, repr
      ensures Valid() && fresh(repr - old(repr))
      ensures var ch := Sys.At(old(Chains()), c);
        && Chains() == old(Chains())[c := Stamped(ch, kind, id)] && S.Inv(Stamped(ch, kind, id))
        && ts == ch.nextTs && ts > 0 && num == ch.start + |ch.queue|
    {
      hide Stamped, Open, S.Inv, ChainHead.Abs, ChainHead.Valid;
      EnsureChain(c);
      ts, num := Stamp(c, kind, id);
    }

    method Finish(c: nat, id: Id, m: Time) returns (finished: seq<S.Event>)
      requires Valid() && c in log && m < MAX_TIME && Due(Chains()[c], id, m)
      modifies log[c], log[c].queue
      ensures Valid() && repr == old(repr)
      ensures Chains() == old(Chains())[c := Finished(old(Chains())[c], id, m)] && S.Inv(Chains()[c])
      ensures Chains()[c].history == old(Chains())[c].history + finished
    {
      hide S.FinishMulti, S.Inv, S.Awaiting, S.Proposed;
      finished := log[c].FinishMulti(id, m);
      OneChain(c);
    }

    method FinishChain(c: nat, id: Id, m: Time) returns (finished: seq<S.Event>)
      requires Valid() && m < MAX_TIME && Due(Sys.At(Chains(), c), id, m)
      modifies repr
      ensures Valid() && repr == old(repr)
      ensures var ch := Sys.At(old(Chains()), c);
        && Chains() == old(Chains())[c := Finished(ch, id, m)] && S.Inv(Finished(ch, id, m))
        && Finished(ch, id, m).history == ch.history + finished
    {
      hide Finished, Due, S.Inv, ChainHead.Abs, ChainHead.Valid;
      DueExists(Chains(), c, id, m);
      finished := Finish(c, id, m);
    }

    /** new_multiappend_round1 and skeens_snapshot_round1: each chain of the packet
        stored here takes its step and proposes a timestamp. The packet's storage
        comes with a timestamp and a queue number per position: a multi-append writes
        zeros for the chains of other servers, a snapshot leaves those positions alone. */
    method Round1(kind: Kind, id: Id, chains: seq<nat>, storage: seq<(Time, QueueIndex)>)
      returns (timestamps: seq<Time>, numbers: seq<QueueIndex>)
      requires Valid() && |storage| == |chains| && Once(share.(separators := kind != Snap), chains)
      requires forall i :: Mine(share.(separators := kind != Snap), chains, i) ==> Open(Sys.At(Chains(), chains[i]), id)
      modifies this, repr
      ensures Valid() && fresh(repr - old(repr)) && |timestamps| == |numbers| == |chains|
      ensures var scope := share.(separators := kind != Snap);
        && Advanced(scope, old(Chains()), chains, |chains|, ch => Stamped(ch, kind, id), Chains())
        && (forall i :: Mine(scope, chains, i) ==> S.Inv(Sys.At(Chains(), chains[i])))
        && (forall i :: 0 <= i < |chains| ==>
              Proposes(scope, old(Chains()), chains, i, if kind == Snap then storage[i] else (0, 0),
                       timestamps[i], numbers[i]))
    {
      hide Stamped, Open, S.Inv, ChainHead.Abs, ChainHead.Valid, Advanced, Once, HeadServer.Valid, HeadServer.Chains;
      SomeServers();
      var scope := share.(separators := kind != Snap);
      ghost var before := Chains();
      ghost var step := ch => Stamped(ch, kind, id);
      AdvanceNone(scope, before, chains, step);
      timestamps, numbers := [], [];
      for i := 0 to |chains|
        invariant Valid() && fresh(repr - old(repr)) && |timestamps| == |numbers| == i
        invariant Advanced(scope, before, chains, i, step, Chains())
        invariant forall j :: 0 <= j < i && Mine(scope, chains, j) ==> S.Inv(step(Sys.At(before, chains[j])))
        invariant forall j :: 0 <= j < i ==>
          Proposes(scope, before, chains, j, if kind == Snap then storage[j] else (0, 0), timestamps[j], numbers[j])
      {
        AdvanceOne(scope, before, chains, i, step, Chains());
        var (ts, num) := if kind == Snap then storage[i] else (0, 0);
        if Mine(scope, chains, i) {
          ts, num := StampChain(chains[i], kind, id);
        }
        timestamps, numbers := timestamps + [ts], numbers + [num];
      }
      forall i | Mine(scope, chains, i) ensures S.Inv(Sys.At(Chains(), chains[i])) {
        AdvancedAt(scope, before, chains, step, Chains(), i);
      }
    }

    /** new_multiappend_round2: each chain of the packet stored here gets the final
        timestamp and hands out what it can now flush. */
    method Round2(id: Id, m: Time, chains: seq<nat>) returns (finished: seq<seq<S.Event>>)
      requires Valid() && Once(share, chains) && m < MAX_TIME
      requires forall i :: Mine(share, chains, i) ==> Due(Sys.At(Chains(), chains[i]), id, m)
      modifies repr
      ensures Valid() && repr == old(repr) && |finished| == |chains|
      ensures Advanced(share, old(Chains()), chains, |chains|, ch => Finished(ch, id, m), Chains())
      ensures forall i :: Mine(share, chains, i) ==> S.Inv(Sys.At(Chains(), chains[i]))
      ensures forall i :: 0 <= i < |chains| ==> HandsOut(share, old(Chains()), chains, i, id, m, finished[i])
    {
      hide Finished, Due, S.Inv, ChainHead.Abs, ChainHead.Valid, Advanced, Once;
      ghost var before := Chains();
      ghost var step := ch => Finished(ch, id, m);
      AdvanceNone(share, before, chains, step);
      finished := [];
      for i := 0 to |chains|
        invariant Valid() && repr == old(repr) && |finished| == i
        invariant Advanced(share, before, chains, i, step, Chains())
        invariant forall j :: 0 <= j < i && Mine(share, chains, j) ==> S.Inv(step(Sys.At(before, chains[j])))
        invariant forall j :: 0 <= j < i ==> HandsOut(share, before, chains, j, id, m, finished[j])
      {
        AdvanceOne(share, before, chains, i, step, Chains());
        var done: seq<S.Event> := [];
        if Mine(share, chains, i) {
          done := FinishChain(chains[i], id, m);
        }
        finished := finished + [done];
      }
      forall i | Mine(share, chains, i) ensures S.Inv(Sys.At(Chains(), chains[i])) {
        AdvancedAt(share, before, chains, step, Chains(), i);
      }
    }
  }

  /** A snapshot of chain 1 with a separator, on the one server there is: chain 1 is
      done, and chain 0 waits for a round two that never comes. */
  method SeparatorLeft(id: Id) returns (server: HeadServer)
    ensures server.Valid() && S.Awaiting(Sys.At(server.Chains(), 0), id)
    ensures !S.Awaiting(Sys.At(server.Chains(), 1), id)
  {
    hide Stamped, Finished, S.Inv, S.Fresh, S.Awaiting, Open, Due, ChainHead.Abs, ChainHead.Valid;
    server := new HeadServer(1, 0);
    ghost var before, share := server.Chains(), server.share;
    EmptyOpen(id);
    var timestamps, numbers := server.Round1(Snap, id, [1, 0], [(0, 0), (0, 0)]);
    ghost var mid := server.Chains();
    ghost var stamped := ch => Stamped(ch, Snap, id);
    AdvancedAt(share.(separators := false), before, [1, 0], stamped, mid, 0);
    StampedDue(S.EMPTY_CHAIN, Snap, id);
    assert Proposes(share.(separators := false), before, [1, 0], 0, (0, 0), timestamps[0], numbers[0]);
    var finished := server.Round2(id, timestamps[0], [1, 0]);
    ghost var final := ch => Finished(ch, id, timestamps[0]);
    SeparatorStays(share, before, [1, 0], id, timestamps[0], stamped, mid, final, server.Chains(), 0);
    SeparatorStays(share, before, [1, 0], id, timestamps[0], stamped, mid, final, server.Chains(), 1);
  }
}
