/** A head server takes one packet for all its chains at once (HeadServer.dfy); the
    system delivers one message per chain (SkeensSystem.dfy). A packet is a run of
    such deliveries, in any order, so the server's packets, the client's answers
    (ClientCoordinator.dfy) and the system's messages tell the same story. */
module ServerBatches {
  import opened SkeensOrder
  import opened SkeensChain
  import opened SkeensSystem
  import opened SkeensTheorems
  import C = StoreClients
  import K = ClientCoordinators
  import H = HeadServers
  import ChainHeads

  // ---------------------------------------------------------------------------
  // Several deliveries at once

  function Calls(id: Id, kind: Kind, cs: set<ChainId>): set<Msg> {
    set c | c in cs :: R1(id, c, kind)
  }

  /** The chains' proposals: each its clock. */
  function Answers(chains: map<ChainId, Chain>, id: Id, cs: set<ChainId>): set<Msg> {
    set c | c in cs :: Ack(id, c, At(chains, c).nextTs)
  }

  function Finals(id: Id, m: Time, cs: set<ChainId>): set<Msg> {
    set c | c in cs :: R2(id, c, m)
  }

  /** Exactly these chains took the step. */
  ghost predicate Moved(before: map<ChainId, Chain>, cs: set<ChainId>, step: Chain -> Chain,
                        after: map<ChainId, Chain>)
  {
    forall c :: At(after, c) == if c in cs then step(At(before, c)) else At(before, c)
  }

  lemma MovedMore(before: map<ChainId, Chain>, c: ChainId, cs: set<ChainId>, step: Chain -> Chain,
                  after: map<ChainId, Chain>)
    requires c in cs && Moved(before[c := step(At(before, c))], cs - {c}, step, after)
    ensures Moved(before, cs, step, after)
  {
  }

  /** Round one, delivered to several chains of a write. */
  lemma {:induction false} Batch1(s: Sys, id: Id, kind: Kind, cs: set<ChainId>, stamped: Chain -> Chain)
    returns (steps: seq<Step>, t: Sys)
    requires SysInv(s) && Calls(id, kind, cs) <= s.net
    requires forall ch :: stamped(ch) == H.Stamped(ch, kind, id)
    ensures Follows(s, steps, t) && SysInv(t) && t.coords == s.coords && t.singles == s.singles
    ensures Moved(s.chains, cs, stamped, t.chains)
    ensures t.net == s.net - Calls(id, kind, cs) + Answers(s.chains, id, cs)
    decreases cs
  {
    hide SysInv, Safe, Next, H.Stamped, Moved;
    if cs == {} {
      steps, t := [], s;
      NoneMoved(s.chains, stamped);
    } else {
      var c :| c in cs;
      var step := Deliver(R1(id, c, kind));
      assert R1(id, c, kind) in Calls(id, kind, cs);
      StepInv(s, step);
      OneCall(s, id, kind, c);
      CallsLess(s, id, kind, cs, c);
      AnswersLess(s.chains, id, cs, c, stamped(At(s.chains, c)));
      steps, t := Batch1(Next(s, step), id, kind, cs - {c}, stamped);
      MovedMore(s.chains, c, cs, stamped, t.chains);
      steps := FollowsFirst(s, step, steps, t);
    }
  }

  lemma NoneMoved(chains: map<ChainId, Chain>, step: Chain -> Chain)
    ensures Moved(chains, {}, step, chains)
  {
  }

  lemma FollowsFirst(s: Sys, step: Step, steps: seq<Step>, t: Sys) returns (all: seq<Step>)
    requires Enabled(s, step) && Safe(s, step) && Follows(Next(s, step), steps, t)
    ensures all == [step] + steps && Follows(s, all, t)
  {
    hide Enabled, Safe, Next;
    all := [step] + steps;
    assert all[1..] == steps;
  }

  lemma OneCall(s: Sys, id: Id, kind: Kind, c: ChainId)
    requires R1(id, c, kind) in s.net && Safe(s, Deliver(R1(id, c, kind)))
    ensures Next(s, Deliver(R1(id, c, kind))) ==
      s.(chains := s.chains[c := H.Stamped(At(s.chains, c), kind, id)],
         net := s.net - {R1(id, c, kind)} + {Ack(id, c, At(s.chains, c).nextTs)})
  {
  }

  lemma CallsLess(s: Sys, id: Id, kind: Kind, cs: set<ChainId>, c: ChainId)
    requires c in cs && Calls(id, kind, cs) <= s.net
    ensures var answer := Ack(id, c, At(s.chains, c).nextTs);
      var net := s.net - {R1(id, c, kind)} + {answer};
      && Calls(id, kind, cs - {c}) <= net
      && net - Calls(id, kind, cs - {c}) == s.net - Calls(id, kind, cs) + {answer}
  {
    assert Calls(id, kind, cs) == Calls(id, kind, cs - {c}) + {R1(id, c, kind)};
  }

  lemma AnswersLess(chains: map<ChainId, Chain>, id: Id, cs: set<ChainId>, c: ChainId, ch: Chain)
    requires c in cs
    ensures Answers(chains, id, cs) == {Ack(id, c, At(chains, c).nextTs)} + Answers(chains[c := ch], id, cs - {c})
  {
    var rest := Answers(chains[c := ch], id, cs - {c});
    forall m ensures m in Answers(chains, id, cs) <==> m in {Ack(id, c, At(chains, c).nextTs)} + rest {
      if m in Answers(chains, id, cs) && m != Ack(id, c, At(chains, c).nextTs) {
        var d :| d in cs && m == Ack(id, d, At(chains, d).nextTs);
        assert d in cs - {c} && m == Ack(id, d, At(chains[c := ch], d).nextTs);
      }
      if m in rest {
        var d :| d in cs - {c} && m == Ack(id, d, At(chains[c := ch], d).nextTs);
        assert m == Ack(id, d, At(chains, d).nextTs);
      }
    }
  }

  /** Round two, delivered to several chains of a write. */
  lemma {:induction false} Batch2(s: Sys, id: Id, m: Time, cs: set<ChainId>, finished: Chain -> Chain)
    returns (steps: seq<Step>, t: Sys)
    requires SysInv(s) && Finals(id, m, cs) <= s.net
    requires forall ch :: finished(ch) == H.Finished(ch, id, m)
    ensures Follows(s, steps, t) && SysInv(t) && t.coords == s.coords && t.singles == s.singles
    ensures Moved(s.chains, cs, finished, t.chains) && t.net == s.net - Finals(id, m, cs)
    decreases cs
  {
    hide SysInv, Safe, Next, H.Finished, Moved;
    if cs == {} {
      steps, t := [], s;
      NoneMoved(s.chains, finished);
    } else {
      var c :| c in cs;
      var step := Deliver(R2(id, c, m));
      assert R2(id, c, m) in Finals(id, m, cs);
      StepInv(s, step);
      OneFinal(s, id, m, c);
      assert Finals(id, m, cs) == Finals(id, m, cs - {c}) + {R2(id, c, m)};
      steps, t := Batch2(Next(s, step), id, m, cs - {c}, finished);
      MovedMore(s.chains, c, cs, finished, t.chains);
      steps := FollowsFirst(s, step, steps, t);
    }
  }

  lemma OneFinal(s: Sys, id: Id, m: Time, c: ChainId)
    requires R2(id, c, m) in s.net && Safe(s, Deliver(R2(id, c, m)))
    ensures Next(s, Deliver(R2(id, c, m))) ==
      s.(chains := s.chains[c := H.Finished(At(s.chains, c), id, m)], net := s.net - {R2(id, c, m)})
  {
  }

  // ---------------------------------------------------------------------------
  // A server's packets

  /** The server's chains are as the system has them. */
  ghost predicate Holds(share: H.Share, view: H.View, s: Sys)
    requires share.total > 0
  {
    forall c :: H.Stores(share, c) ==> At(view, c) == At(s.chains, c)
  }

  /** The chains of a packet that are this server's. */
  function Mine(share: H.Share, chains: seq<nat>): (cs: set<ChainId>)
    requires share.total > 0
    ensures forall i :: H.Mine(share, chains, i) ==> chains[i] in cs
    ensures forall c :: c in cs ==> H.Stores(share, c)
  {
    set i | 0 <= i < |chains| && H.Mine(share, chains, i) :: chains[i]
  }

  lemma NamedIsMine(share: H.Share, chains: seq<nat>, c: nat)
    requires share.total > 0
    ensures H.Named(share, chains, |chains|, c) <==> c in Mine(share, chains)
  {
  }

  /** What the server does to its chains is what the system does to them. */
  lemma HoldsAfter(share: H.Share, before: H.View, chains: seq<nat>, step: Chain -> Chain, after: H.View, s: Sys,
                   t: Sys)
    requires share.total > 0 && Holds(share, before, s)
    requires H.Advanced(share, before, chains, |chains|, step, after)
    requires Moved(s.chains, Mine(share, chains), step, t.chains)
    ensures Holds(share, after, t)
    ensures forall c :: !H.Stores(share, c) ==> At(t.chains, c) == At(s.chains, c)
  {
    forall c | H.Stores(share, c) ensures At(after, c) == At(t.chains, c) {
      NamedIsMine(share, chains, c);
    }
  }

  /** Round one finds every chain of the packet ready for it, but for the width of the
      clock. */
  lemma Round1Ready(share: H.Share, view: H.View, chains: seq<nat>, kind: Kind, id: Id, s: Sys, i: int)
    requires share.total > 0 && SysInv(s) && Holds(share, view, s) && H.Mine(share, chains, i)
    requires Calls(id, kind, Mine(share, chains)) <= s.net && At(view, chains[i]).nextTs < ChainHeads.MAX_TIME
    ensures H.Open(At(view, chains[i]), id)
  {
    assert R1(id, chains[i], kind) in Calls(id, kind, Mine(share, chains));
    SafeR1(s, id, chains[i], kind);
    InvChain(s, chains[i]);
  }

  /** A server's round one is a run of the system: the calls for its chains are
      delivered, and each position of its answer is that chain's acknowledgement. */
  lemma Round1Refines(share: H.Share, before: H.View, chains: seq<nat>, kind: Kind, id: Id, stamped: Chain -> Chain,
                      after: H.View, left: seq<(Time, QueueIndex)>, timestamps: seq<Time>,
                      numbers: seq<QueueIndex>, s: Sys)
    returns (steps: seq<Step>, t: Sys)
    requires share.total > 0 && SysInv(s) && Holds(share, before, s)
    requires Calls(id, kind, Mine(share, chains)) <= s.net
    requires forall ch :: stamped(ch) == H.Stamped(ch, kind, id)
    requires H.Advanced(share, before, chains, |chains|, stamped, after)
    requires |left| == |timestamps| == |numbers| == |chains|
    requires forall i :: 0 <= i < |chains| ==>
      H.Proposes(share, before, chains, i, left[i], timestamps[i], numbers[i])
    ensures Follows(s, steps, t) && SysInv(t) && Holds(share, after, t)
    ensures t.coords == s.coords && t.singles == s.singles
    ensures forall c :: !H.Stores(share, c) ==> At(t.chains, c) == At(s.chains, c)
    ensures t.net == s.net - Calls(id, kind, Mine(share, chains)) + Answers(s.chains, id, Mine(share, chains))
    ensures forall i :: H.Mine(share, chains, i) ==> Ack(id, chains[i], timestamps[i]) in t.net
  {
    hide SysInv, Follows, H.Stamped, H.Advanced;
    steps, t := Batch1(s, id, kind, Mine(share, chains), stamped);
    HoldsAfter(share, before, chains, stamped, after, s, t);
    forall i | H.Mine(share, chains, i) ensures Ack(id, chains[i], timestamps[i]) in t.net {
      assert timestamps[i] == At(s.chains, chains[i]).nextTs;
    }
  }

  /** The packet a server answers with carries the acknowledgements the client's step
      delivers. */
  lemma AnswerCarries(cfg: C.Config, share: H.Share, chains: seq<nat>, id: Id, timestamps: seq<Time>, pkt: C.Packet,
                      s: Sys)
    requires C.Sane(cfg) && share.total == cfg.servers && |timestamps| == |pkt.locs| == |chains|
    requires forall i :: H.Mine(share, chains, i) ==>
      pkt.locs[i].index == timestamps[i] && Ack(id, chains[i], timestamps[i]) in s.net
    ensures K.AcksOf(id, K.Given(cfg, chains, C.ReaderOf(cfg, share.num), pkt)) <= s.net
  {
    var given := K.Given(cfg, chains, C.ReaderOf(cfg, share.num), pkt);
    forall c | c in given ensures Ack(id, c, given[c]) in s.net {
      assert H.Mine(share, chains, K.Position(chains, c));
    }
  }

  /** Round two finds every chain of the packet waiting for it. */
  lemma Round2Ready(share: H.Share, view: H.View, chains: seq<nat>, id: Id, m: Time, s: Sys, i: int)
    requires share.total > 0 && SysInv(s) && Holds(share, view, s) && H.Mine(share, chains, i)
    requires Finals(id, m, Mine(share, chains)) <= s.net
    ensures H.Due(At(view, chains[i]), id, m)
  {
    assert R2(id, chains[i], m) in Finals(id, m, Mine(share, chains));
    SafeR2(s, id, chains[i], m);
    InvChain(s, chains[i]);
  }

  /** A server's round two is a run of the system. */
  lemma Round2Refines(share: H.Share, before: H.View, chains: seq<nat>, id: Id, m: Time, finished: Chain -> Chain,
                      after: H.View, s: Sys)
    returns (steps: seq<Step>, t: Sys)
    requires share.total > 0 && SysInv(s) && Holds(share, before, s)
    requires Finals(id, m, Mine(share, chains)) <= s.net
    requires forall ch :: finished(ch) == H.Finished(ch, id, m)
    requires H.Advanced(share, before, chains, |chains|, finished, after)
    ensures Follows(s, steps, t) && SysInv(t) && Holds(share, after, t)
    ensures t.coords == s.coords && t.singles == s.singles && t.net == s.net - Finals(id, m, Mine(share, chains))
    ensures forall c :: !H.Stores(share, c) ==> At(t.chains, c) == At(s.chains, c)
  {
    hide SysInv, Follows, H.Finished, H.Advanced;
    steps, t := Batch2(s, id, m, Mine(share, chains), finished);
    HoldsAfter(share, before, chains, finished, after, s, t);
  }
}
