/** The client of StoreClient.dfy is the coordinator of SkeensSystem.dfy: starting a
    write is the system's first step of it, an answer that a server gives for all
    its chains is one delivery per chain, and the timestamp the client then sends
    out is the one the system decides on (fuzzy_log_client/src/store.rs). */
module ClientCoordinators {
  import opened SkeensOrder
  import opened SkeensSystem
  import opened SkeensTheorems
  import C = StoreClients

  /** The chains of a write, without its separators. */
  function Named(chains: seq<nat>): set<ChainId> {
    set c | c in chains && c != 0
  }

  /** A write names a chain once. */
  ghost predicate Once(chains: seq<nat>) {
    forall p, q :: 0 <= p < q < |chains| && chains[p] != 0 ==> chains[p] != chains[q]
  }

  ghost function Position(chains: seq<nat>, c: nat): (p: nat)
    requires c in chains
    ensures p < |chains| && chains[p] == c
  {
    var p :| 0 <= p < |chains| && chains[p] == c;
    p
  }

  /** Data or sentinel copy, a server queues the chains of a two-round multi-append
      alike; each takes a slot of its own. */
  function KindOf(snapshot: bool): Kind {
    if snapshot then Snap else Multi
  }

  /** What the server of this chain proposed for it. */
  ghost function Proposal(cfg: C.Config, life: C.Life, c: ChainId): nat
    requires C.Sane(cfg) && C.AnswersOk(cfg, life) && c in life.chains && C.ReadServer(cfg, c) in life.answers
  {
    life.answers[C.ReadServer(cfg, c)][Position(life.chains, c)]
  }

  /** The proposals the client has, chain by chain. */
  ghost function Acks(cfg: C.Config, life: C.Life): map<ChainId, nat>
    requires C.Sane(cfg) && C.AnswersOk(cfg, life)
  {
    map c | c in Named(life.chains) && C.ReadServer(cfg, c) in life.answers :: Proposal(cfg, life, c)
  }

  ghost predicate Ready(cfg: C.Config, life: C.Life) {
    C.Sane(cfg) && C.AnswersOk(cfg, life) && Once(life.chains) && Named(life.chains) != {}
  }

  /** A coordinator with these proposals. */
  ghost function With(kind: Kind, chains: set<ChainId>, acks: map<ChainId, nat>): Coord
    requires chains != {}
  {
    if acks.Keys == chains then Finishing(kind, chains, acks, MaxOf(acks)) else Gathering(kind, chains, acks)
  }

  /** The write as the system's coordinator sees it. */
  ghost function CoordOf(cfg: C.Config, life: C.Life): Coord
    requires Ready(cfg, life)
  {
    With(KindOf(life.snapshot), Named(life.chains), Acks(cfg, life))
  }

  // ---------------------------------------------------------------------------
  // One answer is several deliveries

  /** The acknowledgements of these chains. */
  function AcksOf(id: C.Id, given: map<ChainId, nat>): set<Msg> {
    set c | c in given :: Ack(id, c, given[c])
  }

  /** Round two, once the coordinator has decided. */
  function RoundTwo(id: C.Id, k: Coord): set<Msg> {
    if k.Finishing? then set d | d in k.chains :: R2(id, d, k.max) else {}
  }

  /** The coordinator of id after all these acknowledgements. */
  ghost function Gathered(s: Sys, id: C.Id, given: map<ChainId, nat>): Sys
    requires id in s.coords && s.coords[id].chains != {}
  {
    var k := With(s.coords[id].kind, s.coords[id].chains, s.coords[id].acks + given);
    s.(coords := s.coords[id := k], net := s.net - AcksOf(id, given) + RoundTwo(id, k))
  }

  ghost predicate Pending(s: Sys, id: C.Id, given: map<ChainId, nat>) {
    && given != map[] && id in s.coords && s.coords[id].Gathering? && s.coords[id].chains != {}
    && given.Keys <= s.coords[id].chains && given.Keys !! s.coords[id].acks.Keys
    && (forall c :: c in given ==> given[c] > 0 && Ack(id, c, given[c]) in s.net)
  }

  ghost predicate Delivers(steps: seq<Step>, msgs: set<Msg>) {
    && (forall i :: 0 <= i < |steps| ==> steps[i].Deliver? && steps[i].msg in msgs)
    && |steps| == |msgs|
  }

  /** Taking the acknowledgements one by one, in any order, is taking them all. */
  lemma {:induction false} DeliverAll(s: Sys, id: C.Id, given: map<ChainId, nat>) returns (steps: seq<Step>)
    requires Pending(s, id, given)
    ensures Follows(s, steps, Gathered(s, id, given)) && Delivers(steps, AcksOf(id, given))
    decreases |given|
  {
    hide Pending, Gathered, Next, Enabled, Safe, AcksOf;
    var c := FirstAck(s, id, given);
    var step := Deliver(Ack(id, c, given[c]));
    var next, rest := Next(s, step), given - {c};
    OneLess(id, given, c);
    if rest == map[] {
      LastAck(s, id, given, c);
      steps := [step];
      assert Follows(next, steps[1..], Gathered(s, id, given));
    } else {
      EarlierAck(s, id, given, c);
      steps := DeliverAll(next, id, rest);
      assert ([step] + steps)[1..] == steps;
      steps := [step] + steps;
    }
  }

  lemma FirstAck(s: Sys, id: C.Id, given: map<ChainId, nat>) returns (c: ChainId)
    requires Pending(s, id, given)
    ensures c in given && Enabled(s, Deliver(Ack(id, c, given[c]))) && Safe(s, Deliver(Ack(id, c, given[c])))
    ensures id in s.coords && s.coords[id].chains != {}
  {
    c :| c in given;
  }

  lemma OneLess(id: C.Id, given: map<ChainId, nat>, c: ChainId)
    requires c in given
    ensures |given - {c}| < |given|
    ensures AcksOf(id, given) == AcksOf(id, given - {c}) + {Ack(id, c, given[c])}
    ensures Ack(id, c, given[c]) !in AcksOf(id, given - {c})
    ensures |AcksOf(id, given)| == |AcksOf(id, given - {c})| + 1
    ensures given - {c} == map[] ==> AcksOf(id, given - {c}) == {}
  {
    var rest := given - {c};
    assert rest.Keys == given.Keys - {c};
    forall m ensures m in AcksOf(id, given) <==> m in AcksOf(id, rest) + {Ack(id, c, given[c])} {
      if m in AcksOf(id, given) && m != Ack(id, c, given[c]) {
        var d :| d in given && m == Ack(id, d, given[d]);
        assert d in rest;
      }
    }
    assert AcksOf(id, given) == AcksOf(id, rest) + {Ack(id, c, given[c])};
  }

  lemma LastAck(s: Sys, id: C.Id, given: map<ChainId, nat>, c: ChainId)
    requires Pending(s, id, given) && c in given && given - {c} == map[]
    ensures Next(s, Deliver(Ack(id, c, given[c]))) == Gathered(s, id, given)
  {
    assert given.Keys == (given - {c}).Keys + {c};
    assert s.coords[id].acks + given == s.coords[id].acks[c := given[c]];
    assert AcksOf(id, given) == {Ack(id, c, given[c])};
  }

  lemma EarlierAck(s: Sys, id: C.Id, given: map<ChainId, nat>, c: ChainId)
    requires Pending(s, id, given) && c in given && given - {c} != map[]
    ensures var next := Next(s, Deliver(Ack(id, c, given[c])));
      Pending(next, id, given - {c}) && Gathered(next, id, given - {c}) == Gathered(s, id, given)
  {
    hide Next, Gathered;
    EarlierNext(s, id, given, c);
    var k, next := s.coords[id], Next(s, Deliver(Ack(id, c, given[c])));
    assert Pending(next, id, given - {c});
    GatherOn(s, next, id, k, given, c);
  }

  /** Before the last of them the coordinator goes on gathering. */
  lemma EarlierNext(s: Sys, id: C.Id, given: map<ChainId, nat>, c: ChainId)
    requires Pending(s, id, given) && c in given && given - {c} != map[]
    ensures var k := s.coords[id];
      Next(s, Deliver(Ack(id, c, given[c]))) ==
      s.(coords := s.coords[id := Gathering(k.kind, k.chains, k.acks[c := given[c]])],
         net := s.net - {Ack(id, c, given[c])})
  {
    var d :| d in given - {c};
    assert d in s.coords[id].chains && d !in s.coords[id].acks[c := given[c]];
  }

  lemma GatherOn(s: Sys, next: Sys, id: C.Id, k: Coord, given: map<ChainId, nat>, c: ChainId)
    requires id in s.coords && s.coords[id] == k && k.chains != {} && c in given
    requires next == s.(coords := s.coords[id := Gathering(k.kind, k.chains, k.acks[c := given[c]])],
                        net := s.net - {Ack(id, c, given[c])})
    ensures Gathered(next, id, given - {c}) == Gathered(s, id, given)
  {
    hide With, AcksOf, RoundTwo;
    OneLess(id, given, c);
    SplitOff(k.acks, given, c);
    TakenOut(s.net, Ack(id, c, given[c]), AcksOf(id, given - {c}));
    Overwritten(s.coords, id, Gathering(k.kind, k.chains, k.acks[c := given[c]]),
                With(k.kind, k.chains, k.acks + given));
  }

  lemma SplitOff(acks: map<ChainId, nat>, given: map<ChainId, nat>, c: ChainId)
    requires c in given
    ensures acks[c := given[c]] + (given - {c}) == acks + given
  {
  }

  lemma TakenOut(net: set<Msg>, m: Msg, more: set<Msg>)
    ensures net - {m} - more == net - (more + {m})
  {
  }

  lemma Overwritten(coords: map<C.Id, Coord>, id: C.Id, k: Coord, k': Coord)
    ensures coords[id := k][id := k'] == coords[id := k']
  {
  }

  // ---------------------------------------------------------------------------
  // The client's steps

  /** Everything the client knows of its writes, the system's coordinators know. */
  ghost predicate Represents(cfg: C.Config, lives: map<C.Id, C.Life>, s: Sys) {
    forall id :: id in lives ==> Ready(cfg, lives[id]) && id in s.coords && s.coords[id] == CoordOf(cfg, lives[id])
  }

  /** Only the coordinator of one write has moved. */
  lemma RepresentsOne(cfg: C.Config, lives: map<C.Id, C.Life>, id: C.Id, life: C.Life, s: Sys, t: Sys)
    requires Represents(cfg, lives, s) && Ready(cfg, life) && t.coords == s.coords[id := CoordOf(cfg, life)]
    ensures Represents(cfg, lives[id := life], t)
  {
    hide Ready, CoordOf;
  }

  lemma SameCoord(cfg: C.Config, life: C.Life, life': C.Life)
    requires Ready(cfg, life)
    requires life'.chains == life.chains && life'.answers == life.answers && life'.snapshot == life.snapshot
    ensures Ready(cfg, life') && CoordOf(cfg, life') == CoordOf(cfg, life)
  {
    assert C.AnswersOk(cfg, life');
    assert Acks(cfg, life') == Acks(cfg, life) by {
      hide C.AnswersOk;
    }
  }

  /** Starting a write is the system's step that starts it. */
  lemma BeginRefines(cfg: C.Config, lives: map<C.Id, C.Life>, id: C.Id, life: C.Life, s: Sys)
    requires Represents(cfg, lives, s) && id !in s.coords && id !in s.singles
    requires C.Sane(cfg) && life.answers == map[] && Once(life.chains) && Named(life.chains) != {}
    ensures var step := BeginMulti(id, KindOf(life.snapshot), Named(life.chains));
      Enabled(s, step) && Safe(s, step) && Represents(cfg, lives[id := life], Next(s, step))
  {
    hide Represents;
    assert Acks(cfg, life) == map[];
    RepresentsOne(cfg, lives, id, life, s,
                  Next(s, BeginMulti(id, KindOf(life.snapshot), Named(life.chains))));
  }

  /** The acknowledgements a packet from this server stands for. */
  ghost function Given(cfg: C.Config, chains: seq<nat>, from: C.Server, pkt: C.Packet): map<ChainId, nat>
    requires C.Sane(cfg) && |pkt.locs| == |chains|
  {
    map c | c in Named(chains) && C.ReadServer(cfg, c) == from :: pkt.locs[Position(chains, c)].index
  }

  /** An awaited answer to round one is the delivery of its server's acknowledgements:
      afterwards the client has what the coordinator has, and if that was the last
      answer, the coordinator has decided and sent round two to every chain. */
  lemma AnswerRefines(cfg: C.Config, lives: map<C.Id, C.Life>, st: C.WriteState, from: C.Server, pkt: C.Packet, s: Sys)
    returns (steps: seq<Step>, t: Sys)
    requires Represents(cfg, lives, s) && pkt.id in lives && C.Sane(cfg) && C.AnswersOk(cfg, lives[pkt.id])
    requires C.InRoundOne(cfg, lives[pkt.id], st) && pkt.queued && from in st.remaining
    requires C.PacketOk(cfg, st, from, pkt)
    requires AcksOf(pkt.id, Given(cfg, lives[pkt.id].chains, from, pkt)) <= s.net
    ensures Follows(s, steps, t) && Delivers(steps, AcksOf(pkt.id, Given(cfg, lives[pkt.id].chains, from, pkt)))
    ensures Represents(cfg, lives[pkt.id := C.Heard(lives[pkt.id], st, from, pkt)], t)
    ensures t.chains == s.chains && t.singles == s.singles
    ensures t.coords[pkt.id].Finishing? ==>
      forall c :: c in t.coords[pkt.id].chains ==> R2(pkt.id, c, t.coords[pkt.id].max) in t.net
  {
    hide C.InRoundOne, C.AnswersOk, C.Owns, Represents, Once, AcksOf, Given, Follows, Acks;
    var id, life := pkt.id, lives[pkt.id];
    assert |pkt.locs| == |life.chains| by { SameLength(cfg, life, st, from, pkt); }
    var given := Given(cfg, life.chains, from, pkt);
    RepresentsThis(cfg, lives, id, s);
    GivenPending(cfg, life, st, from, pkt, s);
    steps := DeliverAll(s, id, given);
    t := Gathered(s, id, given);
    HeardCoord(cfg, life, st, from, pkt);
    RepresentsOne(cfg, lives, id, C.Heard(life, st, from, pkt), s, t);
  }

  lemma SameLength(cfg: C.Config, life: C.Life, st: C.WriteState, from: C.Server, pkt: C.Packet)
    requires C.Sane(cfg) && C.AnswersOk(cfg, life) && C.InRoundOne(cfg, life, st) && C.PacketOk(cfg, st, from, pkt)
    ensures |pkt.locs| == |life.chains|
  {
    assert |pkt.locs| == |C.Chains(pkt.locs)|;
  }

  lemma RepresentsThis(cfg: C.Config, lives: map<C.Id, C.Life>, id: C.Id, s: Sys)
    requires Represents(cfg, lives, s) && id in lives
    ensures Ready(cfg, lives[id]) && id in s.coords && s.coords[id] == CoordOf(cfg, lives[id])
  {
  }

  lemma GivenPending(cfg: C.Config, life: C.Life, st: C.WriteState, from: C.Server, pkt: C.Packet, s: Sys)
    requires Ready(cfg, life) && pkt.id in s.coords && s.coords[pkt.id] == CoordOf(cfg, life)
    requires C.InRoundOne(cfg, life, st) && pkt.queued && from in st.remaining && C.PacketOk(cfg, st, from, pkt)
    requires |pkt.locs| == |life.chains| && AcksOf(pkt.id, Given(cfg, life.chains, from, pkt)) <= s.net
    ensures Pending(s, pkt.id, Given(cfg, life.chains, from, pkt))
  {
    var given := Given(cfg, life.chains, from, pkt);
    var p :| 0 <= p < |life.chains| && C.Owns(cfg, life.chains, from, p);
    assert life.chains[p] in given && life.chains[p] !in Acks(cfg, life);
    forall c | c in given ensures given[c] > 0 && Ack(pkt.id, c, given[c]) in s.net {
      assert C.Owns(cfg, life.chains, from, Position(life.chains, c));
      assert Ack(pkt.id, c, given[c]) in AcksOf(pkt.id, given);
    }
  }

  /** The proposals after an answer are those before and those of the answer. */
  lemma HeardCoord(cfg: C.Config, life: C.Life, st: C.WriteState, from: C.Server, pkt: C.Packet)
    requires Ready(cfg, life) && |pkt.locs| == |life.chains|
    requires C.InRoundOne(cfg, life, st) && pkt.queued && from in st.remaining && C.PacketOk(cfg, st, from, pkt)
    ensures var life' := C.Heard(life, st, from, pkt);
      Ready(cfg, life') && Acks(cfg, life') == Acks(cfg, life) + Given(cfg, life.chains, from, pkt)
  {
    hide C.InRoundOne, C.PacketOk, C.AnswersOk, Once;
    C.AnswerHeard(cfg, life, st, from, pkt);
    var life' := C.Heard(life, st, from, pkt);
    StillRoundOne(cfg, life, st);
    assert life' == life.(answers := life.answers[from := C.Indices(pkt.locs)]);
    MoreAcks(cfg, life, life', from, pkt);
  }

  lemma StillRoundOne(cfg: C.Config, life: C.Life, st: C.WriteState)
    requires C.Sane(cfg) && C.AnswersOk(cfg, life) && C.InRoundOne(cfg, life, st)
    ensures st.Skeens1?
  {
  }

  lemma MoreAcks(cfg: C.Config, life: C.Life, life': C.Life, from: C.Server, pkt: C.Packet)
    requires C.Sane(cfg) && C.AnswersOk(cfg, life) && C.AnswersOk(cfg, life') && |pkt.locs| == |life.chains|
    requires life' == life.(answers := life.answers[from := C.Indices(pkt.locs)])
    ensures Acks(cfg, life') == Acks(cfg, life) + Given(cfg, life.chains, from, pkt)
  {
    hide C.AnswersOk, Proposal, C.ReadServer;
    forall c | c in Named(life.chains) && C.ReadServer(cfg, c) in life'.answers
      ensures Proposal(cfg, life', c) == (Acks(cfg, life) + Given(cfg, life.chains, from, pkt))[c]
    {
      ProposalMore(cfg, life, life', from, pkt, c);
    }
  }

  lemma ProposalMore(cfg: C.Config, life: C.Life, life': C.Life, from: C.Server, pkt: C.Packet, c: ChainId)
    requires C.Sane(cfg) && C.AnswersOk(cfg, life) && C.AnswersOk(cfg, life') && |pkt.locs| == |life.chains|
    requires life' == life.(answers := life.answers[from := C.Indices(pkt.locs)])
    requires c in life.chains && C.ReadServer(cfg, c) in life'.answers
    ensures C.ReadServer(cfg, c) == from ==> Proposal(cfg, life', c) == pkt.locs[Position(life.chains, c)].index
    ensures C.ReadServer(cfg, c) != from ==> Proposal(cfg, life', c) == Proposal(cfg, life, c)
  {
  }

  /** What the client does otherwise is no step of the coordinator: a repeated answer,
      one without the round-one flag, round two going out, and round-two answers. */
  lemma OtherwiseStill(cfg: C.Config, lives: map<C.Id, C.Life>, id: C.Id, life: C.Life, s: Sys)
    requires Represents(cfg, lives, s) && id in lives
    requires life.chains == lives[id].chains && life.answers == lives[id].answers && life.snapshot == lives[id].snapshot
    ensures Represents(cfg, lives[id := life], s)
  {
    hide Represents;
    RepresentsThis(cfg, lives, id, s);
    SameCoord(cfg, lives[id], life);
    assert s.coords == s.coords[id := CoordOf(cfg, life)];
    RepresentsOne(cfg, lives, id, life, s, s);
  }

  /** The timestamp the client sends in round two is the one the system's coordinator
      decided on, and it goes to the head of every chain of the write. */
  lemma SendsTheDecision(cfg: C.Config, id: C.Id, writes: map<C.Id, C.WriteState>, pending: seq<C.Sk2Send>,
                         seen: map<nat, nat>, lives: map<C.Id, C.Life>, s: Sys)
    requires C.Inv(cfg, writes, pending, seen, lives) && Represents(cfg, lives, s) && id in lives
    ensures lives[id].rounds != [] || C.Queued(pending, id) <==> s.coords[id].Finishing?
    ensures lives[id].rounds != [] ==>
      && |lives[id].rounds| == 1 && lives[id].rounds[0].maxTs == s.coords[id].max
      && forall c :: c in s.coords[id].chains ==> C.WriteServer(cfg, c) in lives[id].rounds[0].servers
  {
    hide Represents, C.Inv, C.AnswersOk, C.AllAnswered, Acks, C.IsMaxStamp, C.Queued, Once;
    var life := lives[id];
    RepresentsThis(cfg, lives, id, s);
    C.RoundTwoOnce(cfg, id, writes, pending, seen, lives);
    AllIsAll(cfg, life);
    C.QueuedAnswered(cfg, id, writes, pending, seen, lives);
    if life.rounds != [] {
      SameMax(cfg, life, life.rounds[0].maxTs);
      forall c | c in s.coords[id].chains ensures C.WriteServer(cfg, c) in life.rounds[0].servers {
        assert C.Heads(cfg, life.chains, C.WriteServer(cfg, c), Position(life.chains, c));
      }
    }
  }

  lemma AllIsAll(cfg: C.Config, life: C.Life)
    requires Ready(cfg, life)
    ensures C.AllAnswered(cfg, life) <==> Acks(cfg, life).Keys == Named(life.chains)
  {
    if C.AllAnswered(cfg, life) {
      forall c | c in Named(life.chains) ensures c in Acks(cfg, life) {
        assert C.Real(life.chains, Position(life.chains, c));
      }
    } else {
      var p :| C.Real(life.chains, p) && !C.Answered(cfg, life, p);
      assert life.chains[p] in Named(life.chains) && life.chains[p] !in Acks(cfg, life);
    }
  }

  lemma AckIsStamp(cfg: C.Config, life: C.Life, p: int)
    requires Ready(cfg, life) && C.Real(life.chains, p) && C.Answered(cfg, life, p)
    ensures life.chains[p] in Acks(cfg, life) && Acks(cfg, life)[life.chains[p]] == C.Stamp(cfg, life, p)
  {
    assert Position(life.chains, life.chains[p]) == p;
  }

  lemma SameMax(cfg: C.Config, life: C.Life, m: nat)
    requires Ready(cfg, life) && C.AllAnswered(cfg, life) && C.IsMaxStamp(cfg, life, m)
    ensures Acks(cfg, life) != map[] && m == MaxOf(Acks(cfg, life))
  {
    hide C.AnswersOk, C.Stamp, Once, Proposal;
    var acks := Acks(cfg, life);
    var q :| C.Real(life.chains, q) && C.Stamp(cfg, life, q) == m;
    AckIsStamp(cfg, life, q);
    var c :| c in acks && acks[c] == MaxOf(acks);
    var p := Position(life.chains, c);
    assert C.Real(life.chains, p) && C.Answered(cfg, life, p);
    AckIsStamp(cfg, life, p);
  }
}
