/** Many clients, many chains and an unordered network that delivers each
    message at most once. A multi-append or snapshot runs in two rounds: the
    client sends round one to every chain, takes the largest proposed timestamp,
    and sends it back as round two (fuzzy_log_client/src/store.rs). A server's
    batch of chains is one interleaving of the per-chain steps here. */
module SkeensSystem {
  import opened SkeensOrder
  import opened SkeensChain
  import opened SkeensEffects

  type ChainId = nat

  datatype Msg =
    | R1(id: Id, chain: ChainId, kind: Kind)
    | Ack(id: Id, chain: ChainId, ts: Time)
    | R2(id: Id, chain: ChainId, max: Time)
    | One(id: Id, chain: ChainId, ts: Time)

  /** A client's state for one multi-append: gathering proposals, or done with
      round one and holding the final timestamp. */
  datatype Coord =
    | Gathering(kind: Kind, chains: set<ChainId>, acks: map<ChainId, Time>)
    | Finishing(kind: Kind, chains: set<ChainId>, acks: map<ChainId, Time>, max: Time)

  datatype Sys = Sys(
    chains: map<ChainId, Chain>,
    coords: map<Id, Coord>,
    singles: map<Id, (ChainId, Time)>,
    net: set<Msg>)

  const INIT := Sys(map[], map[], map[], {})

  /** Chains come into being on first use. */
  function At(chains: map<ChainId, Chain>, c: ChainId): Chain {
    if c in chains then chains[c] else EMPTY_CHAIN
  }

  // ---------------------------------------------------------------------------
  // Steps

  datatype Step =
    | BeginMulti(id: Id, kind: Kind, chains: set<ChainId>)
    | BeginSingle(id: Id, chain: ChainId, ts: Time)
    | Deliver(msg: Msg)

  /** Ids are never reused; everything else is up to clients and network. */
  ghost predicate Enabled(s: Sys, step: Step) {
    match step
    case BeginMulti(id, _, cs) => id !in s.coords && id !in s.singles && cs != {}
    case BeginSingle(id, _, _) => id !in s.coords && id !in s.singles
    case Deliver(msg) => msg in s.net
  }

  /** What the code asserts, or aborts without, when it takes the step. */
  ghost predicate Safe(s: Sys, step: Step) {
    step.Deliver? ==>
      var c := At(s.chains, step.msg.chain);
      match step.msg
      case R1(id, _, _) => id !in c.status
      case Ack(id, chain, ts) => id in s.coords && s.coords[id].Gathering? && chain !in s.coords[id].acks && ts > 0
      case R2(id, _, m) => c.len > 0 && Awaiting(c, id) && Proposed(c, id) <= m
      case One(id, _, t) => id !in c.status && (NeedSingleAt(c, t) ==> c.queue != [])
  }

  ghost predicate IsMax(acks: map<ChainId, Time>, m: Time) {
    && (forall c :: c in acks ==> acks[c] <= m)
    && (exists c :: c in acks && acks[c] == m)
  }

  lemma {:induction false} MaxExists(acks: map<ChainId, Time>)
    requires acks != map[]
    ensures exists m :: IsMax(acks, m)
    decreases |acks|
  {
    var c :| c in acks;
    var rest := acks - {c};
    assert acks.Keys == rest.Keys + {c};
    if rest == map[] {
      assert IsMax(acks, acks[c]);
    } else {
      MaxExists(rest);
      var m :| IsMax(rest, m);
      var d :| d in rest && rest[d] == m;
      var best := if acks[c] > m then acks[c] else m;
      assert acks[d] == m;
      forall x | x in acks ensures acks[x] <= best {
        if x != c { assert x in rest; }
      }
      assert IsMax(acks, best);
    }
  }

  ghost function MaxOf(acks: map<ChainId, Time>): (m: Time)
    requires acks != map[]
    ensures IsMax(acks, m)
  {
    MaxExists(acks);
    var m :| IsMax(acks, m);
    m
  }

  ghost function ReceiveAck(s: Sys, id: Id, c: ChainId, ts: Time): Sys
    requires id in s.coords && s.coords[id].Gathering?
  {
    var k := s.coords[id];
    var acks := k.acks[c := ts];
    var net := s.net - {Ack(id, c, ts)};
    if acks.Keys == k.chains then
      assert c in acks;
      var m := MaxOf(acks);
      s.(coords := s.coords[id := Finishing(k.kind, k.chains, acks, m)],
         net := net + set d | d in k.chains :: R2(id, d, m))
    else
      s.(coords := s.coords[id := Gathering(k.kind, k.chains, acks)], net := net)
  }

  ghost function Next(s: Sys, step: Step): Sys
    requires Enabled(s, step) && Safe(s, step)
  {
    match step
    case BeginMulti(id, kind, cs) =>
      s.(coords := s.coords[id := Gathering(kind, cs, map[])], net := s.net + set c | c in cs :: R1(id, c, kind))
    case BeginSingle(id, c, t) =>
      s.(singles := s.singles[id := (c, t)], net := s.net + {One(id, c, t)})
    case Deliver(R1(id, c, kind)) =>
      var (r, res) := AddMulti(At(s.chains, c), kind, id);
      s.(chains := s.chains[c := r], net := s.net - {step.msg} + {Ack(id, c, res.ts)})
    case Deliver(Ack(id, c, ts)) =>
      ReceiveAck(s, id, c, ts)
    case Deliver(R2(id, c, m)) =>
      s.(chains := s.chains[c := FinishMulti(At(s.chains, c), id, m)], net := s.net - {step.msg})
    case Deliver(One(id, c, t)) =>
      s.(chains := s.chains[c := HandleSingle(At(s.chains, c), id, t)], net := s.net - {step.msg})
  }

  // ---------------------------------------------------------------------------
  // Invariant

  ghost predicate ChainsInv(chains: map<ChainId, Chain>) {
    forall c :: Inv(At(chains, c))
  }

  /** An id waiting on a chain is owed a round two: its proposal is on the way to
      the client, recorded there, or answered by a round two on the way back. */
  ghost predicate WaitingInv(chains: map<ChainId, Chain>, coords: map<Id, Coord>, net: set<Msg>) {
    forall c, id, ts :: WaitsWith(At(chains, c), id, ts) ==>
      && id in coords && c in coords[id].chains
      && (coords[id].Gathering? ==> Ack(id, c, ts) in net || (c in coords[id].acks && coords[id].acks[c] == ts))
      && (coords[id].Finishing? ==> R2(id, c, coords[id].max) in net)
  }

  /** Every chain gives an id the one final timestamp its client chose. */
  ghost predicate AssignedInv(chains: map<ChainId, Chain>, coords: map<Id, Coord>) {
    forall c, id, ts :: Assigned(At(chains, c), id, ts) ==>
      id in coords && coords[id].Finishing? && coords[id].max == ts && c in coords[id].chains
  }

  ghost predicate R1Inv(chains: map<ChainId, Chain>, coords: map<Id, Coord>, net: set<Msg>) {
    forall id, c, k :: R1(id, c, k) in net ==>
      && id in coords && coords[id].Gathering? && coords[id].kind == k
      && c in coords[id].chains && c !in coords[id].acks && Unseen(At(chains, c), id)
  }

  ghost predicate AckInv(chains: map<ChainId, Chain>, coords: map<Id, Coord>, net: set<Msg>) {
    forall id, c, ts :: Ack(id, c, ts) in net ==>
      && id in coords && coords[id].Gathering? && c in coords[id].chains && c !in coords[id].acks
      && WaitsWith(At(chains, c), id, ts)
  }

  ghost predicate WaitsAtMost(s: Chain, id: Id, m: Time) {
    exists ts: Time :: ts <= m && WaitsWith(s, id, ts)
  }

  ghost predicate R2Inv(chains: map<ChainId, Chain>, coords: map<Id, Coord>, net: set<Msg>) {
    forall id, c, m :: R2(id, c, m) in net ==>
      && id in coords && coords[id].Finishing? && coords[id].max == m && c in coords[id].chains
      && WaitsAtMost(At(chains, c), id, m)
  }

  ghost predicate OneInv(chains: map<ChainId, Chain>, singles: map<Id, (ChainId, Time)>, net: set<Msg>) {
    forall id: Id, c: ChainId, t: Time :: One(id, c, t) in net ==>
      id in singles && singles[id] == (c, t) && Unseen(At(chains, c), id)
  }

  ghost predicate AckPending(net: set<Msg>, id: Id, c: ChainId) {
    exists ts :: Ack(id, c, ts) in net
  }

  /** Every chain of every multi-append is somewhere on the way to delivery. */
  ghost predicate CoordInv(chains: map<ChainId, Chain>, net: set<Msg>, id: Id, k: Coord) {
    && k.chains != {} && k.acks.Keys <= k.chains
    && (k.Gathering? ==>
          && k.acks.Keys != k.chains
          && (forall c :: c in k.acks ==> WaitsWith(At(chains, c), id, k.acks[c]))
          && (forall c :: c in k.chains && c !in k.acks ==>
                R1(id, c, k.kind) in net || AckPending(net, id, c)))
    && (k.Finishing? ==>
          && k.acks.Keys == k.chains && IsMax(k.acks, k.max)
          && (forall c :: c in k.chains ==> R2(id, c, k.max) in net || Assigned(At(chains, c), id, k.max)))
  }

  ghost predicate CoordsInv(chains: map<ChainId, Chain>, coords: map<Id, Coord>, net: set<Msg>) {
    forall id :: id in coords ==> CoordInv(chains, net, id, coords[id])
  }

  /** What a chain accepted came from a client, and a queued single lies above
      the timestamp its client had seen. */
  ghost predicate KnownAccepted(c: ChainId, a: Accepted, coords: map<Id, Coord>, singles: map<Id, (ChainId, Time)>) {
    match a.origin
    case FromMulti(k) => a.id in coords && coords[a.id].kind == k && c in coords[a.id].chains
    case FromSingle => a.id in singles && singles[a.id].0 == c && singles[a.id].1 < a.ts
  }

  ghost predicate KnownInv(chains: map<ChainId, Chain>, coords: map<Id, Coord>, singles: map<Id, (ChainId, Time)>) {
    && (forall c: ChainId, n :: 0 <= n < |At(chains, c).accepted| ==>
          KnownAccepted(c, At(chains, c).accepted[n], coords, singles))
    && (forall c: ChainId, j :: DirectAt(At(chains, c).history, j) ==>
          var e := At(chains, c).history[j];
          e.single in singles && singles[e.single] == (c, e.minTs))
  }

  ghost predicate SinglesInv(chains: map<ChainId, Chain>, singles: map<Id, (ChainId, Time)>, net: set<Msg>) {
    forall id :: id in singles ==>
      One(id, singles[id].0, singles[id].1) in net || !Unseen(At(chains, singles[id].0), id)
  }

  ghost predicate SysInv(s: Sys) {
    && ChainsInv(s.chains)
    && WaitingInv(s.chains, s.coords, s.net)
    && AssignedInv(s.chains, s.coords)
    && R1Inv(s.chains, s.coords, s.net)
    && AckInv(s.chains, s.coords, s.net)
    && R2Inv(s.chains, s.coords, s.net)
    && OneInv(s.chains, s.singles, s.net)
    && CoordsInv(s.chains, s.coords, s.net)
    && KnownInv(s.chains, s.coords, s.singles)
    && SinglesInv(s.chains, s.singles, s.net)
    && s.coords.Keys !! s.singles.Keys
  }

  lemma InitInv()
    ensures SysInv(INIT)
  {
    EmptyInv();
  }

  // --- no step ever meets an assertion of the code

  lemma SafeR1(s: Sys, id: Id, c: ChainId, k: Kind)
    requires SysInv(s) && R1(id, c, k) in s.net
    ensures Fresh(At(s.chains, c), id)
    ensures Safe(s, Deliver(R1(id, c, k)))
  {
    assert Inv(At(s.chains, c));
    UnseenIsFresh(At(s.chains, c), id);
    FreshNotInStatus(At(s.chains, c), id);
  }

  lemma WaitsPositive(s: Chain, id: Id, ts: Time)
    requires Core(s) && WaitsWith(s, id, ts)
    ensures ts > 0
  {
  }

  lemma SafeAck(s: Sys, id: Id, c: ChainId, ts: Time)
    requires SysInv(s) && Ack(id, c, ts) in s.net
    ensures Safe(s, Deliver(Ack(id, c, ts)))
  {
    assert Inv(At(s.chains, c));
    WaitsPositive(At(s.chains, c), id, ts);
  }

  lemma SafeR2(s: Sys, id: Id, c: ChainId, m: Time)
    requires SysInv(s) && R2(id, c, m) in s.net
    ensures Safe(s, Deliver(R2(id, c, m)))
  {
    hide Core, WaitsWith;
    assert Inv(At(s.chains, c));
    var ts: Time :| ts <= m && WaitsWith(At(s.chains, c), id, ts);
    WaitsIsAwaiting(At(s.chains, c), id, ts);
    CoreLen(At(s.chains, c));
  }

  lemma SafeOne(s: Sys, id: Id, c: ChainId, t: Time)
    requires SysInv(s) && One(id, c, t) in s.net
    ensures Fresh(At(s.chains, c), id)
    ensures Safe(s, Deliver(One(id, c, t)))
  {
    assert Inv(At(s.chains, c));
    UnseenIsFresh(At(s.chains, c), id);
    HandleSingleInv(At(s.chains, c), id, t);
  }

  // --- every step keeps the invariant

  /** An id no client has used is unknown to every chain. */
  lemma UnusedIsUnseen(s: Sys, id: Id, c: ChainId)
    requires KnownInv(s.chains, s.coords, s.singles) && id !in s.coords && id !in s.singles
    ensures Unseen(At(s.chains, c), id)
  {
  }

  lemma BeginMultiNet(s: Sys, id: Id, kind: Kind, cs: set<ChainId>)
    requires SysInv(s) && Enabled(s, BeginMulti(id, kind, cs))
    ensures var r := Next(s, BeginMulti(id, kind, cs));
      && R1Inv(r.chains, r.coords, r.net) && AckInv(r.chains, r.coords, r.net) && R2Inv(r.chains, r.coords, r.net)
      && OneInv(r.chains, r.singles, r.net)
  {
    hide Inv, WaitsWith, Assigned, Unseen, WaitingInv, AssignedInv, CoordsInv, KnownInv, SinglesInv;
    forall c ensures Unseen(At(s.chains, c), id) { UnusedIsUnseen(s, id, c); }
  }

  lemma BeginMultiRest(s: Sys, id: Id, kind: Kind, cs: set<ChainId>)
    requires SysInv(s) && Enabled(s, BeginMulti(id, kind, cs))
    ensures var r := Next(s, BeginMulti(id, kind, cs));
      && WaitingInv(r.chains, r.coords, r.net) && AssignedInv(r.chains, r.coords)
      && KnownInv(r.chains, r.coords, r.singles) && SinglesInv(r.chains, r.singles, r.net)
  {
    hide Inv, WaitsWith, Assigned, Unseen, R1Inv, AckInv, R2Inv, OneInv, CoordsInv;
  }

  lemma BeginMultiCoords(s: Sys, id: Id, kind: Kind, cs: set<ChainId>)
    requires SysInv(s) && Enabled(s, BeginMulti(id, kind, cs))
    ensures var r := Next(s, BeginMulti(id, kind, cs)); CoordsInv(r.chains, r.coords, r.net)
  {
    hide Inv, WaitsWith, Assigned, Unseen, WaitingInv, AssignedInv, KnownInv, SinglesInv, R1Inv, AckInv, R2Inv,
      OneInv;
    var r := Next(s, BeginMulti(id, kind, cs));
    forall x | x in s.coords ensures CoordInv(r.chains, r.net, x, s.coords[x]) {
      CoordGrows(s.chains, s.net, r.net, x, s.coords[x]);
    }
  }

  lemma CoordGrows(chains: map<ChainId, Chain>, net: set<Msg>, more: set<Msg>, id: Id, k: Coord)
    requires CoordInv(chains, net, id, k) && net <= more
    ensures CoordInv(chains, more, id, k)
  {
  }

  lemma BeginMultiInv(s: Sys, id: Id, kind: Kind, cs: set<ChainId>)
    requires SysInv(s) && Enabled(s, BeginMulti(id, kind, cs))
    ensures SysInv(Next(s, BeginMulti(id, kind, cs)))
  {
    hide ChainsInv, WaitingInv, AssignedInv, KnownInv, SinglesInv, R1Inv, AckInv, R2Inv, OneInv, CoordsInv;
    BeginMultiNet(s, id, kind, cs);
    BeginMultiRest(s, id, kind, cs);
    BeginMultiCoords(s, id, kind, cs);
  }

  /** A single append in flight concerns no multi-append. */
  lemma BeginSingleMultis(chains: map<ChainId, Chain>, coords: map<Id, Coord>, net: set<Msg>, m: Msg)
    requires m.One?
    requires WaitingInv(chains, coords, net) && R1Inv(chains, coords, net) && AckInv(chains, coords, net)
    requires R2Inv(chains, coords, net)
    ensures WaitingInv(chains, coords, net + {m}) && R1Inv(chains, coords, net + {m})
    ensures AckInv(chains, coords, net + {m}) && R2Inv(chains, coords, net + {m})
  {
    hide At, WaitsWith, Unseen, WaitsAtMost;
  }

  lemma BeginSingleCoords(chains: map<ChainId, Chain>, coords: map<Id, Coord>, net: set<Msg>, m: Msg)
    requires CoordsInv(chains, coords, net)
    ensures CoordsInv(chains, coords, net + {m})
  {
    hide CoordInv;
    forall x | x in coords ensures CoordInv(chains, net + {m}, x, coords[x]) {
      CoordGrows(chains, net, net + {m}, x, coords[x]);
    }
  }

  lemma BeginSingleSingles(s: Sys, id: Id, c: ChainId, t: Time)
    requires OneInv(s.chains, s.singles, s.net) && KnownInv(s.chains, s.coords, s.singles)
    requires SinglesInv(s.chains, s.singles, s.net) && id !in s.singles && Unseen(At(s.chains, c), id)
    ensures var singles, net := s.singles[id := (c, t)], s.net + {One(id, c, t)};
      && OneInv(s.chains, singles, net) && KnownInv(s.chains, s.coords, singles) && SinglesInv(s.chains, singles, net)
  {
    hide At, Unseen;
  }

  lemma BeginSingleInv(s: Sys, id: Id, c: ChainId, t: Time)
    requires SysInv(s) && Enabled(s, BeginSingle(id, c, t))
    ensures SysInv(Next(s, BeginSingle(id, c, t)))
  {
    hide ChainsInv, WaitingInv, AssignedInv, KnownInv, SinglesInv, R1Inv, AckInv, R2Inv, OneInv, CoordsInv, Unseen;
    UnusedIsUnseen(s, id, c);
    BeginSingleMultis(s.chains, s.coords, s.net, One(id, c, t));
    BeginSingleCoords(s.chains, s.coords, s.net, One(id, c, t));
    BeginSingleSingles(s, id, c, t);
  }

  /** What a round one delivered to chain c does to that chain. */
  ghost predicate R1Effect(was: Chain, now: Chain, id: Id, k: Kind, ts: Time) {
    && Inv(now)
    && (forall x, t :: WaitsWith(now, x, t) <==> WaitsWith(was, x, t) || (x == id && t == ts))
    && (forall x, t :: Assigned(was, x, t) <==> Assigned(now, x, t))
    && (forall x :: Unseen(now, x) <==> Unseen(was, x) && x != id)
    && now.accepted == was.accepted + [Accepted(FromMulti(k), id, ts)]
    && now.history == was.history
  }

  lemma R1Chain(was: Chain, id: Id, k: Kind)
    requires Inv(was) && Fresh(was, id)
    ensures id !in was.status
    ensures var (now, res) := AddMulti(was, k, id);
      res == NewAppend(was.nextTs, |was.accepted|) && R1Effect(was, now, id, k, was.nextTs)
  {
    hide Core, WaitsWith, Assigned, Unseen;
    FreshNotInStatus(was, id);
    AddMultiInv(was, k, id);
    AddMultiPending(was, k, id);
    AcceptUnseen(was, AddMulti(was, k, id).0, Accepted(FromMulti(k), id, was.nextTs));
  }

  /** Only chain c changes between s and r. */
  ghost predicate OnlyChain(s: Sys, r: Sys, c: ChainId) {
    && (forall d :: d != c ==> At(r.chains, d) == At(s.chains, d))
    && r.singles == s.singles
  }

  ghost predicate R1Step(s: Sys, r: Sys, id: Id, c: ChainId, k: Kind, ts: Time) {
    && SysInv(s) && R1(id, c, k) in s.net
    && OnlyChain(s, r, c) && r.coords == s.coords
    && R1Effect(At(s.chains, c), At(r.chains, c), id, k, ts)
    && r.net == s.net - {R1(id, c, k)} + {Ack(id, c, ts)}
  }

  lemma R1Waiting(s: Sys, r: Sys, id: Id, c: ChainId, k: Kind, ts: Time)
    requires R1Step(s, r, id, c, k, ts)
    ensures WaitingInv(r.chains, r.coords, r.net) && AssignedInv(r.chains, r.coords)
  {
    hide Inv, WaitsWith, Assigned, Unseen, AckInv, R2Inv, OneInv, CoordsInv, KnownInv, SinglesInv;
    forall d, x, t | WaitsWith(At(r.chains, d), x, t) && !(d == c && x == id && t == ts)
      ensures WaitsWith(At(s.chains, d), x, t)
    {
    }
    forall d, x, t | Assigned(At(r.chains, d), x, t) ensures Assigned(At(s.chains, d), x, t) {
    }
  }

  lemma R1Net(s: Sys, r: Sys, id: Id, c: ChainId, k: Kind, ts: Time)
    requires R1Step(s, r, id, c, k, ts)
    ensures R1Inv(r.chains, r.coords, r.net) && AckInv(r.chains, r.coords, r.net)
    ensures R2Inv(r.chains, r.coords, r.net) && OneInv(r.chains, r.singles, r.net)
  {
    hide Inv, WaitsWith, Assigned, Unseen, WaitingInv, AssignedInv, CoordsInv, KnownInv, SinglesInv;
    forall d, x, t | WaitsWith(At(s.chains, d), x, t) ensures WaitsWith(At(r.chains, d), x, t) {
    }
    forall d, x, m | WaitsAtMost(At(s.chains, d), x, m) ensures WaitsAtMost(At(r.chains, d), x, m) {
    }
    forall d, x | Unseen(At(s.chains, d), x) && x != id ensures Unseen(At(r.chains, d), x) {
    }
  }

  lemma R1Coords(s: Sys, r: Sys, id: Id, c: ChainId, k: Kind, ts: Time)
    requires R1Step(s, r, id, c, k, ts)
    ensures CoordsInv(r.chains, r.coords, r.net)
  {
    hide Inv, WaitsWith, Assigned, Unseen, WaitingInv, AssignedInv, KnownInv, SinglesInv, AckInv, R2Inv, OneInv;
    forall d, x, t | WaitsWith(At(s.chains, d), x, t) ensures WaitsWith(At(r.chains, d), x, t) {
    }
    forall d, x, t | Assigned(At(s.chains, d), x, t) ensures Assigned(At(r.chains, d), x, t) {
    }
    assert AckPending(r.net, id, c);
    forall x, d | AckPending(s.net, x, d) ensures AckPending(r.net, x, d) {
      var t :| Ack(x, d, t) in s.net;
      assert Ack(x, d, t) in r.net;
    }
  }

  lemma R1Known(s: Sys, r: Sys, id: Id, c: ChainId, k: Kind, ts: Time)
    requires R1Step(s, r, id, c, k, ts)
    ensures ChainsInv(r.chains) && KnownInv(r.chains, r.coords, r.singles) && SinglesInv(r.chains, r.singles, r.net)
  {
    hide Inv, WaitsWith, Assigned, Unseen, WaitingInv, AssignedInv, CoordsInv, AckInv, R2Inv, OneInv;
  }

  lemma DeliverR1Inv(s: Sys, id: Id, c: ChainId, k: Kind)
    requires SysInv(s) && R1(id, c, k) in s.net
    ensures Safe(s, Deliver(R1(id, c, k)))
    ensures SysInv(Next(s, Deliver(R1(id, c, k))))
  {
    hide Core, WaitsWith, Assigned, Unseen, WaitingInv, AssignedInv, R1Inv, AckInv, R2Inv, OneInv, CoordsInv,
      KnownInv, SinglesInv;
    SafeR1(s, id, c, k);
    assert Inv(At(s.chains, c));
    R1Chain(At(s.chains, c), id, k);
    var r := Next(s, Deliver(R1(id, c, k)));
    var ts := At(s.chains, c).nextTs;
    R1Waiting(s, r, id, c, k, ts);
    R1Net(s, r, id, c, k, ts);
    R1Coords(s, r, id, c, k, ts);
    R1Known(s, r, id, c, k, ts);
  }

  // --- a proposal reaches its client

  ghost predicate AckStep(s: Sys, r: Sys, id: Id, c: ChainId, ts: Time) {
    && SysInv(s) && Ack(id, c, ts) in s.net
    && id in s.coords && s.coords[id].Gathering?
    && r == ReceiveAck(s, id, c, ts)
  }

  lemma AckWaiting(s: Sys, r: Sys, id: Id, c: ChainId, ts: Time)
    requires AckStep(s, r, id, c, ts)
    ensures WaitingInv(r.chains, r.coords, r.net)
  {
    hide Core, Assigned, Unseen, R1Inv, R2Inv, OneInv, CoordsInv, KnownInv, SinglesInv, AssignedInv;
    hide WaitsWith;
    forall d, x, t | WaitsWith(At(r.chains, d), x, t)
      ensures x in r.coords && d in r.coords[x].chains
      ensures r.coords[x].Gathering? ==> Ack(x, d, t) in r.net || (d in r.coords[x].acks && r.coords[x].acks[d] == t)
      ensures r.coords[x].Finishing? ==> R2(x, d, r.coords[x].max) in r.net
    {
      if x == id && d == c {
        WaitsOnce(At(s.chains, c), id, ts, t);
      }
    }
  }

  lemma AckNet(s: Sys, r: Sys, id: Id, c: ChainId, ts: Time)
    requires AckStep(s, r, id, c, ts)
    ensures R1Inv(r.chains, r.coords, r.net) && AckInv(r.chains, r.coords, r.net)
  {
    hide SysInv, ReceiveAck, R1Inv, AckInv;
    AckLeaves(s, r, id, c, ts);
    AckOthers(s, id, c, ts);
    AckNetParts(s, r, id, c, ts);
  }

  /** The other messages of the id are about chains that have not answered. */
  lemma AckOthers(s: Sys, id: Id, c: ChainId, ts: Time)
    requires SysInv(s) && Ack(id, c, ts) in s.net
    ensures R1Inv(s.chains, s.coords, s.net) && AckInv(s.chains, s.coords, s.net)
    ensures forall k :: R1(id, c, k) !in s.net
    ensures forall t :: Ack(id, c, t) in s.net ==> t == ts
  {
    hide Core, Assigned, WaitsWith, R2Inv, OneInv, CoordsInv, KnownInv, SinglesInv, AssignedInv, WaitingInv, Unseen;
    AckIsSeen(s, id, c, ts);
    forall t | Ack(id, c, t) in s.net ensures t == ts {
      WaitsOnce(At(s.chains, c), id, ts, t);
    }
  }

  /** What the client's step does to its own state and to the messages in flight. */
  lemma AckLeaves(s: Sys, r: Sys, id: Id, c: ChainId, ts: Time)
    requires id in s.coords && s.coords[id].Gathering? && r == ReceiveAck(s, id, c, ts)
    ensures r.chains == s.chains && r.coords.Keys == s.coords.Keys && id in r.coords
    ensures forall x :: x in s.coords && x != id ==> r.coords[x] == s.coords[x]
    ensures r.coords[id].kind == s.coords[id].kind && r.coords[id].chains == s.coords[id].chains
    ensures r.coords[id].acks == s.coords[id].acks[c := ts]
    ensures r.coords[id].Finishing? <==> r.coords[id].acks.Keys == s.coords[id].chains
    ensures forall m :: m in r.net && !m.R2? ==> m in s.net && m != Ack(id, c, ts)
  {
  }

  lemma AckNetParts(s: Sys, r: Sys, id: Id, c: ChainId, ts: Time)
    requires R1Inv(s.chains, s.coords, s.net) && AckInv(s.chains, s.coords, s.net) && id in s.coords
    requires forall k :: R1(id, c, k) !in s.net
    requires forall t :: Ack(id, c, t) in s.net ==> t == ts
    requires r.chains == s.chains && r.coords.Keys == s.coords.Keys
    requires forall x :: x in s.coords && x != id ==> r.coords[x] == s.coords[x]
    requires r.coords[id].kind == s.coords[id].kind && r.coords[id].chains == s.coords[id].chains
    requires r.coords[id].acks == s.coords[id].acks[c := ts]
    requires r.coords[id].Finishing? <==> r.coords[id].acks.Keys == s.coords[id].chains
    requires forall m :: m in r.net && !m.R2? ==> m in s.net && m != Ack(id, c, ts)
    ensures R1Inv(r.chains, r.coords, r.net) && AckInv(r.chains, r.coords, r.net)
  {
    hide At, Unseen, WaitsWith;
    forall x, d, k | R1(x, d, k) in r.net
      ensures x in r.coords && r.coords[x].Gathering? && r.coords[x].kind == k
        && d in r.coords[x].chains && d !in r.coords[x].acks && Unseen(At(r.chains, d), x)
    {
      assert R1(x, d, k) in s.net;
    }
    forall x, d, t | Ack(x, d, t) in r.net
      ensures x in r.coords && r.coords[x].Gathering? && d in r.coords[x].chains && d !in r.coords[x].acks
        && WaitsWith(At(r.chains, d), x, t)
    {
      assert Ack(x, d, t) in s.net;
    }
  }

  lemma AckIsSeen(s: Sys, id: Id, c: ChainId, ts: Time)
    requires SysInv(s) && Ack(id, c, ts) in s.net
    ensures !Unseen(At(s.chains, c), id)
  {
    hide Core;
    PendingIsSeen(At(s.chains, c), id, ts);
  }

  lemma AckRound2(s: Sys, r: Sys, id: Id, c: ChainId, ts: Time)
    requires AckStep(s, r, id, c, ts)
    ensures R2Inv(r.chains, r.coords, r.net)
  {
    hide ChainsInv, Assigned, WaitsWith, Unseen, R1Inv, WaitingInv, OneInv, AssignedInv, KnownInv, SinglesInv, IsMax,
      CoordsInv, AckInv, At, WaitsAtMost;
    if r.coords[id].Finishing? {
      forall d | d in s.coords[id].chains ensures WaitsAtMost(At(s.chains, d), id, r.coords[id].max) {
        AnsweredWaits(s, r, id, c, ts, d);
      }
    }
  }

  /** When all have answered, each chain waits with a proposal the maximum covers. */
  lemma AnsweredWaits(s: Sys, r: Sys, id: Id, c: ChainId, ts: Time, d: ChainId)
    requires AckStep(s, r, id, c, ts) && r.coords[id].Finishing? && d in s.coords[id].chains
    ensures WaitsAtMost(At(s.chains, d), id, r.coords[id].max)
  {
    hide ChainsInv, Assigned, WaitsWith, Unseen, R1Inv, WaitingInv, OneInv, AssignedInv, KnownInv, SinglesInv, IsMax,
      R2Inv;
    var k := s.coords[id];
    assert CoordInv(s.chains, s.net, id, k);
    var acks := k.acks[c := ts];
    assert WaitsWith(At(s.chains, d), id, acks[d]);
    MaxBounds(acks, r.coords[id].max, d);
  }

  lemma MaxBounds(acks: map<ChainId, Time>, m: Time, d: ChainId)
    requires IsMax(acks, m) && d in acks
    ensures acks[d] <= m
  {
  }

  lemma AckRest(s: Sys, r: Sys, id: Id, c: ChainId, ts: Time)
    requires AckStep(s, r, id, c, ts)
    ensures OneInv(r.chains, r.singles, r.net) && AssignedInv(r.chains, r.coords)
    ensures KnownInv(r.chains, r.coords, r.singles) && SinglesInv(r.chains, r.singles, r.net)
  {
    hide ChainsInv, Assigned, WaitsWith, Unseen, R1Inv, WaitingInv, R2Inv, AckInv, CoordsInv;
  }

  lemma AckOwnCoord(s: Sys, r: Sys, id: Id, c: ChainId, ts: Time)
    requires AckStep(s, r, id, c, ts)
    ensures CoordInv(r.chains, r.net, id, r.coords[id])
  {
    hide ChainsInv, Assigned, WaitsWith, Unseen, R1Inv, WaitingInv, R2Inv, AssignedInv, OneInv, KnownInv, SinglesInv,
      IsMax, CoordsInv, At;
    OwnCoord(s, id);
    if r.coords[id].Gathering? {
      forall d | AckPending(s.net, id, d) && d != c ensures AckPending(r.net, id, d) {
        var t :| Ack(id, d, t) in s.net;
        assert Ack(id, d, t) in r.net;
      }
    }
  }

  lemma OwnCoord(s: Sys, id: Id)
    requires CoordsInv(s.chains, s.coords, s.net) && id in s.coords
    ensures CoordInv(s.chains, s.net, id, s.coords[id])
  {
  }

  lemma AckCoords(s: Sys, r: Sys, id: Id, c: ChainId, ts: Time)
    requires AckStep(s, r, id, c, ts)
    ensures CoordsInv(r.chains, r.coords, r.net)
  {
    hide ChainsInv, Assigned, WaitsWith, Unseen, R1Inv, WaitingInv, R2Inv, AssignedInv, OneInv, KnownInv, SinglesInv,
      AckInv, IsMax;
    AckOwnCoord(s, r, id, c, ts);
    forall x | x in s.coords && x != id ensures CoordInv(r.chains, r.net, x, s.coords[x]) {
      assert CoordInv(s.chains, s.net, x, s.coords[x]);
      forall d | AckPending(s.net, x, d) ensures AckPending(r.net, x, d) {
        var t :| Ack(x, d, t) in s.net;
        assert Ack(x, d, t) in r.net;
      }
    }
  }

  lemma DeliverAckInv(s: Sys, id: Id, c: ChainId, ts: Time)
    requires SysInv(s) && Ack(id, c, ts) in s.net
    ensures Safe(s, Deliver(Ack(id, c, ts)))
    ensures SysInv(Next(s, Deliver(Ack(id, c, ts))))
  {
    hide ChainsInv, WaitsWith, Assigned, Unseen, WaitingInv, AssignedInv, R1Inv, AckInv, R2Inv, OneInv, CoordsInv,
      KnownInv, SinglesInv;
    SafeAck(s, id, c, ts);
    var r := Next(s, Deliver(Ack(id, c, ts)));
    AckWaiting(s, r, id, c, ts);
    AckNet(s, r, id, c, ts);
    AckRound2(s, r, id, c, ts);
    AckRest(s, r, id, c, ts);
    AckCoords(s, r, id, c, ts);
  }

  // --- a final timestamp reaches a chain

  ghost predicate R2Effect(was: Chain, now: Chain, id: Id, m: Time) {
    && Inv(now)
    && (forall x, t :: WaitsWith(now, x, t) <==> WaitsWith(was, x, t) && x != id)
    && (forall x, t :: Assigned(now, x, t) <==> Assigned(was, x, t) || (x == id && t == m))
    && (forall x :: Unseen(now, x) <==> Unseen(was, x))
    && (forall j :: DirectAt(now.history, j) ==> DirectAt(was.history, j) && now.history[j] == was.history[j])
    && now.accepted == was.accepted
  }

  lemma R2Chain(was: Chain, id: Id, m: Time)
    requires Inv(was) && Awaiting(was, id) && Proposed(was, id) <= m
    ensures was.len > 0 && R2Effect(was, FinishMulti(was, id, m), id, m)
  {
    hide Core, WaitsWith, Assigned, Unseen;
    CoreLen(was);
    FinishMultiInv(was, id, m);
    FinishMultiPending(was, id, m);
    FlushUnseen(was, FinishMulti(was, id, m));
  }

  ghost predicate R2Step(s: Sys, r: Sys, id: Id, c: ChainId, m: Time) {
    && SysInv(s) && R2(id, c, m) in s.net
    && OnlyChain(s, r, c) && r.coords == s.coords
    && R2Effect(At(s.chains, c), At(r.chains, c), id, m)
    && r.net == s.net - {R2(id, c, m)}
  }

  lemma R2Waiting(s: Sys, r: Sys, id: Id, c: ChainId, m: Time)
    requires R2Step(s, r, id, c, m)
    ensures WaitingInv(r.chains, r.coords, r.net) && AssignedInv(r.chains, r.coords)
  {
    hide Inv, WaitsWith, Assigned, Unseen, AckInv, R1Inv, OneInv, CoordsInv, KnownInv, SinglesInv;
    forall d, x, t | WaitsWith(At(r.chains, d), x, t) ensures WaitsWith(At(s.chains, d), x, t) && !(d == c && x == id) {
    }
    forall d, x, t | Assigned(At(r.chains, d), x, t) && !(d == c && x == id && t == m)
      ensures Assigned(At(s.chains, d), x, t)
    {
    }
  }

  lemma R2Net(s: Sys, r: Sys, id: Id, c: ChainId, m: Time)
    requires R2Step(s, r, id, c, m)
    ensures R1Inv(r.chains, r.coords, r.net) && AckInv(r.chains, r.coords, r.net)
    ensures R2Inv(r.chains, r.coords, r.net) && OneInv(r.chains, r.singles, r.net)
  {
    hide Inv, WaitsWith, Assigned, Unseen, WaitingInv, AssignedInv, CoordsInv, KnownInv, SinglesInv;
    forall d, x, t | WaitsWith(At(s.chains, d), x, t) && !(d == c && x == id) ensures WaitsWith(At(r.chains, d), x, t) {
    }
    forall d, x, u | WaitsAtMost(At(s.chains, d), x, u) && !(d == c && x == id)
      ensures WaitsAtMost(At(r.chains, d), x, u)
    {
      var t: Time :| t <= u && WaitsWith(At(s.chains, d), x, t);
      assert WaitsWith(At(r.chains, d), x, t);
    }
    forall d, x | Unseen(At(s.chains, d), x) ensures Unseen(At(r.chains, d), x) {
    }
  }

  lemma R2Coords(s: Sys, r: Sys, id: Id, c: ChainId, m: Time)
    requires R2Step(s, r, id, c, m)
    ensures CoordsInv(r.chains, r.coords, r.net)
  {
    hide Inv, WaitsWith, Assigned, Unseen, WaitingInv, AssignedInv, KnownInv, SinglesInv, AckInv, R1Inv, OneInv;
    forall d, x, t | WaitsWith(At(s.chains, d), x, t) && x != id ensures WaitsWith(At(r.chains, d), x, t) {
    }
    forall d, x, t | Assigned(At(s.chains, d), x, t) ensures Assigned(At(r.chains, d), x, t) {
    }
    forall x, d | AckPending(s.net, x, d) ensures AckPending(r.net, x, d) {
      var t :| Ack(x, d, t) in s.net;
      assert Ack(x, d, t) in r.net;
    }
  }

  lemma R2Known(s: Sys, r: Sys, id: Id, c: ChainId, m: Time)
    requires R2Step(s, r, id, c, m)
    ensures ChainsInv(r.chains) && KnownInv(r.chains, r.coords, r.singles) && SinglesInv(r.chains, r.singles, r.net)
  {
    hide Inv, WaitsWith, Assigned, Unseen, WaitingInv, AssignedInv, CoordsInv, AckInv, R1Inv, OneInv;
  }

  lemma DeliverR2Inv(s: Sys, id: Id, c: ChainId, m: Time)
    requires SysInv(s) && R2(id, c, m) in s.net
    ensures Safe(s, Deliver(R2(id, c, m)))
    ensures SysInv(Next(s, Deliver(R2(id, c, m))))
  {
    hide Core, WaitsWith, Assigned, Unseen, WaitingInv, AssignedInv, R1Inv, AckInv, R2Inv, OneInv, CoordsInv,
      KnownInv, SinglesInv;
    SafeR2(s, id, c, m);
    assert Inv(At(s.chains, c));
    R2Chain(At(s.chains, c), id, m);
    var r := Next(s, Deliver(R2(id, c, m)));
    R2Waiting(s, r, id, c, m);
    R2Net(s, r, id, c, m);
    R2Coords(s, r, id, c, m);
    R2Known(s, r, id, c, m);
  }

  // --- a single append reaches its chain

  ghost predicate OneEffect(was: Chain, now: Chain, id: Id, t: Time) {
    && Inv(now)
    && SamePending(was, now)
    && (forall x :: Unseen(now, x) <==> Unseen(was, x) && x != id)
    && (|| (now.history == was.history &&
            exists ts :: ts > t && now.accepted == was.accepted + [Accepted(FromSingle, id, ts)])
        || (now.accepted == was.accepted && now.history == was.history + [Direct(id, t, was.len)]))
  }

  lemma OneChain(was: Chain, id: Id, t: Time)
    requires Inv(was) && Fresh(was, id)
    ensures Answerable(was, id) && (NeedSingleAt(was, t) ==> was.queue != [])
    ensures OneEffect(was, HandleSingle(was, id, t), id, t)
  {
    hide Core, WaitsWith, Assigned, Unseen;
    HandleSingleInv(was, id, t);
    HandleSinglePending(was, id, t);
    var now := HandleSingle(was, id, t);
    if NeedSingleAt(was, t) {
      var ts :| ts > t && now.accepted == was.accepted + [Accepted(FromSingle, id, ts)];
      AcceptUnseen(was, now, Accepted(FromSingle, id, ts));
    } else {
      DirectUnseen(was, now, Direct(id, t, was.len));
    }
  }

  ghost predicate OneStep(s: Sys, r: Sys, id: Id, c: ChainId, t: Time) {
    && SysInv(s) && One(id, c, t) in s.net
    && OnlyChain(s, r, c) && r.coords == s.coords
    && OneEffect(At(s.chains, c), At(r.chains, c), id, t)
    && r.net == s.net - {One(id, c, t)}
  }

  lemma OneMultis(s: Sys, r: Sys, id: Id, c: ChainId, t: Time)
    requires OneStep(s, r, id, c, t)
    ensures WaitingInv(r.chains, r.coords, r.net) && AssignedInv(r.chains, r.coords)
    ensures R2Inv(r.chains, r.coords, r.net) && AckInv(r.chains, r.coords, r.net)
  {
    hide Inv, WaitsWith, Assigned, Unseen, R1Inv, OneInv, CoordsInv, KnownInv, SinglesInv;
    forall d, x, u ensures WaitsWith(At(r.chains, d), x, u) <==> WaitsWith(At(s.chains, d), x, u) {
    }
    forall d, x, u ensures Assigned(At(r.chains, d), x, u) <==> Assigned(At(s.chains, d), x, u) {
    }
    forall d, x, u | WaitsAtMost(At(s.chains, d), x, u) ensures WaitsAtMost(At(r.chains, d), x, u) {
    }
  }

  lemma OneCoords(s: Sys, r: Sys, id: Id, c: ChainId, t: Time)
    requires OneStep(s, r, id, c, t)
    ensures CoordsInv(r.chains, r.coords, r.net) && R1Inv(r.chains, r.coords, r.net)
    ensures OneInv(r.chains, r.singles, r.net)
  {
    hide Inv, WaitsWith, Assigned, Unseen, WaitingInv, AssignedInv, AckInv, R2Inv, KnownInv, SinglesInv;
    forall d, x, u ensures WaitsWith(At(r.chains, d), x, u) <==> WaitsWith(At(s.chains, d), x, u) {
    }
    forall d, x, u ensures Assigned(At(r.chains, d), x, u) <==> Assigned(At(s.chains, d), x, u) {
    }
    forall d, x | Unseen(At(s.chains, d), x) && x != id ensures Unseen(At(r.chains, d), x) {
    }
    forall x, d | AckPending(s.net, x, d) ensures AckPending(r.net, x, d) {
      var u :| Ack(x, d, u) in s.net;
      assert Ack(x, d, u) in r.net;
    }
  }

  lemma OneKnown(s: Sys, r: Sys, id: Id, c: ChainId, t: Time)
    requires OneStep(s, r, id, c, t)
    ensures ChainsInv(r.chains) && KnownInv(r.chains, r.coords, r.singles) && SinglesInv(r.chains, r.singles, r.net)
  {
    hide Inv, WaitsWith, Assigned, Unseen, WaitingInv, AssignedInv, CoordsInv, AckInv, R1Inv, R2Inv;
  }

  lemma DeliverOneInv(s: Sys, id: Id, c: ChainId, t: Time)
    requires SysInv(s) && One(id, c, t) in s.net
    ensures Safe(s, Deliver(One(id, c, t)))
    ensures SysInv(Next(s, Deliver(One(id, c, t))))
  {
    hide Core, WaitsWith, Assigned, Unseen, WaitingInv, AssignedInv, R1Inv, AckInv, R2Inv, OneInv, CoordsInv,
      KnownInv, SinglesInv;
    SafeOne(s, id, c, t);
    assert Inv(At(s.chains, c));
    OneChain(At(s.chains, c), id, t);
    var r := Next(s, Deliver(One(id, c, t)));
    OneMultis(s, r, id, c, t);
    OneCoords(s, r, id, c, t);
    OneKnown(s, r, id, c, t);
  }

  /** No enabled step is unsafe, and every step keeps the invariant. */
  lemma StepInv(s: Sys, step: Step)
    requires SysInv(s) && Enabled(s, step)
    ensures Safe(s, step) && SysInv(Next(s, step))
  {
    hide SysInv;
    match step
    case BeginMulti(id, kind, cs) => BeginMultiInv(s, id, kind, cs);
    case BeginSingle(id, c, t) => BeginSingleInv(s, id, c, t);
    case Deliver(R1(id, c, k)) => DeliverR1Inv(s, id, c, k);
    case Deliver(Ack(id, c, ts)) => DeliverAckInv(s, id, c, ts);
    case Deliver(R2(id, c, m)) => DeliverR2Inv(s, id, c, m);
    case Deliver(One(id, c, t)) => DeliverOneInv(s, id, c, t);
  }
}
