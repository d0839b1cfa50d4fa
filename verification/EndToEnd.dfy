/** From the application to the log and back: the locations a client reports are the
    places where the chains delivered the write, and a client's single appends come
    after the writes it was told about. The client is that of StoreClient.dfy, its
    answers come from the storage of WriteStorage.dfy, and the chains are those of a
    reachable state of SkeensSystem.dfy. */
module EndToEnd {
  import opened SkeensOrder
  import opened SkeensChain
  import opened SkeensSystem
  import opened SkeensTheorems
  import opened SkeensRuns
  import opened SkeensSingles
  import B = ServerBatches
  import C = StoreClients
  import H = HeadServers
  import K = ClientCoordinators
  import R = Replica
  import RR = ReplicaRuns
  import W = WriteStorages

  predicate PlacedAt(s: Sys, c: ChainId, j: int, id: Id, index: nat) {
    FlushedAt(History(s, c), j) && History(s, c)[j].g.id == id && History(s, c)[j].index == index
  }

  /** Chain c has delivered id at this index. */
  ghost predicate StoredAt(s: Sys, c: ChainId, id: Id, index: nat) {
    exists j :: PlacedAt(s, c, j, id, index)
  }

  /** What the server says of its own chains is true. */
  ghost predicate Tells(s: Sys, cfg: C.Config, chains: seq<nat>, id: Id, from: C.Server, indices: seq<nat>)
    requires C.Sane(cfg)
  {
    |indices| == |chains| && forall p :: C.Owns(cfg, chains, from, p) ==> StoredAt(s, chains[p], id, indices[p])
  }

  // ---------------------------------------------------------------------------
  // Servers tell the truth

  /** What round two hands out has been delivered. */
  lemma HandedOut(share: H.Share, before: H.View, chains: seq<nat>, i: nat, id: Id, m: Time, events: seq<Event>,
                  finished: Chain -> Chain, after: H.View, s: Sys, n: nat)
    requires share.total > 0 && H.Mine(share, chains, i) && B.Holds(share, after, s)
    requires forall ch :: finished(ch) == H.Finished(ch, id, m)
    requires H.Advanced(share, before, chains, |chains|, finished, after)
    requires H.HandsOut(share, before, chains, i, id, m, events) && n < |events| && events[n].Flushed?
    ensures StoredAt(s, chains[i], events[n].g.id, events[n].index)
  {
    hide H.Finished, H.Advanced;
    H.AdvancedAt(share, before, chains, finished, after, i);
    var j := |At(before, chains[i]).history| + n;
    assert History(s, chains[i])[j] == events[n];
    assert PlacedAt(s, chains[i], j, events[n].g.id, events[n].index);
  }

  /** So has what a replica hands on. */
  lemma ReplicaHandsOn(s: Sys, c: ChainId, msgs: seq<R.Msg>, n: nat)
    requires Reachable(s) && R.Arrives(R.HeadTable(At(s.chains, c)), msgs) && n < |RR.MirrorOf(s, c, msgs).emitted|
    ensures var e := RR.MirrorOf(s, c, msgs).emitted[n]; StoredAt(s, c, e.id, e.index)
  {
    hide Core, R.Arrives, R.Mirror, R.HeadTable, Reachable;
    ReachableChain(s, c);
    R.ReplicaAgrees(At(s.chains, c), msgs, n);
    var e := RR.MirrorOf(s, c, msgs).emitted[n];
    var j :| FlushedAt(History(s, c), j) && History(s, c)[j].g.id == e.id && History(s, c)[j].index == e.index;
    assert PlacedAt(s, c, j, e.id, e.index);
  }

  /** The chains of a packet that a head has. */
  function Share(cfg: C.Config, num: C.Server, locs: seq<C.Loc>): set<nat>
    requires C.Sane(cfg)
  {
    set c | c in C.Chains(locs) && c != 0 && C.WriteServer(cfg, c) == num
  }

  /** The answer that goes out when all the server's chains have delivered the write. */
  lemma AnswerTells(s: Sys, cfg: C.Config, num: C.Server, locs: seq<C.Loc>, told: map<nat, nat>, id: Id)
    requires C.Sane(cfg) && told.Keys == Share(cfg, num, locs)
    requires forall c :: c in told ==> StoredAt(s, c, id, told[c])
    ensures Tells(s, cfg, C.Chains(locs), id, C.ReaderOf(cfg, num), C.Indices(W.WithIndices(locs, told)))
  {
    hide StoredAt;
    var answer := W.WithIndices(locs, told);
    forall p | C.Owns(cfg, C.Chains(locs), C.ReaderOf(cfg, num), p)
      ensures StoredAt(s, C.Chains(locs)[p], id, C.Indices(answer)[p])
    {
      assert C.Chains(locs)[p] in told;
      assert answer[p].index == told[C.Chains(locs)[p]];
    }
  }

  // ---------------------------------------------------------------------------
  // Clients pass it on

  ghost predicate HonestLife(s: Sys, cfg: C.Config, id: Id, life: C.Life)
    requires C.Sane(cfg)
  {
    forall k :: 0 <= k < |life.fills| ==> Tells(s, cfg, life.chains, id, life.fills[k].from, life.fills[k].indices)
  }

  /** All the round-two answers the client has are true. */
  ghost predicate Honest(s: Sys, cfg: C.Config, lives: map<C.Id, C.Life>) {
    C.Sane(cfg) && forall id :: id in lives ==> HonestLife(s, cfg, id, lives[id])
  }

  /** What is stored stays where it is. */
  lemma StoredForGood(s: Sys, steps: seq<Step>, t: Sys, c: ChainId, id: Id, index: nat)
    requires SysInv(s) && Follows(s, steps, t) && StoredAt(s, c, id, index)
    ensures StoredAt(t, c, id, index)
  {
    hide SysInv, Follows;
    RunGrows(s, steps, t, c);
    var j :| PlacedAt(s, c, j, id, index);
    assert PlacedAt(t, c, j, id, index);
  }

  lemma TellsForGood(s: Sys, steps: seq<Step>, t: Sys, cfg: C.Config, chains: seq<nat>, id: Id, from: C.Server,
                     indices: seq<nat>)
    requires SysInv(s) && Follows(s, steps, t) && C.Sane(cfg) && Tells(s, cfg, chains, id, from, indices)
    ensures Tells(t, cfg, chains, id, from, indices)
  {
    hide SysInv, Follows, StoredAt;
    forall p | C.Owns(cfg, chains, from, p) ensures StoredAt(t, chains[p], id, indices[p]) {
      StoredForGood(s, steps, t, chains[p], id, indices[p]);
    }
  }

  /** An answer on its way stays true, and so do those the client has. */
  lemma HonestForGood(s: Sys, steps: seq<Step>, t: Sys, cfg: C.Config, lives: map<C.Id, C.Life>)
    requires SysInv(s) && Follows(s, steps, t) && Honest(s, cfg, lives)
    ensures Honest(t, cfg, lives)
  {
    hide SysInv, Follows, Tells;
    forall id, k | id in lives && 0 <= k < |lives[id].fills|
      ensures Tells(t, cfg, lives[id].chains, id, lives[id].fills[k].from, lives[id].fills[k].indices)
    {
      assert HonestLife(s, cfg, id, lives[id]);
      TellsForGood(s, steps, t, cfg, lives[id].chains, id, lives[id].fills[k].from, lives[id].fills[k].indices);
    }
  }

  /** A true answer to round two keeps the client honest. */
  lemma HonestHeard(s: Sys, cfg: C.Config, lives: map<C.Id, C.Life>, st: C.WriteState, from: C.Server, pkt: C.Packet)
    requires Honest(s, cfg, lives) && pkt.id in lives
    requires st.Skeens2? ==> Tells(s, cfg, lives[pkt.id].chains, pkt.id, from, C.Indices(pkt.locs))
    ensures Honest(s, cfg, lives[pkt.id := C.Heard(lives[pkt.id], st, from, pkt)])
  {
    hide Tells;
    assert HonestLife(s, cfg, pkt.id, lives[pkt.id]);
  }

  /** Whatever else the client does to a write leaves its answers alone. */
  lemma HonestOtherwise(s: Sys, cfg: C.Config, lives: map<C.Id, C.Life>, id: Id, life: C.Life)
    requires Honest(s, cfg, lives)
    requires life.fills == [] || (id in lives && life.fills == lives[id].fills && life.chains == lives[id].chains)
    ensures Honest(s, cfg, lives[id := life])
  {
    hide Tells;
    if id in lives {
      assert HonestLife(s, cfg, id, lives[id]);
    }
  }

  /** The last answer of a snapshot's chain is its owner's. */
  lemma {:induction false} SnapshotPlaced(cfg: C.Config, chains: seq<nat>, fills: seq<C.Fill>, p: int)
    requires C.Sane(cfg) && C.Real(chains, p) && forall k :: 0 <= k < |fills| ==> |fills[k].indices| == |chains|
    requires exists k :: 0 <= k < |fills| && fills[k].from == C.ReadServer(cfg, chains[p])
    ensures exists k :: 0 <= k < |fills| && C.Gave(cfg, chains, fills[k], p, C.Placed(cfg, true, chains, fills, p))
  {
    var last := |fills| - 1;
    if fills[last].from != C.ReadServer(cfg, chains[p]) {
      var k :| 0 <= k < |fills| && fills[k].from == C.ReadServer(cfg, chains[p]);
      assert fills[..last][k] == fills[k];
      SnapshotPlaced(cfg, chains, fills[..last], p);
      var l :| 0 <= l < last && C.Gave(cfg, chains, fills[..last][l], p, C.Placed(cfg, true, chains, fills[..last], p));
      assert fills[l] == fills[..last][l];
    }
  }

  /** Every location of a complete write was given by the chain's own server. */
  lemma GivenByOwner(cfg: C.Config, life: C.Life, p: int)
    requires C.Sane(cfg) && C.FillsOk(life) && C.Complete(cfg, life) && C.Real(life.chains, p)
    ensures exists k :: 0 <= k < |life.fills| && C.Gave(cfg, life.chains, life.fills[k], p, C.PlaceOf(cfg, life, p))
  {
    if life.snapshot {
      assert C.Filled(life, C.ReadServer(cfg, life.chains[p]));
      SnapshotPlaced(cfg, life.chains, life.fills, p);
    } else {
      C.PlacedByOwner(cfg, false, life.chains, life.fills, p);
    }
  }

  /** What the application is told is where the write is: every location of a reported
      multi-append or snapshot is the index at which that chain delivered it. */
  lemma ReportedWhereStored(cfg: C.Config, id: C.Id, writes: map<C.Id, C.WriteState>, pending: seq<C.Sk2Send>,
                            seen: map<nat, nat>, lives: map<C.Id, C.Life>, s: Sys, p: int)
    requires C.Inv(cfg, writes, pending, seen, lives) && Honest(s, cfg, lives) && id in lives
    requires lives[id].reports != [] && C.Real(lives[id].chains, p)
    ensures C.FillsOk(lives[id])
    ensures lives[id].reports == C.Reports(lives[id].snapshot, C.Located(cfg, lives[id]))
    ensures StoredAt(s, lives[id].chains[p], id, C.Located(cfg, lives[id])[p].index)
  {
    hide C.Inv, StoredAt, C.Complete;
    C.ReportedOnce(cfg, id, writes, pending, seen, lives);
    var life := lives[id];
    GivenByOwner(cfg, life, p);
    var k :| 0 <= k < |life.fills| && C.Gave(cfg, life.chains, life.fills[k], p, C.PlaceOf(cfg, life, p));
    assert HonestLife(s, cfg, id, life);
    assert C.Owns(cfg, life.chains, life.fills[k].from, p);
  }

  /** No other entry of the chain has this index. */
  ghost predicate OwnSlot(s: Sys, c: ChainId, j: int, index: nat) {
    forall i :: 0 <= i < |History(s, c)| && Occupies(History(s, c)[i]) && History(s, c)[i].index == index ==> i == j
  }

  lemma SlotIsOwn(s: Sys, c: ChainId, j: nat)
    requires SysInv(s) && j < |History(s, c)| && Occupies(History(s, c)[j])
    ensures OwnSlot(s, c, j, History(s, c)[j].index)
  {
    hide WaitingInv, AssignedInv, KnownInv, SinglesInv, R1Inv, AckInv, R2Inv, OneInv, CoordsInv;
    hide ClockInv, QueueInv, AcceptedIdsInv, PoppedInv, HistoryIdsInv, DirectIdsInv, CoverInv, StatusInv, OrderInv,
      LastFlushInv, DirectInv;
    assert Inv(At(s.chains, c));
  }

  /** The event behind a stored location is the write's own, of the kind the client
      started, and a multi-append's index is its alone. */
  lemma StoredAsStarted(s: Sys, c: ChainId, id: Id, index: nat) returns (j: nat)
    requires SysInv(s) && id in s.coords && StoredAt(s, c, id, index)
    ensures LandsAt(s, c, j, s.coords[id].kind, id, index)
    ensures s.coords[id].kind == Multi ==> OwnSlot(s, c, j, index)
  {
    hide SysInv, OwnSlot;
    j :| PlacedAt(s, c, j, id, index);
    if History(s, c)[j].g.GotSingle? {
      SingleHome(s, c, j);
      assert false;
    }
    KindEverywhere(s, c, j, id);
    if s.coords[id].kind == Multi {
      SlotIsOwn(s, c, j);
    }
  }

  /** So a client's report is about its own entries of the log. */
  lemma ReportedEntry(cfg: C.Config, id: C.Id, writes: map<C.Id, C.WriteState>, pending: seq<C.Sk2Send>,
                      seen: map<nat, nat>, lives: map<C.Id, C.Life>, s: Sys, p: int) returns (j: nat)
    requires Reachable(s) && C.Inv(cfg, writes, pending, seen, lives) && Honest(s, cfg, lives)
    requires K.Represents(cfg, lives, s) && id in lives && lives[id].reports != [] && C.Real(lives[id].chains, p)
    ensures C.FillsOk(lives[id])
    ensures var c, index := lives[id].chains[p], C.Located(cfg, lives[id])[p].index;
      && LandsAt(s, c, j, K.KindOf(lives[id].snapshot), id, index)
      && (!lives[id].snapshot ==> OwnSlot(s, c, j, index))
  {
    hide SysInv, Reachable, C.Inv, Honest, K.Represents, StoredAt, OwnSlot, LandsAt;
    ReachableInv(s);
    ReportedWhereStored(cfg, id, writes, pending, seen, lives, s, p);
    K.RepresentsThis(cfg, lives, id, s);
    j := StoredAsStarted(s, lives[id].chains[p], id, C.Located(cfg, lives[id])[p].index);
  }

  // ---------------------------------------------------------------------------
  // A client's single appends

  /** What the client knows to be decided has at most the timestamp its singles on that
      chain carry. */
  lemma KnownDecided(cfg: C.Config, x: C.Id, writes: map<C.Id, C.WriteState>, pending: seq<C.Sk2Send>,
                     seen: map<nat, nat>, lives: map<C.Id, C.Life>, s: Sys, c: ChainId)
    requires C.Inv(cfg, writes, pending, seen, lives) && K.Represents(cfg, lives, s) && x in lives
    requires C.AllAnswered(cfg, lives[x]) && c in lives[x].chains && c != 0
    ensures DecidedBy(s, c, x, C.SeenOn(seen, c))
  {
    hide C.Inv, C.AnswersOk, K.Represents, K.Once, C.AllAnswered;
    var life := lives[x];
    K.RepresentsThis(cfg, lives, x, s);
    K.AllIsAll(cfg, life);
    C.SeenCovers(cfg, x, writes, pending, seen, lives, c);
    MaxIsStamp(cfg, life);
  }

  lemma MaxIsStamp(cfg: C.Config, life: C.Life)
    requires K.Ready(cfg, life) && C.AllAnswered(cfg, life)
    ensures K.Acks(cfg, life) != map[]
    ensures exists p :: C.Real(life.chains, p) && C.Stamp(cfg, life, p) == MaxOf(K.Acks(cfg, life))
  {
    hide C.AnswersOk, C.Stamp, K.Once, K.Proposal;
    K.AllIsAll(cfg, life);
    var acks := K.Acks(cfg, life);
    var c :| c in acks && acks[c] == MaxOf(acks);
    var p := K.Position(life.chains, c);
    assert C.Real(life.chains, p) && C.Answered(cfg, life, p);
    K.AckIsStamp(cfg, life, p);
  }

  /** A client's single, sent while the client knows x to be decided, lands after x,
      however the run goes on, exactly when x is delivered as the single arrives, or
      the chain has flushed nothing that reaches the single's timestamp. */
  lemma SingleAfterKnown(cfg: C.Config, x: C.Id, writes: map<C.Id, C.WriteState>, pending: seq<C.Sk2Send>,
                         seen: map<nat, nat>, lives: map<C.Id, C.Life>, c: ChainId, y: Id,
                         s: Sys, steps: seq<Step>, t: Sys, r: Sys)
    requires Reachable(s) && C.Inv(cfg, writes, pending, seen, lives) && K.Represents(cfg, lives, s) && x in lives
    requires C.AllAnswered(cfg, lives[x]) && c in lives[x].chains && c != 0
    requires Follows(s, steps, t) && Arrived(t, r, c, y, C.SeenOn(seen, c))
    ensures LandsAfter(r, c, x, y) <==> DeliveredHere(t, c, x) || At(t.chains, c).lastFlush < C.SeenOn(seen, c)
  {
    hide Reachable, C.Inv, K.Represents, C.AllAnswered, Follows, Arrived, LandsAfter, DeliveredHere;
    KnownDecided(cfg, x, writes, pending, seen, lives, s, c);
    RunKeeps(s, steps, t);
    StillReachable(s, steps, t);
    SingleAfterDecided(t, r, c, x, y, C.SeenOn(seen, c));
  }

  /** After everything the client has reported it lands in every case. */
  lemma SingleAfterReported(cfg: C.Config, x: C.Id, writes: map<C.Id, C.WriteState>, pending: seq<C.Sk2Send>,
                            seen: map<nat, nat>, lives: map<C.Id, C.Life>, p: int, y: Id,
                            s: Sys, steps: seq<Step>, t: Sys, r: Sys)
    requires Reachable(s) && C.Inv(cfg, writes, pending, seen, lives) && K.Represents(cfg, lives, s)
    requires Honest(s, cfg, lives) && x in lives && lives[x].reports != [] && C.Real(lives[x].chains, p)
    requires Follows(s, steps, t) && Arrived(t, r, lives[x].chains[p], y, C.SeenOn(seen, lives[x].chains[p]))
    ensures LandsAfter(r, lives[x].chains[p], x, y)
  {
    hide Reachable, C.Inv, K.Represents, Follows, Arrived, LandsAfter, Honest, SysInv, OwnSlot;
    var c := lives[x].chains[p];
    C.ReportedOnce(cfg, x, writes, pending, seen, lives);
    C.RoundTwoOnce(cfg, x, writes, pending, seen, lives);
    SingleAfterKnown(cfg, x, writes, pending, seen, lives, c, y, s, steps, t, r);
    var j := ReportedEntry(cfg, x, writes, pending, seen, lives, s, p);
    ReachableInv(s);
    RunGrows(s, steps, t, c);
    assert MultiAt(t, c, j, x);
  }
}
