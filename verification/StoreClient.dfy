/** The client side of a two-round multi-append or snapshot
    (fuzzy_log_client/src/store.rs): round one goes to every server that heads
    one of the chains, round two starts when all of them have answered, and the
    write completes when every chain has a location. Only writes that span
    several servers are here, the others are in StoreFront.dfy; a packet is its id,
    the flag that marks a round-one answer, and its locations. */
module StoreClients {
  import opened Options

  type Id = nat
  type Server = nat

  /** Chain 0 is no chain: it separates data chains from sentinel chains. */
  datatype Loc = Loc(chain: nat, index: nat)

  datatype Packet = Packet(id: Id, queued: bool, locs: seq<Loc>)

  datatype WriteState =
    | Skeens1(snapshot: bool, locs: seq<Loc>, remaining: set<Server>, timestamps: seq<nat>)
    | Skeens2(snapshot: bool, locs: seq<Loc>, remaining: set<Server>, maxTs: nat)

  datatype Sk2Send = Sk2Send(id: Id, snapshot: bool, locs: seq<Loc>, maxTs: nat, servers: seq<Server>)

  // ---------------------------------------------------------------------------
  // Which server holds a chain

  datatype Config = Config(servers: nat, unreplicated: bool)

  predicate Sane(cfg: Config) {
    cfg.servers > 0
  }

  function WriteServer(cfg: Config, chain: nat): Server
    requires Sane(cfg)
  {
    chain % cfg.servers
  }

  function ReadServer(cfg: Config, chain: nat): Server
    requires Sane(cfg)
  {
    if cfg.unreplicated then WriteServer(cfg, chain) else chain % cfg.servers + cfg.servers
  }

  function ReaderOf(cfg: Config, writer: Server): Server {
    if cfg.unreplicated then writer else writer + cfg.servers
  }

  /** Unreplicated, a head answers itself. Replicated, the servers that answer are the
      second half of the server list, one per head and in the order of the heads. */
  lemma ReadersApart(cfg: Config, chain: nat, a: Server, b: Server)
    requires Sane(cfg)
    ensures WriteServer(cfg, chain) < cfg.servers && ReadServer(cfg, chain) == ReaderOf(cfg, WriteServer(cfg, chain))
    ensures cfg.unreplicated ==> ReaderOf(cfg, a) == a
    ensures !cfg.unreplicated && a < cfg.servers ==> cfg.servers <= ReaderOf(cfg, a) < 2 * cfg.servers
    ensures a < b ==> ReaderOf(cfg, a) < ReaderOf(cfg, b)
  {
  }

  predicate Real(chains: seq<nat>, p: int) {
    0 <= p < |chains| && chains[p] != 0
  }

  function Chains(locs: seq<Loc>): (chains: seq<nat>)
    ensures |chains| == |locs| && forall p :: 0 <= p < |locs| ==> chains[p] == locs[p].chain
  {
    seq(|locs|, p requires 0 <= p < |locs| => locs[p].chain)
  }

  function Indices(locs: seq<Loc>): (indices: seq<nat>)
    ensures |indices| == |locs| && forall p :: 0 <= p < |locs| ==> indices[p] == locs[p].index
  {
    seq(|locs|, p requires 0 <= p < |locs| => locs[p].index)
  }

  /** A separator carries no index. */
  predicate Separated(locs: seq<Loc>) {
    forall p :: 0 <= p < |locs| && locs[p].chain == 0 ==> locs[p].index == 0
  }

  /** s answers for the chain at position p. */
  predicate Owns(cfg: Config, chains: seq<nat>, s: Server, p: int)
    requires Sane(cfg)
  {
    Real(chains, p) && ReadServer(cfg, chains[p]) == s
  }

  ghost predicate Owner(cfg: Config, chains: seq<nat>, s: Server)
    requires Sane(cfg)
  {
    exists p :: 0 <= p < |chains| && Owns(cfg, chains, s, p)
  }

  // ---------------------------------------------------------------------------
  // The life of one write: what arrived, what was sent, what was reported

  datatype Fill = Fill(from: Server, indices: seq<nat>)

  datatype Round = Round(maxTs: nat, servers: seq<Server>)

  /** What the application is told: where a multi-append went, or a snapshot read at
      one of its locations. */
  datatype Report = Wrote(locs: seq<Loc>) | Read(loc: Loc, locs: seq<Loc>)

  /** A multi-append is reported once, a snapshot once per location, in order. */
  function Reports(snapshot: bool, locs: seq<Loc>): seq<Report> {
    if snapshot then seq(|locs|, p requires 0 <= p < |locs| => Read(locs[p], locs)) else [Wrote(locs)]
  }

  datatype Life = Life(
    snapshot: bool,
    chains: seq<nat>,
    asked: seq<Server>,
    answers: map<Server, seq<nat>>,
    rounds: seq<Round>,
    fills: seq<Fill>,
    reports: seq<Report>,
    dropped: bool)

  ghost predicate Answered(cfg: Config, life: Life, p: int)
    requires Sane(cfg) && Real(life.chains, p)
  {
    ReadServer(cfg, life.chains[p]) in life.answers
  }

  ghost predicate AllAnswered(cfg: Config, life: Life)
    requires Sane(cfg)
  {
    forall p :: Real(life.chains, p) ==> Answered(cfg, life, p)
  }

  /** Every accepted answer came from an owner, once, and stamped its chains. */
  ghost predicate AnswersOk(cfg: Config, life: Life)
    requires Sane(cfg)
  {
    forall s :: s in life.answers ==>
      Owner(cfg, life.chains, s) && |life.answers[s]| == |life.chains|
      && forall p :: Owns(cfg, life.chains, s, p) ==> life.answers[s][p] > 0
  }

  /** The timestamp its owner gave the chain at position p. */
  ghost function Stamp(cfg: Config, life: Life, p: int): nat
    requires Sane(cfg) && AnswersOk(cfg, life) && Real(life.chains, p) && Answered(cfg, life, p)
  {
    life.answers[ReadServer(cfg, life.chains[p])][p]
  }

  /** m is the largest of all the chains' timestamps. */
  ghost predicate IsMaxStamp(cfg: Config, life: Life, m: nat)
    requires Sane(cfg) && AnswersOk(cfg, life) && AllAnswered(cfg, life)
  {
    && (forall p :: Real(life.chains, p) ==> Stamp(cfg, life, p) <= m)
    && (exists p :: Real(life.chains, p) && Stamp(cfg, life, p) == m)
  }

  /** The location of position p after these round-two answers: the last one its
      owner gave. A multi-append ignores an index of zero. */
  ghost function Placed(cfg: Config, snapshot: bool, chains: seq<nat>, fills: seq<Fill>, p: int): nat
    requires Sane(cfg) && Real(chains, p) && forall k :: 0 <= k < |fills| ==> |fills[k].indices| == |chains|
  {
    if fills == [] then 0
    else
      var f := fills[|fills| - 1];
      if f.from == ReadServer(cfg, chains[p]) && (snapshot || f.indices[p] != 0) then f.indices[p]
      else Placed(cfg, snapshot, chains, fills[..|fills| - 1], p)
  }

  ghost predicate FillsOk(life: Life) {
    forall k :: 0 <= k < |life.fills| ==> |life.fills[k].indices| == |life.chains|
  }

  ghost function PlaceOf(cfg: Config, life: Life, p: int): nat
    requires Sane(cfg) && FillsOk(life) && Real(life.chains, p)
  {
    Placed(cfg, life.snapshot, life.chains, life.fills, p)
  }

  /** The write's locations so far. */
  ghost function Located(cfg: Config, life: Life): (locs: seq<Loc>)
    requires Sane(cfg) && FillsOk(life)
    ensures Chains(locs) == life.chains
  {
    seq(|life.chains|, p requires 0 <= p < |life.chains| =>
      Loc(life.chains[p], if Real(life.chains, p) then PlaceOf(cfg, life, p) else 0))
  }

  ghost predicate Filled(life: Life, s: Server) {
    exists k :: 0 <= k < |life.fills| && life.fills[k].from == s
  }

  /** A multi-append is complete when every chain has a location, a snapshot when
      every owner has answered. */
  ghost predicate Complete(cfg: Config, life: Life)
    requires Sane(cfg) && FillsOk(life)
  {
    forall p :: Real(life.chains, p) ==>
      if life.snapshot then Filled(life, ReadServer(cfg, life.chains[p])) else PlaceOf(cfg, life, p) != 0
  }

  /** What the application is to be told by now. */
  ghost function Due(cfg: Config, life: Life): seq<Report>
    requires Sane(cfg) && FillsOk(life)
  {
    if life.rounds != [] && Complete(cfg, life) then Reports(life.snapshot, Located(cfg, life)) else []
  }

  /** f says, for its own chain at position p, index i. */
  predicate Gave(cfg: Config, chains: seq<nat>, f: Fill, p: int, i: nat)
    requires Sane(cfg) && Real(chains, p) && |f.indices| == |chains|
  {
    f.from == ReadServer(cfg, chains[p]) && f.indices[p] == i
  }

  /** A located position was given its location by the chain's own server. */
  lemma {:induction false} PlacedByOwner(cfg: Config, snapshot: bool, chains: seq<nat>, fills: seq<Fill>, p: int)
    requires Sane(cfg) && Real(chains, p) && forall k :: 0 <= k < |fills| ==> |fills[k].indices| == |chains|
    requires Placed(cfg, snapshot, chains, fills, p) != 0
    ensures exists k :: 0 <= k < |fills| && Gave(cfg, chains, fills[k], p, Placed(cfg, snapshot, chains, fills, p))
  {
    var last := |fills| - 1;
    var f := fills[last];
    if f.from == ReadServer(cfg, chains[p]) && (snapshot || f.indices[p] != 0) {
    } else {
      PlacedByOwner(cfg, snapshot, chains, fills[..last], p);
      var k :| 0 <= k < last && Gave(cfg, chains, fills[..last][k], p, Placed(cfg, snapshot, chains, fills[..last], p));
      assert fills[k] == fills[..last][k];
    }
  }

  ghost predicate Heads(cfg: Config, chains: seq<nat>, s: Server, p: int)
    requires Sane(cfg)
  {
    Real(chains, p) && WriteServer(cfg, chains[p]) == s
  }

  ghost predicate Head(cfg: Config, chains: seq<nat>, s: Server)
    requires Sane(cfg)
  {
    exists p :: 0 <= p < |chains| && Heads(cfg, chains, s, p)
  }

  /** A server is sent the data when it heads a chain before the first separator, and
      a sentinel otherwise. */
  ghost predicate GetsData(cfg: Config, chains: seq<nat>, s: Server)
    requires Sane(cfg)
  {
    exists p :: 0 <= p < |chains| && Heads(cfg, chains, s, p) && forall q :: 0 <= q < p ==> chains[q] != 0
  }

  /** Where round two goes: the heads of the write's chains, each once. */
  ghost predicate ServersOf(cfg: Config, chains: seq<nat>, servers: seq<Server>)
    requires Sane(cfg)
  {
    && (forall i, j :: 0 <= i < j < |servers| ==> servers[i] < servers[j])
    && (forall s :: s in servers <==> Head(cfg, chains, s))
  }

  /** Replicated or not, the servers that answer are the readers of the heads. */
  lemma OwnersReadHeads(cfg: Config, chains: seq<nat>, s: Server)
    requires Sane(cfg)
    ensures Owner(cfg, chains, s) <==> exists w :: Head(cfg, chains, w) && ReaderOf(cfg, w) == s
  {
    if Owner(cfg, chains, s) {
      var p :| 0 <= p < |chains| && Owns(cfg, chains, s, p);
      assert Heads(cfg, chains, WriteServer(cfg, chains[p]), p);
      assert Head(cfg, chains, WriteServer(cfg, chains[p]));
    }
    if w :| Head(cfg, chains, w) && ReaderOf(cfg, w) == s {
      var p :| 0 <= p < |chains| && Heads(cfg, chains, w, p);
      assert Owns(cfg, chains, s, p);
    }
  }

  // ---------------------------------------------------------------------------
  // How a write's state matches its life

  ghost predicate InRoundOne(cfg: Config, life: Life, st: WriteState)
    requires Sane(cfg) && AnswersOk(cfg, life)
  {
    && st.Skeens1? && Separated(st.locs) && st.snapshot == life.snapshot && Chains(st.locs) == life.chains
    && st.remaining != {}
    && (forall s :: s in st.remaining <==> Owner(cfg, life.chains, s) && s !in life.answers)
    && |st.timestamps| == |life.chains|
    && (forall p :: 0 <= p < |life.chains| ==>
          st.timestamps[p] == if Real(life.chains, p) && Answered(cfg, life, p) then Stamp(cfg, life, p) else 0)
    && life.rounds == [] && life.fills == [] && life.reports == []
  }

  ghost predicate Decided(cfg: Config, life: Life, m: nat, seen: map<nat, nat>)
    requires Sane(cfg) && AnswersOk(cfg, life)
  {
    && AllAnswered(cfg, life) && IsMaxStamp(cfg, life, m)
    && forall p :: 0 <= p < |life.chains| ==> life.chains[p] in seen && seen[life.chains[p]] >= m
  }

  ghost predicate Waits(cfg: Config, life: Life, send: Sk2Send, seen: map<nat, nat>)
    requires Sane(cfg) && AnswersOk(cfg, life)
  {
    && send.snapshot == life.snapshot && Chains(send.locs) == life.chains
    && Decided(cfg, life, send.maxTs, seen) && ServersOf(cfg, life.chains, send.servers)
    && life.rounds == [] && life.fills == [] && life.reports == []
  }

  ghost predicate InRoundTwo(cfg: Config, life: Life, st: WriteState, seen: map<nat, nat>)
    requires Sane(cfg) && AnswersOk(cfg, life) && FillsOk(life)
  {
    && st.Skeens2? && st.snapshot == life.snapshot && st.locs == Located(cfg, life)
    && Decided(cfg, life, st.maxTs, seen)
    && |life.rounds| == 1 && life.rounds[0].maxTs == st.maxTs && ServersOf(cfg, life.chains, life.rounds[0].servers)
    && (life.snapshot ==> forall s :: s in st.remaining <==> Owner(cfg, life.chains, s) && !Filled(life, s))
    && !Complete(cfg, life) && life.reports == []
  }

  ghost predicate Over(cfg: Config, life: Life, seen: map<nat, nat>)
    requires Sane(cfg) && AnswersOk(cfg, life) && FillsOk(life)
  {
    if life.dropped then life.rounds == [] && life.fills == [] && life.reports == [] && !AllAnswered(cfg, life)
    else
      && |life.rounds| == 1 && ServersOf(cfg, life.chains, life.rounds[0].servers)
      && Decided(cfg, life, life.rounds[0].maxTs, seen)
      && Complete(cfg, life) && life.reports == Reports(life.snapshot, Located(cfg, life))
  }

  ghost predicate Queued(pending: seq<Sk2Send>, id: Id) {
    exists j :: 0 <= j < |pending| && pending[j].id == id
  }

  ghost predicate LifeOk(cfg: Config, id: Id, life: Life, writes: map<Id, WriteState>, pending: seq<Sk2Send>,
                         seen: map<nat, nat>)
    requires Sane(cfg)
  {
    && AnswersOk(cfg, life) && FillsOk(life)
    && (exists p :: Real(life.chains, p)) && ServersOf(cfg, life.chains, life.asked)
    && (id in writes ==>
          !life.dropped && (InRoundOne(cfg, life, writes[id]) || InRoundTwo(cfg, life, writes[id], seen)))
    && (forall j :: 0 <= j < |pending| && pending[j].id == id ==>
          !life.dropped && id !in writes && Waits(cfg, life, pending[j], seen))
    && (id !in writes && !Queued(pending, id) ==> Over(cfg, life, seen))
  }

  ghost predicate Inv(cfg: Config, writes: map<Id, WriteState>, pending: seq<Sk2Send>, seen: map<nat, nat>,
                      lives: map<Id, Life>)
  {
    && Sane(cfg)
    && writes.Keys <= lives.Keys
    && (forall j :: 0 <= j < |pending| ==> pending[j].id in lives)
    && (forall i, j :: 0 <= i < j < |pending| ==> pending[i].id != pending[j].id)
    && (forall id :: id in lives ==> LifeOk(cfg, id, lives[id], writes, pending, seen))
  }

  // ---------------------------------------------------------------------------
  // Steps

  ghost predicate Grown(before: map<nat, nat>, after: map<nat, nat>) {
    forall o :: o in before ==> o in after && before[o] <= after[o]
  }

  ghost predicate Raised(before: map<nat, nat>, chains: seq<nat>, m: nat, after: map<nat, nat>) {
    && (forall o :: o in after <==> o in before || o in chains)
    && (forall o :: o in after ==>
          after[o] == if o in before && (o !in chains || before[o] > m) then before[o] else m)
  }

  /** The largest timestamp seen on a chain. */
  function SeenOn(seen: map<nat, nat>, chain: nat): nat {
    if chain in seen then seen[chain] else 0
  }

  /** The timestamps seen change only when a write's final timestamp is known, and
      then its chains are raised to it. */
  ghost predicate SeenFrom(cfg: Config, life: Life, before: map<nat, nat>, after: map<nat, nat>) {
    before == after ||
    (Sane(cfg) && AnswersOk(cfg, life) && AllAnswered(cfg, life)
     && exists m :: IsMaxStamp(cfg, life, m) && Raised(before, life.chains, m, after))
  }

  /** m is the final timestamp of this write, and the client knows it. */
  ghost predicate KnownMax(cfg: Config, life: Life, m: nat) {
    Sane(cfg) && AnswersOk(cfg, life) && AllAnswered(cfg, life) && IsMaxStamp(cfg, life, m)
  }

  /** The timestamp seen on a chain is one the client was told of by another client's
      entry, or the final one of a write of its own; and at least all of the former. */
  ghost predicate SeenExact(cfg: Config, lives: map<Id, Life>, outside: set<(nat, nat)>, seen: map<nat, nat>) {
    && (forall o :: o in seen ==> (o, seen[o]) in outside || OwnMax(cfg, lives, o, seen[o]))
    && (forall e :: e in outside ==> e.0 in seen && e.1 <= seen[e.0])
  }

  ghost predicate OwnMax(cfg: Config, lives: map<Id, Life>, o: nat, m: nat) {
    exists id :: id in lives && o in lives[id].chains && KnownMax(cfg, lives[id], m)
  }

  /** What the client knows it goes on knowing. */
  lemma ExactKeeps(cfg: Config, lives: map<Id, Life>, lives': map<Id, Life>, outside: set<(nat, nat)>,
                   seen: map<nat, nat>)
    requires Sane(cfg) && SeenExact(cfg, lives, outside, seen) && lives.Keys <= lives'.Keys
    requires forall id :: id in lives ==> lives'[id].chains == lives[id].chains
    requires forall id :: id in lives && AllAnswered(cfg, lives[id]) ==> lives'[id].answers == lives[id].answers
    ensures SeenExact(cfg, lives', outside, seen)
  {
    hide AnswersOk, AllAnswered, IsMaxStamp, KnownMax;
    forall o | o in seen && (o, seen[o]) !in outside ensures OwnMax(cfg, lives', o, seen[o]) {
      var id :| id in lives && o in lives[id].chains && KnownMax(cfg, lives[id], seen[o]);
      KnownKeeps(cfg, lives[id], lives'[id], seen[o]);
    }
  }

  lemma KnownKeeps(cfg: Config, life: Life, life': Life, m: nat)
    requires KnownMax(cfg, life, m) && life'.chains == life.chains
    requires AllAnswered(cfg, life) ==> life'.answers == life.answers
    ensures KnownMax(cfg, life', m)
  {
    assert forall p :: Real(life.chains, p) ==> (Answered(cfg, life, p) <==> Answered(cfg, life', p));
    assert forall p :: Real(life.chains, p) ==> Stamp(cfg, life, p) == Stamp(cfg, life', p);
  }

  lemma ExactRaised(cfg: Config, lives: map<Id, Life>, id: Id, outside: set<(nat, nat)>, seen: map<nat, nat>,
                    seen': map<nat, nat>)
    requires SeenExact(cfg, lives, outside, seen) && id in lives && SeenFrom(cfg, lives[id], seen, seen')
    ensures SeenExact(cfg, lives, outside, seen')
  {
    hide AnswersOk, AllAnswered, IsMaxStamp;
    if seen != seen' {
      var m :| IsMaxStamp(cfg, lives[id], m) && Raised(seen, lives[id].chains, m, seen');
      assert KnownMax(cfg, lives[id], m);
      forall o | o in seen' && (o, seen'[o]) !in outside ensures OwnMax(cfg, lives, o, seen'[o]) {
        if o in seen && seen'[o] == seen[o] {
          assert OwnMax(cfg, lives, o, seen[o]);
        }
      }
    }
  }

  /** One write moves on, and the timestamps seen with it. */
  lemma ExactStep(cfg: Config, lives: map<Id, Life>, id: Id, life': Life, outside: set<(nat, nat)>, seen: map<nat, nat>,
                  seen': map<nat, nat>)
    requires Sane(cfg) && SeenExact(cfg, lives, outside, seen) && SeenFrom(cfg, life', seen, seen')
    requires id in lives ==> life'.chains == lives[id].chains
    requires id in lives && AllAnswered(cfg, lives[id]) ==> life'.answers == lives[id].answers
    ensures SeenExact(cfg, lives[id := life'], outside, seen')
  {
    hide SeenExact, SeenFrom, AllAnswered;
    ExactKeeps(cfg, lives, lives[id := life'], outside, seen);
    ExactRaised(cfg, lives[id := life'], id, outside, seen, seen');
  }

  lemma ExactTold(cfg: Config, lives: map<Id, Life>, outside: set<(nat, nat)>, seen: map<nat, nat>, chains: seq<nat>,
                  m: nat, seen': map<nat, nat>)
    requires SeenExact(cfg, lives, outside, seen) && Raised(seen, chains, m, seen')
    ensures SeenExact(cfg, lives, outside + (set o | o in chains :: (o, m)), seen')
  {
    hide OwnMax;
    var all := outside + set o | o in chains :: (o, m);
    forall o | o in seen' && (o, seen'[o]) !in all ensures OwnMax(cfg, lives, o, seen'[o]) {
      assert o !in chains || seen'[o] != m;
      assert o in seen && seen'[o] == seen[o];
      assert (o, seen[o]) !in outside;
    }
  }

  /** The other writes do not notice a step of one write. */
  lemma FrameOthers(cfg: Config, id: Id, lives: map<Id, Life>, writes: map<Id, WriteState>,
                    writes': map<Id, WriteState>, pending: seq<Sk2Send>, pending': seq<Sk2Send>,
                    seen: map<nat, nat>, seen': map<nat, nat>)
    requires Inv(cfg, writes, pending, seen, lives) && Grown(seen, seen')
    requires writes - {id} == writes' - {id}
    requires forall s: Sk2Send :: s.id != id ==> (s in pending <==> s in pending')
    ensures forall i :: i in lives && i != id ==> LifeOk(cfg, i, lives[i], writes', pending', seen')
  {
    hide LifeOk;
    forall i | i in lives && i != id ensures LifeOk(cfg, i, lives[i], writes', pending', seen') {
      SameQueued(pending, pending', id, i);
      assert i in writes <==> i in writes - {id};
      assert i in writes' <==> i in writes' - {id};
      assert i in writes ==> writes[i] == (writes - {id})[i] == (writes' - {id})[i];
      FrameOther(cfg, i, lives[i], writes, writes', pending, pending', seen, seen');
    }
  }

  lemma FrameOther(cfg: Config, i: Id, life: Life, writes: map<Id, WriteState>, writes': map<Id, WriteState>,
                   pending: seq<Sk2Send>, pending': seq<Sk2Send>, seen: map<nat, nat>, seen': map<nat, nat>)
    requires Sane(cfg) && LifeOk(cfg, i, life, writes, pending, seen) && Grown(seen, seen')
    requires (i in writes <==> i in writes') && (i in writes ==> writes[i] == writes'[i])
    requires (Queued(pending, i) <==> Queued(pending', i))
    requires forall s: Sk2Send :: s.id == i && s in pending' ==> s in pending
    ensures LifeOk(cfg, i, life, writes', pending', seen')
  {
    hide AnswersOk, FillsOk, InRoundOne, ServersOf, Complete, Decided, Located, Grown;
    forall m | Decided(cfg, life, m, seen) ensures Decided(cfg, life, m, seen') {
      StillDecided(cfg, life, m, seen, seen');
    }
    forall j | 0 <= j < |pending'| && pending'[j].id == i ensures Waits(cfg, life, pending'[j], seen) {
      assert pending'[j] in pending;
    }
  }

  /** No write minds if the timestamps seen are raised. */
  lemma SeenMore(cfg: Config, writes: map<Id, WriteState>, pending: seq<Sk2Send>, seen: map<nat, nat>,
                 seen': map<nat, nat>, lives: map<Id, Life>)
    requires Inv(cfg, writes, pending, seen, lives) && Grown(seen, seen')
    ensures Inv(cfg, writes, pending, seen', lives)
  {
    hide LifeOk;
    forall i | i in lives ensures LifeOk(cfg, i, lives[i], writes, pending, seen') {
      FrameOther(cfg, i, lives[i], writes, writes, pending, pending, seen, seen');
    }
  }

  lemma SameQueued(pending: seq<Sk2Send>, pending': seq<Sk2Send>, id: Id, i: Id)
    requires forall s: Sk2Send :: s.id != id ==> (s in pending <==> s in pending')
    requires i != id
    ensures Queued(pending, i) <==> Queued(pending', i)
  {
  }

  /** One write moves from life to life'; everything else stands still. */
  lemma Advance(cfg: Config, id: Id, lives: map<Id, Life>, life': Life, writes: map<Id, WriteState>,
                writes': map<Id, WriteState>, pending: seq<Sk2Send>, pending': seq<Sk2Send>,
                seen: map<nat, nat>, seen': map<nat, nat>)
    requires Inv(cfg, writes, pending, seen, lives) && Grown(seen, seen')
    requires writes - {id} == writes' - {id}
    requires forall s: Sk2Send :: s.id != id ==> (s in pending <==> s in pending')
    requires forall i, j :: 0 <= i < j < |pending'| ==> pending'[i].id != pending'[j].id
    requires LifeOk(cfg, id, life', writes', pending', seen')
    ensures Inv(cfg, writes', pending', seen', lives[id := life'])
  {
    hide LifeOk;
    FrameOthers(cfg, id, lives, writes, writes', pending, pending', seen, seen');
    forall i | i in writes' ensures i in lives[id := life'] {
      if i != id { assert i in writes' - {id}; }
    }
    forall j | 0 <= j < |pending'| ensures pending'[j].id in lives[id := life'] {
      if pending'[j].id != id { assert pending'[j] in pending; }
    }
  }

  lemma NotQueued(cfg: Config, id: Id, writes: map<Id, WriteState>, pending: seq<Sk2Send>, seen: map<nat, nat>,
                  lives: map<Id, Life>)
    requires Inv(cfg, writes, pending, seen, lives) && id !in lives
    ensures id !in writes && !Queued(pending, id)
  {
  }

  lemma BeginOk(cfg: Config, id: Id, life: Life, st: WriteState, writes: map<Id, WriteState>, pending: seq<Sk2Send>,
                seen: map<nat, nat>)
    requires Sane(cfg) && life.answers == map[] && life.rounds == [] && life.fills == [] && life.reports == []
    requires st.Skeens1? && Separated(st.locs) && st.snapshot == life.snapshot && Chains(st.locs) == life.chains
    requires forall s :: s in st.remaining <==> Owner(cfg, life.chains, s)
    requires |st.timestamps| == |life.chains| && forall p :: 0 <= p < |st.timestamps| ==> st.timestamps[p] == 0
    requires (exists p :: Real(life.chains, p)) && ServersOf(cfg, life.chains, life.asked)
    requires id in writes && writes[id] == st && !Queued(pending, id) && !life.dropped
    ensures LifeOk(cfg, id, life, writes, pending, seen)
  {
    var p :| Real(life.chains, p);
    assert Owns(cfg, life.chains, ReadServer(cfg, life.chains[p]), p);
    assert ReadServer(cfg, life.chains[p]) in st.remaining;
  }

  // Round one

  ghost predicate StampsTaken(cfg: Config, chains: seq<nat>, before: seq<nat>, from: Server, locs: seq<Loc>,
                              after: seq<nat>)
    requires Sane(cfg) && |before| == |after| == |locs| == |chains|
  {
    forall p :: 0 <= p < |locs| ==> after[p] == if Owns(cfg, chains, from, p) then locs[p].index else before[p]
  }

  /** One more server has answered, for the chains it owns. */
  lemma AnswerHeard(cfg: Config, life: Life, st: WriteState, from: Server, pkt: Packet)
    requires Sane(cfg) && AnswersOk(cfg, life) && InRoundOne(cfg, life, st) && from in st.remaining && pkt.queued
    requires PacketOk(cfg, st, from, pkt)
    ensures var life' := Heard(life, st, from, pkt);
      && AnswersOk(cfg, life') && life'.chains == life.chains
      && forall s :: s in st.remaining - {from} <==> Owner(cfg, life.chains, s) && s !in life'.answers
  {
    assert forall p :: Owns(cfg, life.chains, from, p) ==> pkt.locs[p].index > 0;
  }

  lemma AnswerStamps(cfg: Config, life: Life, st: WriteState, from: Server, pkt: Packet, after: seq<nat>)
    requires Sane(cfg) && AnswersOk(cfg, life) && InRoundOne(cfg, life, st) && from in st.remaining && pkt.queued
    requires PacketOk(cfg, st, from, pkt)
    requires |after| == |pkt.locs| && StampsTaken(cfg, life.chains, st.timestamps, from, pkt.locs, after)
    ensures var life' := Heard(life, st, from, pkt);
      && AnswersOk(cfg, life') && life'.chains == life.chains
      && (forall s :: s in st.remaining - {from} <==> Owner(cfg, life.chains, s) && s !in life'.answers)
      && forall p :: 0 <= p < |life.chains| ==>
          after[p] == if Real(life.chains, p) && Answered(cfg, life', p) then Stamp(cfg, life', p) else 0
  {
    hide AnswersOk, Owner;
    AnswerHeard(cfg, life, st, from, pkt);
  }

  lemma AnswerLast(cfg: Config, life: Life, from: Server, after: seq<nat>, m: nat)
    requires Sane(cfg) && AnswersOk(cfg, life) && |after| == |life.chains|
    requires forall s :: Owner(cfg, life.chains, s) ==> s in life.answers
    requires forall p :: 0 <= p < |life.chains| ==>
      after[p] == if Real(life.chains, p) && Answered(cfg, life, p) then Stamp(cfg, life, p) else 0
    requires exists p :: Real(life.chains, p)
    requires (forall p :: 0 <= p < |after| ==> after[p] <= m) && (exists p :: 0 <= p < |after| && after[p] == m)
    ensures AllAnswered(cfg, life) && IsMaxStamp(cfg, life, m)
  {
    forall p | Real(life.chains, p) ensures Answered(cfg, life, p) && after[p] == Stamp(cfg, life, p) > 0 {
      assert Owns(cfg, life.chains, ReadServer(cfg, life.chains[p]), p);
      assert Owner(cfg, life.chains, ReadServer(cfg, life.chains[p]));
    }
    var q :| Real(life.chains, q);
    var p :| 0 <= p < |after| && after[p] == m;
    assert after[q] > 0;
    assert Real(life.chains, p);
  }

  /** A write in round one, with everything known about it. */
  ghost predicate Gathering(cfg: Config, life: Life, st: WriteState) {
    && Sane(cfg) && AnswersOk(cfg, life) && FillsOk(life) && InRoundOne(cfg, life, st) && !life.dropped
    && (exists p :: Real(life.chains, p)) && ServersOf(cfg, life.chains, life.asked)
  }

  /** pkt is an awaited answer and after are the timestamps with it. */
  ghost predicate Accepted(cfg: Config, chains: seq<nat>, st: WriteState, from: Server, pkt: Packet, after: seq<nat>) {
    && Sane(cfg) && st.Skeens1? && from in st.remaining && pkt.queued && PacketOk(cfg, st, from, pkt)
    && |after| == |pkt.locs| == |chains| == |st.timestamps|
    && StampsTaken(cfg, chains, st.timestamps, from, pkt.locs, after)
  }

  lemma WriteIsLive(cfg: Config, id: Id, writes: map<Id, WriteState>, pending: seq<Sk2Send>, seen: map<nat, nat>,
                    lives: map<Id, Life>)
    requires Inv(cfg, writes, pending, seen, lives) && id in writes
    ensures id in lives && LifeOk(cfg, id, lives[id], writes, pending, seen) && !Queued(pending, id)
  {
    hide AnswersOk, FillsOk, InRoundOne, InRoundTwo, Over, Waits;
  }

  /** An answer without the round-one flag loses the write. */
  lemma DropOk(cfg: Config, id: Id, life: Life, st: WriteState, writes: map<Id, WriteState>, pending: seq<Sk2Send>,
               seen: map<nat, nat>)
    requires Gathering(cfg, life, st) && id !in writes && !Queued(pending, id)
    ensures LifeOk(cfg, id, life.(dropped := true), writes, pending, seen)
  {
  }

  /** Some, but not all, have answered. */
  lemma MoreOk(cfg: Config, id: Id, life: Life, st: WriteState, from: Server, pkt: Packet, after: seq<nat>,
               writes: map<Id, WriteState>, pending: seq<Sk2Send>, seen: map<nat, nat>)
    requires Gathering(cfg, life, st) && Accepted(cfg, life.chains, st, from, pkt, after)
    requires st.remaining - {from} != {} && !Queued(pending, id)
    requires id in writes && writes[id] == st.(remaining := st.remaining - {from}, timestamps := after)
    ensures LifeOk(cfg, id, Heard(life, st, from, pkt), writes, pending, seen)
  {
    hide AnswersOk, ServersOf, StampsTaken, PacketOk, Answered;
    AnswerStamps(cfg, life, st, from, pkt, after);
  }

  /** All have answered: the write has its final timestamp. */
  lemma LastDecided(cfg: Config, life: Life, st: WriteState, from: Server, pkt: Packet, after: seq<nat>, m: nat,
                    seen: map<nat, nat>, seen': map<nat, nat>)
    requires Gathering(cfg, life, st) && Accepted(cfg, life.chains, st, from, pkt, after)
    requires st.remaining - {from} == {}
    requires (forall p :: 0 <= p < |after| ==> after[p] <= m) && (exists p :: 0 <= p < |after| && after[p] == m)
    requires Raised(seen, life.chains, m, seen')
    ensures var life' := Heard(life, st, from, pkt); AnswersOk(cfg, life') && Decided(cfg, life', m, seen')
  {
    hide AnswersOk, ServersOf, StampsTaken, PacketOk, Answered, AllAnswered, IsMaxStamp, Raised, Owner;
    AnswerStamps(cfg, life, st, from, pkt, after);
    AnswerLast(cfg, Heard(life, st, from, pkt), from, after, m);
    RaisedCovers(seen, life.chains, m, seen');
  }

  lemma SeenSame(cfg: Config, life: Life, seen: map<nat, nat>, seen': map<nat, nat>)
    ensures seen == seen' ==> SeenFrom(cfg, life, seen, seen')
    ensures Grown(seen, seen)
  {
  }

  lemma RaisedCovers(before: map<nat, nat>, chains: seq<nat>, m: nat, after: map<nat, nat>)
    requires Raised(before, chains, m, after)
    ensures forall p :: 0 <= p < |chains| ==> chains[p] in after && after[chains[p]] >= m
  {
    assert forall p :: 0 <= p < |chains| ==> chains[p] in chains;
  }

  /** A decided write is queued for round two. */
  lemma QueuedOk(cfg: Config, id: Id, life: Life, send: Sk2Send, writes: map<Id, WriteState>, pending: seq<Sk2Send>,
                 seen: map<nat, nat>)
    requires Sane(cfg) && AnswersOk(cfg, life) && FillsOk(life) && Waits(cfg, life, send, seen) && !life.dropped
    requires (exists p :: Real(life.chains, p)) && ServersOf(cfg, life.chains, life.asked)
    requires send.id == id && !Queued(pending, id) && id !in writes
    ensures LifeOk(cfg, id, life, writes, pending + [send], seen)
  {
    hide AnswersOk, FillsOk, Waits, ServersOf;
    assert (pending + [send])[|pending|] == send;
  }

  lemma LastOk(cfg: Config, id: Id, life: Life, st: WriteState, from: Server, pkt: Packet, after: seq<nat>,
               send: Sk2Send, writes: map<Id, WriteState>, pending: seq<Sk2Send>, seen: map<nat, nat>,
               seen': map<nat, nat>)
    requires Gathering(cfg, life, st) && Accepted(cfg, life.chains, st, from, pkt, after)
    requires st.remaining - {from} == {} && !Queued(pending, id) && id !in writes
    requires forall p :: 0 <= p < |after| ==> after[p] <= send.maxTs
    requires exists p :: 0 <= p < |after| && after[p] == send.maxTs
    requires send.id == id && send.snapshot == st.snapshot && send.locs == st.locs
    requires ServersOf(cfg, life.chains, send.servers) && Raised(seen, life.chains, send.maxTs, seen')
    ensures LifeOk(cfg, id, Heard(life, st, from, pkt), writes, pending + [send], seen')
    ensures SeenFrom(cfg, Heard(life, st, from, pkt), seen, seen')
  {
    hide AnswersOk, ServersOf, StampsTaken, PacketOk, Decided, Raised, Queued;
    LastDecided(cfg, life, st, from, pkt, after, send.maxTs, seen, seen');
    QueuedOk(cfg, id, Heard(life, st, from, pkt), send, writes, pending, seen');
    DecidedSeen(cfg, Heard(life, st, from, pkt), send.maxTs, seen', seen, seen');
  }

  lemma DecidedSeen(cfg: Config, life: Life, m: nat, now: map<nat, nat>, before: map<nat, nat>, after: map<nat, nat>)
    requires Sane(cfg) && AnswersOk(cfg, life) && Decided(cfg, life, m, now) && Raised(before, life.chains, m, after)
    ensures SeenFrom(cfg, life, before, after)
  {
  }

  lemma RoundOneLife(cfg: Config, id: Id, life: Life, writes: map<Id, WriteState>, pending: seq<Sk2Send>,
                     seen: map<nat, nat>)
    requires Sane(cfg) && LifeOk(cfg, id, life, writes, pending, seen) && id in writes && writes[id].Skeens1?
    ensures Gathering(cfg, life, writes[id])
  {
  }

  lemma UnansweredIsZero(cfg: Config, life: Life, st: WriteState, from: Server)
    requires Gathering(cfg, life, st) && from in st.remaining
    ensures forall p :: Owns(cfg, life.chains, from, p) ==> st.timestamps[p] == 0
    ensures Chains(st.locs) == life.chains && |st.timestamps| == |life.chains| > 0 && Separated(st.locs)
  {
  }

  lemma RoundOneFills(cfg: Config, life: Life, st: WriteState, from: Server, pkt: Packet)
    requires Gathering(cfg, life, st)
    ensures FillsOk(Heard(life, st, from, pkt))
  {
  }

  // Round two

  function Sending(send: Sk2Send): Round {
    Round(send.maxTs, send.servers)
  }

  /** Round two goes out, once, with every index cleared. */
  lemma SentOk(cfg: Config, id: Id, life: Life, send: Sk2Send, st: WriteState, writes: map<Id, WriteState>,
               pending: seq<Sk2Send>, seen: map<nat, nat>)
    requires Sane(cfg) && AnswersOk(cfg, life) && FillsOk(life) && Waits(cfg, life, send, seen) && !life.dropped
    requires (exists p :: Real(life.chains, p)) && ServersOf(cfg, life.chains, life.asked)
    requires st.Skeens2? && st.snapshot == send.snapshot && st.maxTs == send.maxTs
    requires Chains(st.locs) == Chains(send.locs)
    requires forall p :: 0 <= p < |st.locs| ==> st.locs[p].index == 0
    requires forall s :: s in st.remaining <==> Owner(cfg, life.chains, s)
    requires id in writes && writes[id] == st && !Queued(pending, id)
    ensures LifeOk(cfg, id, life.(rounds := life.rounds + [Sending(send)]), writes, pending, seen)
  {
    hide ServersOf, Decided, AnswersOk;
    var life' := life.(rounds := life.rounds + [Sending(send)]);
    SameAnswers(cfg, life, life');
    var p :| Real(life.chains, p);
    assert PlaceOf(cfg, life', p) == 0;
    assert !Complete(cfg, life');
  }

  lemma SameAnswers(cfg: Config, life: Life, life': Life)
    requires Sane(cfg) && AnswersOk(cfg, life) && life'.answers == life.answers && life'.chains == life.chains
    ensures AnswersOk(cfg, life')
    ensures forall m, seen :: Decided(cfg, life, m, seen) ==> Decided(cfg, life', m, seen)
  {
  }

  /** A write in round two, with everything known about it. */
  ghost predicate Finishing(cfg: Config, life: Life, st: WriteState, seen: map<nat, nat>) {
    && Sane(cfg) && AnswersOk(cfg, life) && FillsOk(life) && InRoundTwo(cfg, life, st, seen) && !life.dropped
    && (exists p :: Real(life.chains, p)) && ServersOf(cfg, life.chains, life.asked)
  }

  lemma RoundTwoLife(cfg: Config, id: Id, life: Life, writes: map<Id, WriteState>, pending: seq<Sk2Send>,
                     seen: map<nat, nat>)
    requires Sane(cfg) && LifeOk(cfg, id, life, writes, pending, seen) && id in writes && writes[id].Skeens2?
    ensures Finishing(cfg, life, writes[id], seen)
  {
  }

  /** What position p holds after an answer. */
  function FilledLoc(cfg: Config, snapshot: bool, mine: Loc, from: Server, theirs: Loc): Loc
    requires Sane(cfg)
  {
    if mine.chain != 0 && ReadServer(cfg, theirs.chain) == from && (snapshot || theirs.index != 0) then theirs else mine
  }

  ghost predicate LocsTaken(cfg: Config, snapshot: bool, before: seq<Loc>, from: Server, theirs: seq<Loc>,
                            after: seq<Loc>)
    requires Sane(cfg) && |before| == |theirs| == |after|
  {
    forall p :: 0 <= p < |after| ==> after[p] == FilledLoc(cfg, snapshot, before[p], from, theirs[p])
  }

  lemma FillPlaces(cfg: Config, life: Life, st: WriteState, from: Server, pkt: Packet, after: seq<Loc>,
                   seen: map<nat, nat>)
    requires Finishing(cfg, life, st, seen) && Chains(pkt.locs) == Chains(st.locs)
    requires |after| == |pkt.locs| && LocsTaken(cfg, st.snapshot, st.locs, from, pkt.locs, after)
    ensures var life' := Heard(life, st, from, pkt);
      FillsOk(life') && after == Located(cfg, life') && life'.snapshot == st.snapshot
  {
    hide InRoundOne, ServersOf, Decided, Complete;
    var life' := Heard(life, st, from, pkt);
    assert life'.fills[..|life.fills|] == life.fills;
    forall p | 0 <= p < |after| ensures after[p] == Located(cfg, life')[p] {
      assert pkt.locs[p].chain == Chains(pkt.locs)[p];
      assert st.locs[p] == Located(cfg, life)[p];
    }
  }

  /** Who has answered round two after one more answer. */
  lemma FilledMore(life: Life, f: Fill, s: Server)
    ensures Filled(life.(fills := life.fills + [f]), s) <==> Filled(life, s) || s == f.from
  {
    var fills := life.fills + [f];
    if Filled(life, s) {
      var k :| 0 <= k < |life.fills| && life.fills[k].from == s;
      assert fills[k].from == s;
    }
    assert fills[|life.fills|] == f;
  }

  /** Round two goes on. */
  lemma FillingOk(cfg: Config, id: Id, life: Life, st: WriteState, from: Server, pkt: Packet, st': WriteState,
                  writes: map<Id, WriteState>, pending: seq<Sk2Send>, seen: map<nat, nat>)
    requires Finishing(cfg, life, st, seen) && Chains(pkt.locs) == Chains(st.locs)
    requires |st'.locs| == |pkt.locs| && LocsTaken(cfg, st.snapshot, st.locs, from, pkt.locs, st'.locs)
    requires st' == st.(locs := st'.locs, remaining := if st.snapshot then st.remaining - {from} else st.remaining)
    requires FillsOk(Heard(life, st, from, pkt)) && !Complete(cfg, Heard(life, st, from, pkt))
    requires id in writes && writes[id] == st' && !Queued(pending, id)
    ensures LifeOk(cfg, id, Heard(life, st, from, pkt), writes, pending, seen)
  {
    hide ServersOf, Decided, Complete, AnswersOk, Filled;
    var life' := Heard(life, st, from, pkt);
    FillPlaces(cfg, life, st, from, pkt, st'.locs, seen);
    SameAnswers(cfg, life, life');
    forall s ensures Filled(life', s) <==> Filled(life, s) || s == from {
      FilledMore(life, Fill(from, Indices(pkt.locs)), s);
    }
  }

  /** The write is complete and its locations are reported. */
  lemma FinishOk(cfg: Config, id: Id, life: Life, st: WriteState, from: Server, pkt: Packet, after: seq<Loc>,
                 writes: map<Id, WriteState>, pending: seq<Sk2Send>, seen: map<nat, nat>, seen': map<nat, nat>)
    requires Finishing(cfg, life, st, seen) && Chains(pkt.locs) == Chains(st.locs) && Grown(seen, seen')
    requires |after| == |pkt.locs| && LocsTaken(cfg, st.snapshot, st.locs, from, pkt.locs, after)
    requires FillsOk(Heard(life, st, from, pkt)) && Complete(cfg, Heard(life, st, from, pkt))
    requires id !in writes && !Queued(pending, id)
    ensures var heard := Heard(life, st, from, pkt);
      LifeOk(cfg, id, heard.(reports := heard.reports + Reports(st.snapshot, after)), writes, pending, seen')
  {
    hide ServersOf, Decided, AnswersOk, Filled, Located;
    var life' := Heard(life, st, from, pkt);
    FillPlaces(cfg, life, st, from, pkt, after, seen);
    var done := life'.(reports := life'.reports + Reports(st.snapshot, after));
    SameAnswers(cfg, life, done);
    StillDecided(cfg, done, st.maxTs, seen, seen');
    SameComplete(cfg, life', done);
  }

  lemma StillDecided(cfg: Config, life: Life, m: nat, seen: map<nat, nat>, seen': map<nat, nat>)
    requires Sane(cfg) && AnswersOk(cfg, life) && Decided(cfg, life, m, seen) && Grown(seen, seen')
    ensures Decided(cfg, life, m, seen')
  {
  }

  lemma SameComplete(cfg: Config, life: Life, life': Life)
    requires Sane(cfg) && FillsOk(life) && life'.fills == life.fills && life'.chains == life.chains
    requires life'.snapshot == life.snapshot
    ensures FillsOk(life') && (Complete(cfg, life) ==> Complete(cfg, life'))
    ensures Located(cfg, life') == Located(cfg, life)
  {
  }

  lemma MultiComplete(cfg: Config, life: Life, after: seq<Loc>)
    requires Sane(cfg) && FillsOk(life) && !life.snapshot && after == Located(cfg, life)
    ensures Complete(cfg, life) <==> forall p :: Real(life.chains, p) ==> after[p].index != 0
  {
  }

  lemma SnapshotComplete(cfg: Config, life: Life, st: WriteState, from: Server, pkt: Packet, seen: map<nat, nat>)
    requires Finishing(cfg, life, st, seen) && st.snapshot && Chains(pkt.locs) == Chains(st.locs)
    ensures FillsOk(Heard(life, st, from, pkt))
    ensures Complete(cfg, Heard(life, st, from, pkt)) <==> st.remaining - {from} == {}
  {
    hide ServersOf, Decided, AnswersOk, PlaceOf, Filled;
    var life' := Heard(life, st, from, pkt);
    forall s ensures Filled(life', s) <==> Filled(life, s) || s == from {
      FilledMore(life, Fill(from, Indices(pkt.locs)), s);
    }
    if s :| s in st.remaining - {from} {
      var p :| 0 <= p < |life.chains| && Owns(cfg, life.chains, s, p);
      assert !Filled(life', ReadServer(cfg, life.chains[p]));
    } else {
      forall p | Real(life.chains, p) ensures Filled(life', ReadServer(cfg, life.chains[p])) {
        var s := ReadServer(cfg, life.chains[p]);
        assert Owns(cfg, life.chains, s, p);
        assert s !in st.remaining - {from};
        assert s in st.remaining || Filled(life, s);
      }
    }
  }

  lemma SaneInv(cfg: Config, writes: map<Id, WriteState>, pending: seq<Sk2Send>, seen: map<nat, nat>,
                lives: map<Id, Life>)
    requires Inv(cfg, writes, pending, seen, lives)
    ensures Sane(cfg)
  {
  }

  lemma PendingApart(cfg: Config, writes: map<Id, WriteState>, pending: seq<Sk2Send>, seen: map<nat, nat>,
                     lives: map<Id, Life>)
    requires Inv(cfg, writes, pending, seen, lives)
    ensures forall j :: 0 <= j < |pending| ==> pending[j].id in lives
    ensures forall i, j :: 0 <= i < j < |pending| ==> pending[i].id != pending[j].id
  {
  }

  /** The first queued write leaves the queue. */
  lemma QueuedIsLive(cfg: Config, writes: map<Id, WriteState>, pending: seq<Sk2Send>, seen: map<nat, nat>,
                     lives: map<Id, Life>)
    requires Inv(cfg, writes, pending, seen, lives) && pending != []
    ensures var id := pending[0].id;
      && id in lives && id !in writes && !Queued(pending[1..], id)
      && AnswersOk(cfg, lives[id]) && FillsOk(lives[id]) && Waits(cfg, lives[id], pending[0], seen)
      && !lives[id].dropped
      && (exists p :: Real(lives[id].chains, p)) && ServersOf(cfg, lives[id].chains, lives[id].asked)
    ensures forall s: Sk2Send :: s.id != pending[0].id ==> (s in pending <==> s in pending[1..])
    ensures forall i, j :: 0 <= i < j < |pending[1..]| ==> pending[1..][i].id != pending[1..][j].id
  {
  }

  // ---------------------------------------------------------------------------
  // What holds of every write, at all times

  /** Round two starts exactly once, when every chain has answered, with exactly
      the largest of all their timestamps, and goes to exactly their heads. */
  lemma RoundTwoOnce(cfg: Config, id: Id, writes: map<Id, WriteState>, pending: seq<Sk2Send>, seen: map<nat, nat>,
                     lives: map<Id, Life>)
    requires Inv(cfg, writes, pending, seen, lives) && id in lives
    ensures AnswersOk(cfg, lives[id])
    ensures |lives[id].rounds| == if AllAnswered(cfg, lives[id]) && !Queued(pending, id) then 1 else 0
    ensures lives[id].rounds != [] ==> IsMaxStamp(cfg, lives[id], lives[id].rounds[0].maxTs)
    ensures lives[id].rounds != [] ==> forall p :: Real(lives[id].chains, p) ==> Stamp(cfg, lives[id], p) > 0
    ensures lives[id].rounds != [] ==> ServersOf(cfg, lives[id].chains, lives[id].rounds[0].servers)
  {
    hide Complete, ServersOf, IsMaxStamp;
    var life := lives[id];
    assert LifeOk(cfg, id, life, writes, pending, seen);
    StillUnanswered(cfg, id, writes, pending, seen, life);
    if life.rounds != [] {
      forall p | Real(life.chains, p) ensures Stamp(cfg, life, p) > 0 {
        assert Answered(cfg, life, p);
        assert Owns(cfg, life.chains, ReadServer(cfg, life.chains[p]), p);
      }
    }
  }

  /** Completion is reported exactly once, when round two is complete, with the
      location that each chain's own server supplied; those of a multi-append are
      not zero. */
  lemma ReportedOnce(cfg: Config, id: Id, writes: map<Id, WriteState>, pending: seq<Sk2Send>, seen: map<nat, nat>,
                     lives: map<Id, Life>)
    requires Inv(cfg, writes, pending, seen, lives) && id in lives
    ensures FillsOk(lives[id])
    ensures var life := lives[id]; var done := life.rounds != [] && Complete(cfg, life);
      && (!done ==> life.reports == [])
      && (done && !life.snapshot ==> life.reports == [Wrote(Located(cfg, life))])
      && (done && life.snapshot ==> |life.reports| == |life.chains|)
      && (done && life.snapshot ==>
            forall p :: 0 <= p < |life.chains| ==> life.reports[p] == Read(Located(cfg, life)[p], Located(cfg, life)))
    ensures lives[id].reports != [] ==> forall p :: Real(lives[id].chains, p) ==>
      var index := Located(cfg, lives[id])[p].index;
      && (!lives[id].snapshot ==> index != 0)
      && (index != 0 ==>
            exists k :: 0 <= k < |lives[id].fills| && Gave(cfg, lives[id].chains, lives[id].fills[k], p, index))
  {
    hide LifeOk, ServersOf, Decided, AnswersOk, Complete, PlaceOf;
    var life := lives[id];
    assert LifeOk(cfg, id, life, writes, pending, seen);
    ReportShape(cfg, id, writes, pending, seen, life);
    if life.reports != [] {
      PlacesByOwners(cfg, life);
    }
  }

  lemma PlacesByOwners(cfg: Config, life: Life)
    requires Sane(cfg) && FillsOk(life) && Complete(cfg, life)
    ensures forall p :: Real(life.chains, p) ==>
      var index := PlaceOf(cfg, life, p);
      && (!life.snapshot ==> index != 0)
      && (index != 0 ==> exists k :: 0 <= k < |life.fills| && Gave(cfg, life.chains, life.fills[k], p, index))
  {
    forall p | Real(life.chains, p) && PlaceOf(cfg, life, p) != 0
      ensures exists k :: 0 <= k < |life.fills| && Gave(cfg, life.chains, life.fills[k], p, PlaceOf(cfg, life, p))
    {
      PlacedByOwner(cfg, life.snapshot, life.chains, life.fills, p);
    }
  }

  lemma ReportShape(cfg: Config, id: Id, writes: map<Id, WriteState>, pending: seq<Sk2Send>, seen: map<nat, nat>,
                    life: Life)
    requires Sane(cfg) && LifeOk(cfg, id, life, writes, pending, seen)
    ensures FillsOk(life)
    ensures life.reports == Due(cfg, life)
  {
  }

  lemma StillUnanswered(cfg: Config, id: Id, writes: map<Id, WriteState>, pending: seq<Sk2Send>, seen: map<nat, nat>,
                        life: Life)
    requires Sane(cfg) && LifeOk(cfg, id, life, writes, pending, seen)
    ensures id in writes && writes[id].Skeens1? ==> !AllAnswered(cfg, life)
  {
  }

  /** A write waits for its round two only when every chain has answered. */
  lemma QueuedAnswered(cfg: Config, id: Id, writes: map<Id, WriteState>, pending: seq<Sk2Send>, seen: map<nat, nat>,
                       lives: map<Id, Life>)
    requires Inv(cfg, writes, pending, seen, lives) && id in lives
    ensures AnswersOk(cfg, lives[id]) && (Queued(pending, id) ==> lives[id].rounds == [] && AllAnswered(cfg, lives[id]))
  {
    hide ServersOf, Complete, AnswersOk;
    assert LifeOk(cfg, id, lives[id], writes, pending, seen);
  }

  /** A write is never lost: until it is reported it is in flight, unless an
      answer without the round-one flag dropped it. */
  lemma NeverLost(cfg: Config, id: Id, writes: map<Id, WriteState>, pending: seq<Sk2Send>, seen: map<nat, nat>,
                  lives: map<Id, Life>)
    requires Inv(cfg, writes, pending, seen, lives) && id in lives
    ensures !lives[id].dropped && lives[id].reports == [] <==> id in writes || Queued(pending, id)
    ensures !(id in writes && Queued(pending, id))
  {
    hide ServersOf, Decided, AnswersOk, Complete;
    assert LifeOk(cfg, id, lives[id], writes, pending, seen);
  }

  /** Whatever is known to be decided is covered by the timestamps seen. */
  lemma SeenCovers(cfg: Config, id: Id, writes: map<Id, WriteState>, pending: seq<Sk2Send>, seen: map<nat, nat>,
                   lives: map<Id, Life>, chain: nat)
    requires Inv(cfg, writes, pending, seen, lives) && id in lives && AllAnswered(cfg, lives[id])
    requires chain in lives[id].chains
    ensures AnswersOk(cfg, lives[id]) && chain in seen
    ensures forall p :: Real(lives[id].chains, p) ==> Stamp(cfg, lives[id], p) <= seen[chain]
  {
    hide ServersOf, Complete;
    var life := lives[id];
    assert LifeOk(cfg, id, life, writes, pending, seen);
    StillUnanswered(cfg, id, writes, pending, seen, life);
  }

  // ---------------------------------------------------------------------------
  // The client

  /** What the server promises about a packet the client is waiting for: the
      chains are the write's, and a round-one answer stamps all chains it is
      for. The code aborts otherwise. */
  ghost predicate PacketOk(cfg: Config, st: WriteState, from: Server, pkt: Packet)
    requires Sane(cfg)
  {
    && Chains(pkt.locs) == Chains(st.locs)
    && (st.Skeens1? && pkt.queued && from in st.remaining ==>
          forall p :: Owns(cfg, Chains(st.locs), from, p) ==> pkt.locs[p].index > 0)
  }

  /** The life after hearing a packet in state st, up to what the client then
      sends and reports. */
  function Heard(life: Life, st: WriteState, from: Server, pkt: Packet): Life {
    match st
    case Skeens1(_, _, remaining, _) =>
      if !pkt.queued then life.(dropped := true)
      else if from in remaining then life.(answers := life.answers[from := Indices(pkt.locs)])
      else life
    case Skeens2(_, _, _, _) => life.(fills := life.fills + [Fill(from, Indices(pkt.locs))])
  }

  class StoreClient {
    const cfg: Config
    var sentWrites: map<Id, WriteState>
    var pendingSkeens2: seq<Sk2Send>
    var maxTimestampSeen: map<nat, nat>
    ghost var lives: map<Id, Life>
    ghost var outside: set<(nat, nat)>

    ghost predicate Valid()
      reads this
    {
      && Inv(cfg, sentWrites, pendingSkeens2, maxTimestampSeen, lives)
      && SeenExact(cfg, lives, outside, maxTimestampSeen)
    }

    constructor (servers: nat, unreplicated: bool)
      requires servers > 0
      ensures Valid() && lives == map[]
    {
      cfg := Config(servers, unreplicated);
      sentWrites, pendingSkeens2, maxTimestampSeen, lives, outside := map[], [], map[], map[], {};
    }

    /** is_single_node_append. */
    method IsSingleNode(locs: seq<Loc>) returns (single: bool)
      requires Sane(cfg) && Separated(locs)
      ensures single <==> forall p, q :: Real(Chains(locs), p) && Real(Chains(locs), q) ==>
        WriteServer(cfg, locs[p].chain) == WriteServer(cfg, locs[q].chain)
    {
      single := true;
      var server: Option<Server> := None;
      for i := 0 to |locs|
        invariant server.None? ==> single && forall p :: 0 <= p < i ==> !Real(Chains(locs), p)
        invariant server.Some? ==>
          exists p :: 0 <= p < i && Real(Chains(locs), p) && WriteServer(cfg, locs[p].chain) == server.value
        invariant server.Some? ==>
          (single <==> forall p :: 0 <= p < i && Real(Chains(locs), p) ==>
             WriteServer(cfg, locs[p].chain) == server.value)
      {
        if locs[i] != Loc(0, 0) {
          assert Real(Chains(locs), i);
          var s := WriteServer(cfg, locs[i].chain);
          if server.Some? {
            single := single && s == server.value;
          } else {
            server := Some(s);
          }
        }
      }
    }

    /** get_servers_for_multi: mark the head of every chain, then list the marked
        servers. */
    method ServersForMulti(locs: seq<Loc>) returns (servers: seq<Server>)
      requires Sane(cfg) && Separated(locs)
      ensures ServersOf(cfg, Chains(locs), servers)
    {
      ghost var chains := Chains(locs);
      var present := seq(cfg.servers, _ => false);
      for i := 0 to |locs|
        invariant |present| == cfg.servers
        invariant forall s :: 0 <= s < |present| ==>
          (present[s] <==> exists p :: 0 <= p < i && Heads(cfg, chains, s, p))
      {
        if locs[i] != Loc(0, 0) {
          assert Heads(cfg, chains, WriteServer(cfg, locs[i].chain), i);
          present := present[WriteServer(cfg, locs[i].chain) := true];
        }
      }
      servers := [];
      for s := 0 to |present|
        invariant forall i, j :: 0 <= i < j < |servers| ==> servers[i] < servers[j]
        invariant forall i :: 0 <= i < |servers| ==> servers[i] < s && present[servers[i]]
        invariant forall t :: 0 <= t < s && present[t] ==> t in servers
      {
        if present[s] {
          servers := servers + [s];
        }
      }
    }

    /** The servers whose answers are awaited. */
    method Readers(ghost chains: seq<nat>, servers: seq<Server>) returns (remaining: set<Server>)
      requires Sane(cfg) && ServersOf(cfg, chains, servers)
      ensures forall s :: s in remaining <==> Owner(cfg, chains, s)
    {
      remaining := {};
      for i := 0 to |servers|
        invariant forall s :: s in remaining <==> exists j :: 0 <= j < i && ReaderOf(cfg, servers[j]) == s
      {
        remaining := remaining + {ReaderOf(cfg, servers[i])};
      }
      forall s ensures s in remaining <==> Owner(cfg, chains, s) {
        OwnersReadHeads(cfg, chains, s);
        if s in remaining {
          ghost var j :| 0 <= j < |servers| && ReaderOf(cfg, servers[j]) == s;
          assert Head(cfg, chains, servers[j]);
        }
      }
    }

    /** add_skeens1 and add_snapshot_skeens1, with prep_skeens1. A multi-append
        clears its indices first. */
    method Begin(id: Id, snapshot: bool, request: seq<Loc>) returns (data: seq<bool>)
      requires Valid() && id !in lives && Separated(request)
      requires exists p :: Real(Chains(request), p)
      modifies this
      ensures Valid()
      ensures id in lives && ServersOf(cfg, Chains(request), lives[id].asked)
      ensures lives == old(lives)[id := Life(snapshot, Chains(request), lives[id].asked, map[], [], [], [], false)]
      ensures !snapshot ==> |data| == |lives[id].asked| && forall i :: 0 <= i < |data| ==>
        (data[i] <==> GetsData(cfg, Chains(request), lives[id].asked[i]))
    {
      hide LifeOk, ServersOf, Owner, SeenExact;
      var locs := request;
      if !snapshot {
        locs := ClearIndices(request);
      }
      var timestamps := seq(|locs|, _ => 0);
      var servers := ServersForMulti(locs);
      var remaining := Readers(Chains(locs), servers);
      ghost var life := Life(snapshot, Chains(request), servers, map[], [], [], [], false);
      data := [];
      if !snapshot {
        data := Copies(locs, servers);
      }
      NotQueued(cfg, id, sentWrites, pendingSkeens2, maxTimestampSeen, lives);
      sentWrites := sentWrites[id := Skeens1(snapshot, locs, remaining, timestamps)];
      BeginOk(cfg, id, life, sentWrites[id], sentWrites, pendingSkeens2, maxTimestampSeen);
      Advance(cfg, id, lives, life, old(sentWrites), sentWrites, pendingSkeens2, pendingSkeens2,
              maxTimestampSeen, maxTimestampSeen);
      ExactStep(cfg, lives, id, life, outside, maxTimestampSeen, maxTimestampSeen);
      lives := lives[id := life];
    }

    /** Which of the servers get the data and which the sentinel. The code's check
        that a sentinel has a separator holds. */
    method Copies(locs: seq<Loc>, servers: seq<Server>) returns (data: seq<bool>)
      requires Sane(cfg) && Separated(locs) && ServersOf(cfg, Chains(locs), servers)
      ensures |data| == |servers|
      ensures forall i :: 0 <= i < |data| ==> (data[i] <==> GetsData(cfg, Chains(locs), servers[i]))
    {
      data := [];
      for i := 0 to |servers|
        invariant |data| == i
        invariant forall j :: 0 <= j < i ==> (data[j] <==> GetsData(cfg, Chains(locs), servers[j]))
      {
        var isData := IsData(locs, servers[i]);
        assert isData || Loc(0, 0) in locs by {
          assert Head(cfg, Chains(locs), servers[i]);
        }
        data := data + [isData];
      }
    }

    /** Some chain before the first separator is headed by s. */
    method IsData(locs: seq<Loc>, s: Server) returns (isData: bool)
      requires Sane(cfg) && Separated(locs)
      ensures isData <==> GetsData(cfg, Chains(locs), s)
    {
      isData := false;
      var p := 0;
      while p < |locs| && locs[p] != Loc(0, 0) && !isData
        invariant 0 <= p <= |locs| && forall q :: 0 <= q < p ==> locs[q].chain != 0
        invariant isData <==> exists q :: 0 <= q < p && Heads(cfg, Chains(locs), s, q)
      {
        if WriteServer(cfg, locs[p].chain) == s {
          isData := true;
          assert Heads(cfg, Chains(locs), s, p);
        }
        p := p + 1;
      }
    }

    method ClearIndices(locs: seq<Loc>) returns (cleared: seq<Loc>)
      ensures Chains(cleared) == Chains(locs)
      ensures forall p :: 0 <= p < |cleared| ==> cleared[p].index == 0
    {
      cleared := [];
      for i := 0 to |locs|
        invariant |cleared| == i
        invariant forall p :: 0 <= p < i ==> cleared[p] == Loc(locs[p].chain, 0)
      {
        cleared := cleared + [Loc(locs[i].chain, 0)];
      }
    }

    /** Raise the largest timestamp seen on each of these chains to m. */
    method RaiseSeen(locs: seq<Loc>, m: nat)
      modifies this`maxTimestampSeen
      ensures Raised(old(maxTimestampSeen), Chains(locs), m, maxTimestampSeen)
    {
      for i := 0 to |locs|
        invariant Raised(old(maxTimestampSeen), Chains(locs)[..i], m, maxTimestampSeen)
      {
        var o := locs[i].chain;
        assert Chains(locs)[..i + 1] == Chains(locs)[..i] + [o];
        if o !in maxTimestampSeen || m >= maxTimestampSeen[o] {
          maxTimestampSeen := maxTimestampSeen[o := m];
        }
      }
      assert Chains(locs)[..|locs|] == Chains(locs);
    }

    static method MaxOf(ts: seq<nat>) returns (m: nat)
      requires |ts| > 0
      ensures (forall p :: 0 <= p < |ts| ==> ts[p] <= m) && (exists p :: 0 <= p < |ts| && ts[p] == m)
    {
      m := ts[0];
      for i := 1 to |ts|
        invariant (forall p :: 0 <= p < i ==> ts[p] <= m) && (exists p :: 0 <= p < i && ts[p] == m)
      {
        if ts[i] > m {
          m := ts[i];
        }
      }
    }

    /** skeens_finished, for a server whose answer is awaited. The check that a
        timestamp is taken once holds here. */
    method TakeStamps(from: Server, locs: seq<Loc>, before: seq<nat>) returns (after: seq<nat>)
      requires Sane(cfg) && |before| == |locs|
      requires forall p :: Owns(cfg, Chains(locs), from, p) ==> before[p] == 0 && locs[p].index > 0
      ensures |after| == |locs| && StampsTaken(cfg, Chains(locs), before, from, locs, after)
    {
      after := before;
      for i := 0 to |locs|
        invariant |after| == |locs|
        invariant forall p :: 0 <= p < |locs| ==>
          after[p] == if p < i && Owns(cfg, Chains(locs), from, p) then locs[p].index else before[p]
      {
        if locs[i].chain != 0 && ReadServer(cfg, locs[i].chain) == from {
          assert Owns(cfg, Chains(locs), from, i);
          assert after[i] == 0;
          after := after[i := locs[i].index];
          assert after[i] > 0;
        }
      }
    }

    /** The Skeens1 and SnapshotSkeens1 branches of handle_completed_write. */
    method OnRoundOne(from: Server, pkt: Packet)
      requires Valid() && pkt.id in sentWrites && sentWrites[pkt.id].Skeens1?
      requires PacketOk(cfg, sentWrites[pkt.id], from, pkt)
      modifies this
      ensures Valid() && pkt.id in old(lives)
      ensures lives == old(lives)[pkt.id := Heard(old(lives)[pkt.id], old(sentWrites)[pkt.id], from, pkt)]
      ensures FillsOk(lives[pkt.id])
      ensures SeenFrom(cfg, lives[pkt.id], old(maxTimestampSeen), maxTimestampSeen)
    {
      hide LifeOk, Gathering, Accepted, PacketOk, Raised, Chains, FillsOk, SeenExact, SeenFrom, AllAnswered;
      var id, st := pkt.id, sentWrites[pkt.id];
      ghost var writes, pending, seen := sentWrites, pendingSkeens2, maxTimestampSeen;
      WriteIsLive(cfg, id, writes, pending, seen, lives);
      RoundOneLife(cfg, id, lives[id], writes, pending, seen);
      RoundOneFills(cfg, lives[id], st, from, pkt);
      StillUnanswered(cfg, id, writes, pending, seen, lives[id]);
      ghost var life' := Heard(lives[id], st, from, pkt);
      sentWrites := sentWrites - {id};
      if !pkt.queued {
        DropOk(cfg, id, lives[id], st, sentWrites, pending, seen);
      } else if from !in st.remaining {
        sentWrites := sentWrites[id := st];
        assert sentWrites == writes;
      } else {
        Accept(from, pkt, st);
      }
      SeenSame(cfg, life', seen, maxTimestampSeen);
      Advance(cfg, id, lives, life', writes, sentWrites, pending, pendingSkeens2, seen, maxTimestampSeen);
      ExactStep(cfg, lives, id, life', outside, seen, maxTimestampSeen);
      lives := lives[id := life'];
    }

    /** skeens_finished for an awaited answer, and what follows from its result. */
    method Accept(from: Server, pkt: Packet, st: WriteState)
      requires pkt.id in lives && Gathering(cfg, lives[pkt.id], st) && st.Skeens1? && from in st.remaining
      requires Sane(cfg) && pkt.queued && PacketOk(cfg, st, from, pkt)
      requires pkt.id !in sentWrites && !Queued(pendingSkeens2, pkt.id)
      modifies this`sentWrites, this`pendingSkeens2, this`maxTimestampSeen
      ensures LifeOk(cfg, pkt.id, Heard(lives[pkt.id], st, from, pkt), sentWrites, pendingSkeens2, maxTimestampSeen)
      ensures Grown(old(maxTimestampSeen), maxTimestampSeen) && sentWrites - {pkt.id} == old(sentWrites)
      ensures SeenFrom(cfg, Heard(lives[pkt.id], st, from, pkt), old(maxTimestampSeen), maxTimestampSeen)
      ensures pendingSkeens2 == old(pendingSkeens2)
        || (|pendingSkeens2| == |old(pendingSkeens2)| + 1 && old(pendingSkeens2) <= pendingSkeens2
            && pendingSkeens2[|pendingSkeens2| - 1].id == pkt.id)
    {
      hide LifeOk, Gathering, StampsTaken, Owner;
      ghost var life, seen := lives[pkt.id], maxTimestampSeen;
      UnansweredIsZero(cfg, life, st, from);
      var after := TakeStamps(from, pkt.locs, st.timestamps);
      assert Accepted(cfg, life.chains, st, from, pkt, after);
      if st.remaining - {from} == {} {
        var m := MaxOf(after);
        RaiseSeen(pkt.locs, m);
        var servers := ServersForMulti(st.locs);
        var send := Sk2Send(pkt.id, st.snapshot, st.locs, m, servers);
        LastOk(cfg, pkt.id, life, st, from, pkt, after, send, sentWrites, pendingSkeens2, seen, maxTimestampSeen);
        pendingSkeens2 := pendingSkeens2 + [send];
      } else {
        sentWrites := sentWrites[pkt.id := st.(remaining := st.remaining - {from}, timestamps := after)];
        MoreOk(cfg, pkt.id, life, st, from, pkt, after, sentWrites, pendingSkeens2, seen);
      }
    }

    /** send_skeens2, for the first write of the queue. */
    method SendSkeens2(ghost pending: seq<Sk2Send>, send: Sk2Send)
      requires Inv(cfg, sentWrites, pending, maxTimestampSeen, lives) && pending != [] && pending[0] == send
      modifies this`sentWrites, this`lives
      ensures Inv(cfg, sentWrites, pending[1..], maxTimestampSeen, lives)
      ensures send.id in old(lives) && old(lives)[send.id].rounds == []
      ensures lives == old(lives)[send.id := old(lives)[send.id].(rounds := [Sending(send)])]
    {
      hide LifeOk, AnswersOk, FillsOk, ServersOf, Owner, Decided;
      QueuedIsLive(cfg, sentWrites, pending, maxTimestampSeen, lives);
      ghost var life := lives[send.id];
      ghost var life' := life.(rounds := life.rounds + [Sending(send)]);
      assert life.rounds + [Sending(send)] == [Sending(send)];
      var locs := ClearIndices(send.locs);
      var remaining := Readers(life.chains, send.servers);
      SomeServer(cfg, life.chains, send.servers);
      if |send.servers| > 0 {
        sentWrites := sentWrites[send.id := Skeens2(send.snapshot, locs, remaining, send.maxTs)];
      }
      SentOk(cfg, send.id, life, send, sentWrites[send.id], sentWrites, pending[1..], maxTimestampSeen);
      Advance(cfg, send.id, lives, life', old(sentWrites), sentWrites, pending, pending[1..], maxTimestampSeen,
              maxTimestampSeen);
      lives := lives[send.id := life'];
    }

    static lemma SomeServer(cfg: Config, chains: seq<nat>, servers: seq<Server>)
      requires Sane(cfg) && ServersOf(cfg, chains, servers) && exists p :: Real(chains, p)
      ensures |servers| > 0
    {
      var p :| Real(chains, p);
      assert Heads(cfg, chains, WriteServer(cfg, chains[p]), p);
      assert Head(cfg, chains, WriteServer(cfg, chains[p]));
    }

    /** after_work: send round two of every write that is ready. */
    method AfterWork()
      requires Valid()
      modifies this
      ensures Valid() && pendingSkeens2 == [] && lives.Keys == old(lives).Keys
      ensures forall j :: 0 <= j < |old(pendingSkeens2)| ==> old(pendingSkeens2)[j].id in old(lives)
      ensures forall j :: 0 <= j < |old(pendingSkeens2)| ==>
        var send := old(pendingSkeens2)[j]; lives[send.id] == old(lives)[send.id].(rounds := [Sending(send)])
      ensures forall id :: id in lives && !Queued(old(pendingSkeens2), id) ==> lives[id] == old(lives)[id]
    {
      hide Inv, SeenExact, AllAnswered;
      var drain := pendingSkeens2;
      SaneInv(cfg, sentWrites, drain, maxTimestampSeen, lives);
      assert drain[0..] == drain;
      PendingApart(cfg, sentWrites, drain, maxTimestampSeen, lives);
      pendingSkeens2 := [];
      for i := 0 to |drain|
        invariant pendingSkeens2 == [] && Inv(cfg, sentWrites, drain[i..], maxTimestampSeen, lives)
        invariant lives.Keys == old(lives).Keys
        invariant maxTimestampSeen == old(maxTimestampSeen) && outside == old(outside)
        invariant forall j :: 0 <= j < i ==>
          lives[drain[j].id] == old(lives)[drain[j].id].(rounds := [Sending(drain[j])])
        invariant forall id :: id in lives && (forall j :: 0 <= j < i ==> drain[j].id != id) ==>
          lives[id] == old(lives)[id]
      {
        assert drain[i..][1..] == drain[i + 1..];
        SendSkeens2(drain[i..], drain[i]);
      }
      assert drain[|drain|..] == [];
      ExactSent(cfg, drain, old(lives), lives, outside, maxTimestampSeen);
    }

    static lemma ExactSent(cfg: Config, drain: seq<Sk2Send>, before: map<Id, Life>, after: map<Id, Life>,
                           outside: set<(nat, nat)>, seen: map<nat, nat>)
      requires Sane(cfg) && SeenExact(cfg, before, outside, seen) && after.Keys == before.Keys
      requires forall j :: 0 <= j < |drain| ==>
        drain[j].id in before && after[drain[j].id] == before[drain[j].id].(rounds := [Sending(drain[j])])
      requires forall id :: id in after && (forall j :: 0 <= j < |drain| ==> drain[j].id != id) ==>
        after[id] == before[id]
      ensures SeenExact(cfg, after, outside, seen)
    {
      hide SeenExact;
      forall id | id in before
        ensures after[id].chains == before[id].chains && after[id].answers == before[id].answers
      {
        if j :| 0 <= j < |drain| && drain[j].id == id {
          assert after[id] == before[id].(rounds := [Sending(drain[j])]);
        }
      }
      ExactKeeps(cfg, before, after, outside, seen);
    }

    /** The loops that copy locations out of a round-two answer. */
    method TakeLocs(snapshot: bool, before: seq<Loc>, from: Server, theirs: seq<Loc>)
      returns (after: seq<Loc>, all: bool)
      requires Sane(cfg) && Chains(before) == Chains(theirs)
      ensures |after| == |theirs| && LocsTaken(cfg, snapshot, before, from, theirs, after)
      ensures Chains(after) == Chains(before)
      ensures !snapshot ==> (all <==> forall p :: Real(Chains(after), p) ==> after[p].index != 0)
    {
      assert |before| == |Chains(before)| == |theirs|;
      after, all := before, true;
      for i := 0 to |theirs|
        invariant |after| == |theirs| == |before| && forall p :: i <= p < |before| ==> after[p] == before[p]
        invariant forall p :: 0 <= p < i ==> after[p] == FilledLoc(cfg, snapshot, before[p], from, theirs[p])
        invariant !snapshot ==> (all <==> forall p :: 0 <= p < i && before[p].chain != 0 ==> after[p].index != 0)
      {
        if before[i].chain != 0 {
          if ReadServer(cfg, theirs[i].chain) == from && (snapshot || theirs[i].index != 0) {
            after := after[i := theirs[i]];
          } else if after[i].index == 0 {
            all := false;
          }
        }
      }
      forall p | 0 <= p < |after| ensures after[p].chain == before[p].chain {
        assert Chains(before)[p] == Chains(theirs)[p];
      }
    }

    /** The Skeens2 and SnapshotSkeens2 branches of handle_completed_write. A
        complete write is reported to the application. */
    method OnRoundTwo(from: Server, pkt: Packet) returns (reports: seq<Report>)
      requires Valid() && pkt.id in sentWrites && sentWrites[pkt.id].Skeens2?
      requires PacketOk(cfg, sentWrites[pkt.id], from, pkt)
      modifies this
      ensures Valid() && pkt.id in old(lives)
      ensures var heard := Heard(old(lives)[pkt.id], old(sentWrites)[pkt.id], from, pkt);
        && lives == old(lives)[pkt.id := heard.(reports := heard.reports + reports)]
        && FillsOk(heard)
        && reports == if Complete(cfg, heard) then Reports(heard.snapshot, Located(cfg, heard)) else []
      ensures SeenFrom(cfg, lives[pkt.id], old(maxTimestampSeen), maxTimestampSeen)
    {
      hide SeenFrom, LifeOk, Finishing, FillsOk, Complete, Located, PacketOk, Reports, SeenExact, AllAnswered;
      var id, st := pkt.id, sentWrites[pkt.id];
      ghost var writes, seen := sentWrites, maxTimestampSeen;
      WriteIsLive(cfg, id, writes, pendingSkeens2, seen, lives);
      RoundTwoLife(cfg, id, lives[id], writes, pendingSkeens2, seen);
      sentWrites := sentWrites - {id};
      reports := Settle(from, pkt, st);
      ghost var heard := Heard(lives[id], st, from, pkt);
      Advance(cfg, id, lives, heard.(reports := heard.reports + reports), writes, sentWrites,
              pendingSkeens2, pendingSkeens2, seen, maxTimestampSeen);
      ExactStep(cfg, lives, id, heard.(reports := heard.reports + reports), outside, seen, maxTimestampSeen);
      lives := lives[id := heard.(reports := heard.reports + reports)];
    }

    /** The locations of a round-two answer, and what follows when none is missing. */
    method Settle(from: Server, pkt: Packet, st: WriteState) returns (reports: seq<Report>)
      requires pkt.id in lives && Finishing(cfg, lives[pkt.id], st, maxTimestampSeen) && st.Skeens2?
      requires Sane(cfg) && PacketOk(cfg, st, from, pkt)
      requires pkt.id !in sentWrites && !Queued(pendingSkeens2, pkt.id)
      modifies this`sentWrites, this`maxTimestampSeen
      ensures var heard := Heard(lives[pkt.id], st, from, pkt);
        && FillsOk(heard)
        && reports == (if Complete(cfg, heard) then Reports(heard.snapshot, Located(cfg, heard)) else [])
        && var done := heard.(reports := heard.reports + reports);
        && LifeOk(cfg, pkt.id, done, sentWrites, pendingSkeens2, maxTimestampSeen)
        && SeenFrom(cfg, done, old(maxTimestampSeen), maxTimestampSeen)
      ensures Grown(old(maxTimestampSeen), maxTimestampSeen) && sentWrites - {pkt.id} == old(sentWrites)
    {
      hide SeenFrom, LifeOk, Finishing, FillsOk, Complete, LocsTaken, Located;
      ghost var life, heard, seen := lives[pkt.id], Heard(lives[pkt.id], st, from, pkt), maxTimestampSeen;
      var after, all := TakeLocs(st.snapshot, st.locs, from, pkt.locs);
      FillPlaces(cfg, life, st, from, pkt, after, seen);
      var remaining := st.remaining;
      if st.snapshot {
        remaining := remaining - {from};
        all := remaining == {};
      }
      AllMeansComplete(cfg, life, st, from, pkt, after, all, seen);
      if all {
        if !st.snapshot {
          RaiseSeen(after, st.maxTs);
        }
        reports := Notify(st.snapshot, after);
        FinishOk(cfg, pkt.id, life, st, from, pkt, after, sentWrites, pendingSkeens2, seen, maxTimestampSeen);
      } else {
        reports := [];
        assert heard.reports + reports == heard.reports;
        sentWrites := sentWrites[pkt.id := Skeens2(st.snapshot, after, remaining, st.maxTs)];
        FillingOk(cfg, pkt.id, life, st, from, pkt, sentWrites[pkt.id], sentWrites, pendingSkeens2, seen);
      }
      FinishSeen(cfg, life, heard.(reports := heard.reports + reports), st, seen, maxTimestampSeen);
    }

    /** on_finished_write, or on_finished_read for every location of a snapshot. */
    method Notify(snapshot: bool, locs: seq<Loc>) returns (reports: seq<Report>)
      ensures reports == Reports(snapshot, locs)
      ensures !snapshot ==> reports == [Wrote(locs)]
      ensures snapshot ==> |reports| == |locs| && forall p :: 0 <= p < |locs| ==> reports[p] == Read(locs[p], locs)
    {
      if !snapshot {
        return [Wrote(locs)];
      }
      reports := [];
      for p := 0 to |locs|
        invariant |reports| == p && forall q :: 0 <= q < p ==> reports[q] == Read(locs[q], locs)
      {
        reports := reports + [Read(locs[p], locs)];
      }
    }

    static lemma FinishSeen(cfg: Config, life: Life, done: Life, st: WriteState, seen: map<nat, nat>, seen': map<nat,
                            nat>)
      requires Finishing(cfg, life, st, seen) && done.answers == life.answers && done.chains == life.chains
      requires seen' == seen || (st.Skeens2? && Raised(seen, life.chains, st.maxTs, seen'))
      ensures SeenFrom(cfg, done, seen, seen')
    {
      hide ServersOf, IsMaxStamp, Raised;
      SameAnswers(cfg, life, done);
      if seen' != seen {
        DecidedSeen(cfg, done, st.maxTs, seen, seen, seen');
      }
    }

    static lemma AllMeansComplete(cfg: Config, life: Life, st: WriteState, from: Server, pkt: Packet, after: seq<Loc>,
                                  all: bool, seen: map<nat, nat>)
      requires Finishing(cfg, life, st, seen) && st.Skeens2? && Chains(pkt.locs) == Chains(st.locs)
      requires |after| == |pkt.locs| && LocsTaken(cfg, st.snapshot, st.locs, from, pkt.locs, after)
      requires if st.snapshot then all <==> st.remaining - {from} == {}
               else all <==> forall p :: Real(Chains(after), p) ==> after[p].index != 0
      ensures FillsOk(Heard(life, st, from, pkt)) && (Complete(cfg, Heard(life, st, from, pkt)) <==> all)
    {
      hide Complete, Decided, ServersOf, LocsTaken, PlaceOf, AnswersOk;
      FillPlaces(cfg, life, st, from, pkt, after, seen);
      if st.snapshot {
        SnapshotComplete(cfg, life, st, from, pkt, seen);
      } else {
        MultiComplete(cfg, Heard(life, st, from, pkt), after);
      }
    }

    /** The timestamps seen are raised by what else the client comes to know. */
    method See(locs: seq<Loc>, m: nat)
      requires Valid()
      modifies this`maxTimestampSeen, this`outside
      ensures Valid() && Raised(old(maxTimestampSeen), Chains(locs), m, maxTimestampSeen)
      ensures outside == old(outside) + set o | o in Chains(locs) :: (o, m)
    {
      hide LifeOk, SeenExact;
      ghost var seen := maxTimestampSeen;
      RaiseSeen(locs, m);
      ExactTold(cfg, lives, outside, seen, Chains(locs), m, maxTimestampSeen);
      outside := outside + set o | o in Chains(locs) :: (o, m);
      SeenMore(cfg, sentWrites, pendingSkeens2, seen, maxTimestampSeen, lives);
    }

    /** The timestamp a single append on a chain carries: the largest seen. */
    method SingleTimestamp(chain: nat) returns (t: nat)
      requires Valid()
      ensures t == SeenOn(maxTimestampSeen, chain)
      ensures forall id :: id in lives && chain in lives[id].chains && AllAnswered(cfg, lives[id]) ==>
        AnswersOk(cfg, lives[id]) && forall p :: Real(lives[id].chains, p) ==> Stamp(cfg, lives[id], p) <= t
      ensures forall e :: e in outside && e.0 == chain ==> e.1 <= t
      ensures t == 0 || (chain, t) in outside || OwnMax(cfg, lives, chain, t)
    {
      hide OwnMax, LifeOk;
      t := SeenOn(maxTimestampSeen, chain);
      forall id | id in lives && chain in lives[id].chains && AllAnswered(cfg, lives[id])
        ensures chain in maxTimestampSeen && AnswersOk(cfg, lives[id])
        ensures forall p :: Real(lives[id].chains, p) ==> Stamp(cfg, lives[id], p) <= maxTimestampSeen[chain]
      {
        SeenCovers(cfg, id, sentWrites, pendingSkeens2, maxTimestampSeen, lives, chain);
      }
    }
  }
}
