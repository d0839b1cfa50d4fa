/** The rest of the client's message handling (fuzzy_log_client/src/store.rs): writes
    that go to a single server, asked, and the dispatch over them and the two-round
    writes of StoreClient.dfy. Garbage-collection writes are never sent. */
module StoreFronts {
  import opened Options
  import opened StoreClients

  datatype Layout = IsData | IsMulti | IsSentinel | IsRead | IsSnapshot | IsOther

  /** A packet with the rest of its header. */
  datatype Message = Message(
    packet: Packet,
    layout: Layout,
    success: bool,
    unlock: bool,
    newMulti: bool,
    takeLock: bool,
    lock: nat)

  const SEPARATOR := Loc(0, 0)

  // ---------------------------------------------------------------------------
  // Reads

  function Count(asked: map<Loc, nat>, l: Loc): nat {
    if l in asked then asked[l] else 0
  }

  /** One read of l less. */
  function Fewer(asked: map<Loc, nat>, l: Loc): map<Loc, nat> {
    if Count(asked, l) <= 1 then asked - {l} else asked[l := asked[l] - 1]
  }

  /** The locations among the first n for which an entry is good: all but separators,
      and for a sentinel only those behind a separator. */
  function Good(locs: seq<Loc>, sentinel: bool, n: nat): seq<Loc>
    requires n <= |locs|
  {
    if n == 0 then []
    else if locs[n - 1] == SEPARATOR || (sentinel && SEPARATOR !in locs[..n - 1]) then Good(locs, sentinel, n - 1)
    else Good(locs, sentinel, n - 1) + [locs[n - 1]]
  }

  /** The reads left after the entry was good for these locations. */
  function Left(asked: map<Loc, nat>, good: seq<Loc>): map<Loc, nat> {
    if good == [] then asked else Fewer(Left(asked, good[..|good| - 1]), good[|good| - 1])
  }

  /** The locations at which the application gets the entry: where it asked for it, or
      everywhere if it wants its own writes back. */
  function Wanted(asked: map<Loc, nat>, good: seq<Loc>, own: bool): seq<Loc> {
    if good == [] then []
    else
      var front, l := good[..|good| - 1], good[|good| - 1];
      Wanted(asked, front, own) + if own || Count(Left(asked, front), l) > 0 then [l] else []
  }

  function Least(a: nat, b: nat): nat {
    if a < b then a else b
  }

  /** Reads are neither lost nor answered twice: each time the entry is good for a
      location one of the reads waiting there is answered, as long as there is one. */
  lemma {:induction false} ReadsConserved(asked: map<Loc, nat>, good: seq<Loc>, l: Loc)
    ensures multiset(Wanted(asked, good, false))[l] == Least(Count(asked, l), multiset(good)[l])
    ensures Count(Left(asked, good), l) == Count(asked, l) - multiset(Wanted(asked, good, false))[l]
  {
    if good != [] {
      var front, last := good[..|good| - 1], good[|good| - 1];
      assert good == front + [last];
      ReadsConserved(asked, front, l);
    }
  }

  lemma {:induction false} OwnIsAll(asked: map<Loc, nat>, good: seq<Loc>)
    ensures Wanted(asked, good, true) == good
  {
    if good != [] {
      OwnIsAll(asked, good[..|good| - 1]);
    }
  }

  predicate GoodAt(locs: seq<Loc>, sentinel: bool, p: int) {
    0 <= p < |locs| && locs[p] != SEPARATOR && (sentinel ==> SEPARATOR in locs[..p])
  }

  /** The good locations among the first n are those at these positions. */
  ghost predicate Picks(locs: seq<Loc>, sentinel: bool, n: nat, good: seq<Loc>, places: seq<nat>) {
    && n <= |locs| && |places| == |good|
    && (forall i :: 0 <= i < |places| ==> places[i] < n && good[i] == locs[places[i]])
    && (forall i :: 0 <= i < |places| ==> GoodAt(locs, sentinel, places[i]))
    && (forall i, j :: 0 <= i < j < |places| ==> places[i] < places[j])
    && (forall p: nat :: p < n && GoodAt(locs, sentinel, p) ==> p in places)
  }

  lemma GoodNext(locs: seq<Loc>, sentinel: bool, n: nat)
    requires n < |locs|
    ensures Good(locs, sentinel, n + 1) ==
      Good(locs, sentinel, n) + if GoodAt(locs, sentinel, n) then [locs[n]] else []
  {
  }

  lemma PicksNone(locs: seq<Loc>, sentinel: bool)
    ensures Picks(locs, sentinel, 0, Good(locs, sentinel, 0), [])
  {
  }

  lemma PicksMore(locs: seq<Loc>, sentinel: bool, n: nat, good: seq<Loc>, places: seq<nat>)
    requires n < |locs| && Picks(locs, sentinel, n, good, places)
    ensures if GoodAt(locs, sentinel, n) then Picks(locs, sentinel, n + 1, good + [locs[n]], places + [n])
            else Picks(locs, sentinel, n + 1, good, places)
  {
    if GoodAt(locs, sentinel, n) {
      forall p: nat | p < n + 1 && GoodAt(locs, sentinel, p) ensures p in places + [n] {
        assert p < n ==> p in places;
      }
    }
  }

  /** An entry is good for exactly these positions, in order: all that are no
      separators, and for a sentinel only those behind one. */
  lemma {:induction false} GoodPlaces(locs: seq<Loc>, sentinel: bool, n: nat) returns (places: seq<nat>)
    requires n <= |locs|
    ensures Picks(locs, sentinel, n, Good(locs, sentinel, n), places)
  {
    hide Picks, Good, GoodAt;
    places := [];
    if n == 0 {
      PicksNone(locs, sentinel);
    } else {
      var before := GoodPlaces(locs, sentinel, n - 1);
      PicksMore(locs, sentinel, n - 1, Good(locs, sentinel, n - 1), before);
      GoodNext(locs, sentinel, n - 1);
      assert Good(locs, sentinel, n - 1) + [] == Good(locs, sentinel, n - 1);
      places := if GoodAt(locs, sentinel, n - 1) then before + [n - 1] else before;
    }
  }

  /** One report per location, with the packet's locations. */
  function ReadReports(at: seq<Loc>, locs: seq<Loc>): seq<Report> {
    seq(|at|, i requires 0 <= i < |at| => Report.Read(at[i], locs))
  }

  lemma GoodStep(locs: seq<Loc>, sentinel: bool, i: nat, behind: bool)
    requires i < |locs| && (behind <==> SEPARATOR in locs[..i])
    ensures if locs[i] == SEPARATOR || (sentinel && !behind) then Good(locs, sentinel, i + 1) == Good(locs, sentinel, i)
            else Good(locs, sentinel, i + 1) == Good(locs, sentinel, i) + [locs[i]]
    ensures SEPARATOR in locs[..i + 1] <==> behind || locs[i] == SEPARATOR
  {
    assert locs[..i + 1] == locs[..i] + [locs[i]];
  }

  lemma Step(asked: map<Loc, nat>, good: seq<Loc>, l: Loc, own: bool)
    ensures Left(asked, good + [l]) == Fewer(Left(asked, good), l)
    ensures if own || Count(Left(asked, good), l) > 0
            then Wanted(asked, good + [l], own) == Wanted(asked, good, own) + [l]
            else Wanted(asked, good + [l], own) == Wanted(asked, good, own)
  {
    assert (good + [l])[..|good|] == good;
  }

  lemma ReportsMore(at: seq<Loc>, l: Loc, locs: seq<Loc>)
    ensures ReadReports(at + [l], locs) == ReadReports(at, locs) + [Report.Read(l, locs)]
  {
  }

  lemma RaisedMore(before: map<nat, nat>, good: seq<Loc>, m: nat, mid: map<nat, nat>, l: Loc, after: map<nat, nat>)
    requires Raised(before, Chains(good), m, mid) && Raised(mid, Chains([l]), m, after)
    ensures Raised(before, Chains(good + [l]), m, after)
  {
    assert Chains(good + [l]) == Chains(good) + [l.chain];
    assert Chains([l]) == [l.chain];
  }

  // ---------------------------------------------------------------------------
  // Writes to a single server

  /** Everything but the separators has an index. */
  predicate Indexed(locs: seq<Loc>) {
    forall p :: 0 <= p < |locs| && locs[p] != SEPARATOR ==> locs[p].index != 0
  }

  /** No location of a real chain is missing. */
  predicate Full(locs: seq<Loc>) {
    forall p :: 0 <= p < |locs| && locs[p].chain != 0 ==> locs[p].index != 0
  }

  lemma CompleteIsFull(cfg: Config, life: Life)
    requires Sane(cfg) && FillsOk(life) && !life.snapshot && Complete(cfg, life)
    ensures Full(Located(cfg, life))
  {
    forall p | 0 <= p < |life.chains| && life.chains[p] != 0 ensures Located(cfg, life)[p].index != 0 {
      assert Real(life.chains, p);
    }
  }

  lemma SameSort(cfg: Config, id: Id, life: Life, writes: map<Id, WriteState>, pending: seq<Sk2Send>,
                 seen: map<nat, nat>)
    requires Sane(cfg) && LifeOk(cfg, id, life, writes, pending, seen) && id in writes
    ensures writes[id].snapshot == life.snapshot
  {
  }

  /** The locations a single server's answer leaves. */
  function Taken(cfg: Config, before: seq<Loc>, from: Server, theirs: seq<Loc>): seq<Loc>
    requires Sane(cfg) && |before| == |theirs|
  {
    seq(|before|, p requires 0 <= p < |before| => FilledLoc(cfg, false, before[p], from, theirs[p]))
  }

  /** A write that is answered in two parts has all its locations after the second, and
      what is reported is the second packet, which has only some. */
  lemma AnsweredInParts()
    ensures var cfg, one, other := Config(1, true), [Loc(1, 5), Loc(2, 0)], [Loc(1, 0), Loc(2, 7)];
      && !Full(Taken(cfg, [Loc(1, 0), Loc(2, 0)], 0, one))
      && Taken(cfg, Taken(cfg, [Loc(1, 0), Loc(2, 0)], 0, one), 0, other) == [Loc(1, 5), Loc(2, 7)]
      && Full([Loc(1, 5), Loc(2, 7)]) && !Full(other)
  {
    var one := Taken(Config(1, true), [Loc(1, 0), Loc(2, 0)], 0, [Loc(1, 5), Loc(2, 0)]);
    assert one[1].index == 0;
    assert [Loc(1, 0), Loc(2, 7)][0].index == 0;
  }

  // ---------------------------------------------------------------------------
  // What a message leads to

  /** The writes of a client: those in two rounds, and those to single servers. */
  datatype Writes = Writes(
    lives: map<Id, Life>,
    sent: map<Id, WriteState>,
    singles: map<Id, seq<Loc>>,
    finished: set<Id>)

  /** A packet of a two-round write. A complete multi-append goes on to the reads with
      all its locations filled in. */
  ghost predicate TwoRoundHandled(cfg: Config, was: Writes, now: Writes, from: Server, m: Message, reports: seq<Report>,
                                  mine: Option<bool>, locs: seq<Loc>)
  {
    var id := m.packet.id;
    && id in was.sent && id in was.lives && Sane(cfg)
    && var heard := Heard(was.lives[id], was.sent[id], from, m.packet);
    && FillsOk(heard) && now.lives == was.lives[id := heard.(reports := heard.reports + reports)]
    && now.singles == was.singles && now.finished == was.finished
    && var done := was.sent[id].Skeens2? && Complete(cfg, heard);
    && reports == (if done then Reports(heard.snapshot, Located(cfg, heard)) else [])
    && mine == (if done && !heard.snapshot then Some(true) else None)
    && (done && !heard.snapshot ==> locs == Located(cfg, heard))
  }

  /** A packet of a write to a single server. */
  ghost predicate SingleHandled(cfg: Config, was: Writes, now: Writes, from: Server, m: Message, reports: seq<Report>,
                                mine: Option<bool>, locs: seq<Loc>)
  {
    var id := m.packet.id;
    && id in was.singles && Sane(cfg) && |was.singles[id]| == |m.packet.locs| && now.lives == was.lives
    && var taken := Taken(cfg, was.singles[id], from, m.packet.locs);
    if Full(taken)
    then reports == [Wrote(m.packet.locs)] && mine == Some(true) && locs == m.packet.locs
      && now.singles == was.singles - {id} && now.finished == was.finished + {id}
    else reports == [] && mine == None && now.singles == was.singles[id := taken] && now.finished == was.finished
  }

  /** A packet of no write of this client is left to the reads. */
  predicate OtherHandled(was: Writes, now: Writes, m: Message, reports: seq<Report>, mine: Option<bool>,
                         locs: seq<Loc>)
  {
    && now == was && reports == [] && locs == m.packet.locs
    && mine == if m.layout == IsOther || (m.layout == IsSnapshot && m.takeLock) then None else Some(false)
  }

  ghost predicate WriteHandled(cfg: Config, was: Writes, now: Writes, from: Server, m: Message, reports: seq<Report>,
                               mine: Option<bool>, locs: seq<Loc>)
  {
    if m.packet.id in was.sent then TwoRoundHandled(cfg, was, now, from, m, reports, mine, locs)
    else if m.packet.id in was.singles then SingleHandled(cfg, was, now, from, m, reports, mine, locs)
    else OtherHandled(was, now, m, reports, mine, locs)
  }

  /** What an entry does for the reads; own says whether the client wants it anyway. */
  predicate ReadHandled(was: map<Loc, nat>, now: map<Loc, nat>, own: bool, m: Message, locs: seq<Loc>,
                        reports: seq<Report>)
  {
    if m.layout == IsSnapshot then reports == Reports(true, locs) && now == was
    else
      var good := Good(locs, m.layout == IsSentinel, |locs|);
      now == Left(was, good) && reports == ReadReports(Wanted(was, good, own), locs)
  }

  /** What a packet does to the timestamps seen before it goes on to the reads: a write
      it decides or completes raises its chains to the final timestamp, a write to a
      single server it finishes raises its chains to the packet's. */
  ghost predicate WriteSeen(cfg: Config, was: Writes, now: Writes, from: Server, m: Message, before: map<nat, nat>,
                            after: map<nat, nat>)
  {
    var id := m.packet.id;
    if id in was.sent then id in now.lives && SeenFrom(cfg, now.lives[id], before, after)
    else if id in was.singles && Sane(cfg) && |was.singles[id]| == |m.packet.locs|
      && Full(Taken(cfg, was.singles[id], from, m.packet.locs))
    then Raised(before, Chains(m.packet.locs), m.lock, after)
    else after == before
  }

  /** The chains whose timestamp a packet raises as an entry that was read. */
  function ReadChains(m: Message, mine: Option<bool>, locs: seq<Loc>): seq<nat> {
    if m.success && mine.Some? && m.layout != IsSnapshot then Chains(Good(locs, false, |locs|)) else []
  }

  /** A read entry raises the timestamps of all its chains to its own. */
  lemma ReadRaises(m: Message, mine: Option<bool>, locs: seq<Loc>, before: map<nat, nat>, after: map<nat, nat>, p: nat)
    requires Raised(before, ReadChains(m, mine, locs), m.lock, after)
    requires m.success && mine.Some? && m.layout != IsSnapshot && p < |locs| && locs[p] != SEPARATOR
    ensures SeenOn(after, locs[p].chain) >= m.lock
  {
    var places := GoodPlaces(locs, false, |locs|);
    assert GoodAt(locs, false, p);
    var i :| 0 <= i < |places| && places[i] == p;
    assert Chains(Good(locs, false, |locs|))[i] == locs[p].chain;
  }

  /** And no others. */
  lemma ReadRaisesOnly(m: Message, mine: Option<bool>, locs: seq<Loc>, before: map<nat, nat>, after: map<nat, nat>,
                       o: nat)
    requires Raised(before, ReadChains(m, mine, locs), m.lock, after)
    requires SeenOn(after, o) != SeenOn(before, o)
    ensures m.success && mine.Some? && m.layout != IsSnapshot && SeenOn(after, o) == m.lock
    ensures exists p :: 0 <= p < |locs| && locs[p] != SEPARATOR && locs[p].chain == o
  {
    var good := Good(locs, false, |locs|);
    var places := GoodPlaces(locs, false, |locs|);
    assert o in ReadChains(m, mine, locs);
    var i :| 0 <= i < |good| && Chains(good)[i] == o;
    assert locs[places[i]].chain == o;
  }

  class StoreFront {
    const two: StoreClient
    const readsMyWrites: bool
    var singles: map<Id, seq<Loc>>
    var sentReads: map<Loc, nat>
    ghost var finished: set<Id>

    /** The writes to single servers are other writes than the two-round ones, and each
        is outstanding or finished. */
    ghost predicate Valid()
      reads this, two
    {
      && two.Valid()
      && singles.Keys !! two.lives.Keys && finished !! two.lives.Keys && finished !! singles.Keys
      && (forall l :: l in sentReads ==> l.index != 0)
    }

    ghost function Writing(): Writes
      reads this, two
    {
      Writes(two.lives, two.sentWrites, singles, finished)
    }

    constructor (servers: nat, unreplicated: bool, readsMyWrites: bool)
      requires servers > 0
      ensures Valid() && fresh(two) && singles == map[] && sentReads == map[] && finished == {}
    {
      two := new StoreClient(servers, unreplicated);
      this.readsMyWrites, singles, sentReads, finished := readsMyWrites, map[], map[], {};
    }

    /** A read of one location; location 0 of a chain is never asked for. */
    method SendRead(l: Loc)
      requires Valid() && l.index != 0
      modifies this`sentReads
      ensures Valid() && sentReads == old(sentReads)[l := Count(old(sentReads), l) + 1]
    {
      sentReads := sentReads[l := Count(sentReads, l) + 1];
    }

    /** An append to one chain carries the largest timestamp seen on it. */
    method SendData(id: Id, l: Loc) returns (server: Server, lock: nat)
      requires Valid() && id !in two.lives && id !in singles && id !in finished
      modifies this`singles
      ensures Valid() && singles == old(singles)[id := [l]]
      ensures Sane(two.cfg) && server == WriteServer(two.cfg, l.chain)
      ensures lock == SeenOn(two.maxTimestampSeen, l.chain)
    {
      hide LifeOk;
      lock := two.SingleTimestamp(l.chain);
      server := WriteServer(two.cfg, l.chain);
      singles := singles[id := [l]];
    }

    /** The SingleServer branch of handle_completed_write: the write is finished when
        no location is missing, and what is reported are the packet's locations. */
    method OnSingleServer(from: Server, m: Message) returns (reports: seq<Report>)
      requires Valid() && m.packet.id in singles && Chains(m.packet.locs) == Chains(singles[m.packet.id])
      modifies this`singles, this`finished, two`maxTimestampSeen, two`outside
      ensures Valid() && Sane(two.cfg) && |old(singles)[m.packet.id]| == |m.packet.locs|
      ensures var id, now := m.packet.id, Taken(two.cfg, old(singles)[m.packet.id], from, m.packet.locs);
        if Full(now)
        then && reports == [Wrote(m.packet.locs)] && singles == old(singles) - {id} && finished == old(finished) + {id}
             && Raised(old(two.maxTimestampSeen), Chains(m.packet.locs), m.lock, two.maxTimestampSeen)
        else && reports == [] && singles == old(singles)[id := now] && finished == old(finished)
             && two.maxTimestampSeen == old(two.maxTimestampSeen)
    {
      hide LifeOk;
      var id, before := m.packet.id, singles[m.packet.id];
      assert |before| == |Chains(before)| == |m.packet.locs|;
      singles := singles - {id};
      var after, all := two.TakeLocs(false, before, from, m.packet.locs);
      assert after == Taken(two.cfg, before, from, m.packet.locs);
      assert all <==> Full(after) by {
        assert forall p :: 0 <= p < |after| ==> (Real(Chains(after), p) <==> after[p].chain != 0);
      }
      if !all {
        singles := singles[id := after];
        return [];
      }
      two.See(m.packet.locs, m.lock);
      finished := finished + {id};
      reports := [Wrote(m.packet.locs)];
    }

    /** A multi-append all of whose chains have one head goes to it in one message. */
    method SendFast(id: Id, locs: seq<Loc>) returns (server: Server, lock: nat)
      requires Valid() && id !in two.lives && id !in singles && id !in finished && |locs| > 0
      modifies this`singles
      ensures Valid() && singles == old(singles)[id := locs]
      ensures Sane(two.cfg) && server == WriteServer(two.cfg, locs[0].chain) && lock == 1
    {
      hide LifeOk;
      server, lock := WriteServer(two.cfg, locs[0].chain), 1;
      singles := singles[id := locs];
    }

    /** handle_completed_read. An entry answers the reads waiting at its locations, and
        raises the timestamps seen on its chains if the read found it; the assertions
        that no location is 0 hold. */
    method HandleCompletedRead(m: Message, locs: seq<Loc>, mine: bool) returns (reports: seq<Report>)
      requires Valid() && (mine && m.layout != IsSnapshot ==> Indexed(locs))
      modifies this`sentReads, two`maxTimestampSeen, two`outside
      ensures Valid()
      ensures ReadHandled(old(sentReads), sentReads, mine && readsMyWrites, m, locs, reports)
      ensures m.layout == IsSnapshot ==>
        |reports| == |locs| && forall p :: 0 <= p < |locs| ==> reports[p] == Report.Read(locs[p], locs)
      ensures m.layout != IsSnapshot ==>
        forall i :: 0 <= i < |reports| ==> reports[i].Read? && reports[i].locs == locs && reports[i].loc in locs
      ensures Raised(old(two.maxTimestampSeen), ReadChains(m, Some(mine), locs), m.lock, two.maxTimestampSeen)
    {
      hide LifeOk, Good, Left, Wanted, Raised, ReadReports, Chains, Fewer, SeenExact, Inv;
      reports := [];
      NoneRead(sentReads, locs, m.layout == IsSentinel, mine && readsMyWrites, two.maxTimestampSeen, m.lock);
      if m.layout == IsSnapshot {
        reports := two.Notify(true, locs);
        return;
      }
      ghost var asked, seen, own := sentReads, two.maxTimestampSeen, mine && readsMyWrites;
      var sentinel, behind := m.layout == IsSentinel, false;
      for i := 0 to |locs|
        invariant Valid() && (behind <==> SEPARATOR in locs[..i])
        invariant sentReads == Left(asked, Good(locs, sentinel, i))
        invariant reports == ReadReports(Wanted(asked, Good(locs, sentinel, i), own), locs)
        invariant forall j :: 0 <= j < |reports| ==>
          reports[j].Read? && reports[j].locs == locs && reports[j].loc in locs
        invariant Raised(seen, if m.success then Chains(Good(locs, false, i)) else [], m.lock, two.maxTimestampSeen)
      {
        GoodStep(locs, sentinel, i, behind);
        GoodStep(locs, false, i, behind);
        if locs[i] == SEPARATOR {
          behind := true;
        } else {
          assert mine ==> locs[i].index != 0;
          if m.success {
            ghost var mid := two.maxTimestampSeen;
            two.See([locs[i]], m.lock);
            RaisedMore(seen, Good(locs, false, i), m.lock, mid, locs[i], two.maxTimestampSeen);
          }
          if !sentinel || behind {
            Step(asked, Good(locs, sentinel, i), locs[i], own);
            var needed := TakeRead(locs[i]);
            if needed || (mine && readsMyWrites) {
              assert locs[i].index != 0;
              ReportsMore(Wanted(asked, Good(locs, sentinel, i), own), locs[i], locs);
              reports := reports + [Report.Read(locs[i], locs)];
            }
          }
        }
      }
    }

    static lemma NoneRead(asked: map<Loc, nat>, locs: seq<Loc>, sentinel: bool, own: bool, seen: map<nat, nat>, m: nat)
      ensures Good(locs, sentinel, 0) == [] == Good(locs, false, 0) && Left(asked, []) == asked
      ensures ReadReports(Wanted(asked, [], own), locs) == [] && Raised(seen, [], m, seen)
      ensures Raised(seen, Chains([]), m, seen)
    {
    }

    /** One of the reads waiting at this location is answered, if there is one. */
    method TakeRead(l: Loc) returns (needed: bool)
      requires forall k :: k in sentReads ==> k.index != 0
      modifies this`sentReads
      ensures needed <==> Count(old(sentReads), l) > 0
      ensures sentReads == Fewer(old(sentReads), l) && (needed ==> l.index != 0)
      ensures forall k :: k in sentReads ==> k.index != 0
    {
      needed := false;
      if l in sentReads {
        if sentReads[l] > 0 {
          sentReads := sentReads[l := sentReads[l] - 1];
          needed := true;
        }
        if sentReads[l] == 0 {
          sentReads := sentReads - {l};
        }
      } else {
        assert sentReads - {l} == sentReads;
      }
    }

    // -------------------------------------------------------------------------
    // The dispatch

    /** What a server promises about a packet for a write that waits for it. */
    ghost predicate Expected(from: Server, m: Message)
      requires Valid()
      reads this, two
      ensures Expected(from, m) ==>
        Sane(two.cfg) && (m.packet.id in singles ==> |singles[m.packet.id]| == |m.packet.locs|)
    {
      && (m.packet.id in singles ==> |Chains(singles[m.packet.id])| == |Chains(m.packet.locs)|)
      && (m.packet.id in two.sentWrites ==> PacketOk(two.cfg, two.sentWrites[m.packet.id], from, m.packet))
      && (m.packet.id in singles ==> Chains(m.packet.locs) == Chains(singles[m.packet.id]))
    }

    /** handle_completed_write, over all kinds of writes there are. */
    method HandleCompletedWrite(from: Server, m: Message)
      returns (reports: seq<Report>, mine: Option<bool>, locs: seq<Loc>)
      requires Valid() && Expected(from, m)
      modifies this`singles, this`finished, two
      ensures Valid() && (mine == Some(true) ==> Full(locs) || m.packet.id in old(singles))
      ensures WriteHandled(two.cfg, old(Writing()), Writing(), from, m, reports, mine, locs)
      ensures WriteSeen(two.cfg, old(Writing()), Writing(), from, m, old(two.maxTimestampSeen), two.maxTimestampSeen)
    {
      hide LifeOk, SeenFrom, Complete, Located, FillsOk, PacketOk, Taken, Full;
      var id := m.packet.id;
      reports, mine, locs := [], None, m.packet.locs;
      if id in two.sentWrites {
        WriteIsLive(two.cfg, id, two.sentWrites, two.pendingSkeens2, two.maxTimestampSeen, two.lives);
        if two.sentWrites[id].Skeens1? {
          two.OnRoundOne(from, m.packet);
          assert two.lives[id].reports + reports == two.lives[id].reports;
        } else {
          var snapshot := two.sentWrites[id].snapshot;
          SameSort(two.cfg, id, two.lives[id], two.sentWrites, two.pendingSkeens2, two.maxTimestampSeen);
          ghost var heard := Heard(two.lives[id], two.sentWrites[id], from, m.packet);
          reports := two.OnRoundTwo(from, m.packet);
          if reports != [] && !snapshot {
            CompleteIsFull(two.cfg, heard);
            mine, locs := Some(true), reports[0].locs;
          }
        }
      } else if id in singles {
        reports := OnSingleServer(from, m);
        mine := if reports != [] then Some(true) else None;
      } else {
        mine := if m.layout == IsOther || (m.layout == IsSnapshot && m.takeLock) then None else Some(false);
      }
    }

    /** handle_message and handle_completion: the write first, then the reads. The code
        aborts on other packets that report no success, and on a finished write to a
        single server whose packet lacks a location. */
    method HandleMessage(from: Server, m: Message)
      returns (wrote: seq<Report>, mine: Option<bool>, locs: seq<Loc>, read: seq<Report>)
      requires Valid() && Expected(from, m) && (m.success || (m.layout == IsRead && !m.takeLock))
      requires m.success && m.packet.id in singles ==>
        Full(Taken(two.cfg, singles[m.packet.id], from, m.packet.locs)) ==> Full(m.packet.locs)
      modifies this`singles, this`finished, this`sentReads, two
      ensures Valid()
      ensures m.success && m.unlock && !m.newMulti ==>
        wrote == read == [] && mine == None && unchanged(this) && unchanged(two)
      ensures !m.success ==> mine == Some(false) && OtherHandled(old(Writing()), Writing(), m, wrote, mine, locs)
      ensures m.success && (!m.unlock || m.newMulti) ==>
        WriteHandled(two.cfg, old(Writing()), Writing(), from, m, wrote, mine, locs)
      ensures if mine.None? then read == [] && sentReads == old(sentReads)
              else ReadHandled(old(sentReads), sentReads, mine.value && readsMyWrites, m, locs, read)
      ensures exists mid ::
        && (if m.success && (!m.unlock || m.newMulti)
            then WriteSeen(two.cfg, old(Writing()), Writing(), from, m, old(two.maxTimestampSeen), mid)
            else mid == old(two.maxTimestampSeen))
        && Raised(mid, ReadChains(m, mine, locs), m.lock, two.maxTimestampSeen)
      ensures m.success && mine.Some? && m.layout != IsSnapshot ==>
        forall p :: 0 <= p < |locs| && locs[p] != SEPARATOR ==> SeenOn(two.maxTimestampSeen, locs[p].chain) >= m.lock
    {
      hide LifeOk, PacketOk, Complete, Located, FillsOk, Taken, Good, Left, Wanted, Raised, ReadReports, ReadChains,
        WriteSeen, SeenExact;
      wrote, mine, locs, read := [], None, m.packet.locs, [];
      if !m.success {
        mine := Some(false);
      } else if !m.unlock || m.newMulti {
        wrote, mine, locs := HandleCompletedWrite(from, m);
      }
      ghost var mid := two.maxTimestampSeen;
      if mine.Some? {
        read := HandleCompletedRead(m, locs, mine.value);
        SameChains(m, mine, locs);
      } else {
        NoneRaised(m, locs, mid);
      }
      assert Raised(mid, ReadChains(m, mine, locs), m.lock, two.maxTimestampSeen);
      if m.success && mine.Some? && m.layout != IsSnapshot {
        forall p | 0 <= p < |locs| && locs[p] != SEPARATOR
          ensures SeenOn(two.maxTimestampSeen, locs[p].chain) >= m.lock
        {
          ReadRaises(m, mine, locs, mid, two.maxTimestampSeen, p);
        }
      }
    }

    static lemma SameChains(m: Message, mine: Option<bool>, locs: seq<Loc>)
      requires mine.Some?
      ensures ReadChains(m, mine, locs) == ReadChains(m, Some(mine.value), locs)
    {
    }

    static lemma NoneRaised(m: Message, locs: seq<Loc>, seen: map<nat, nat>)
      ensures Raised(seen, ReadChains(m, None, locs), m.lock, seen)
    {
    }
  }
}
