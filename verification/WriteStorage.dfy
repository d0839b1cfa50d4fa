/** The storage a server shares between the chains of one write
    (SkeensMultiStorage in fuzzy_log_server/src/lib.rs): every chain that queues the
    write holds a reference. When a chain delivers the write, a worker fills in the
    location and drops that reference, and whoever drops the last one sends the
    answer to the client (fuzzy_log_server/src/worker_thread.rs). */
module WriteStorages {
  import opened Options
  import opened StoreClients

  /** The locations after these chains have delivered the write. */
  function WithIndices(locs: seq<Loc>, told: map<nat, nat>): (r: seq<Loc>)
    ensures |r| == |locs| && Chains(r) == Chains(locs)
  {
    seq(|locs|, p requires 0 <= p < |locs| =>
      if locs[p].chain in told then Loc(locs[p].chain, told[locs[p].chain]) else locs[p])
  }

  /** The packet names each chain of this server, once. */
  ghost predicate NamesOnce(locs: seq<Loc>, mine: set<nat>) {
    && (forall c :: c in mine ==> c in Chains(locs))
    && (forall p, q :: 0 <= p < q < |locs| && locs[p].chain in mine ==> locs[p].chain != locs[q].chain)
  }

  class WriteStorage {
    var locs: seq<Loc>
    var holders: nat
    ghost const packet: seq<Loc>
    ghost const mine: set<nat>
    ghost var told: map<nat, nat>

    ghost predicate Valid()
      reads this
    {
      && NamesOnce(packet, mine) && told.Keys <= mine
      && locs == WithIndices(packet, told) && holders == |mine - told.Keys|
    }

    /** One reference per chain that took round one. */
    constructor (locs: seq<Loc>, chains: set<nat>)
      requires NamesOnce(locs, chains)
      ensures Valid() && packet == locs && mine == chains && told == map[]
    {
      this.locs, holders := locs, |chains|;
      packet, mine, told := locs, chains, map[];
      new;
      assert mine - told.Keys == mine;
    }

    /** The position of a chain in the packet. */
    method Position(chain: nat) returns (p: nat)
      requires chain in Chains(locs)
      ensures p < |locs| && locs[p].chain == chain
    {
      p := 0;
      while locs[p].chain != chain
        invariant p < |locs| && forall q :: 0 <= q < p ==> locs[q].chain != chain
        decreases |locs| - p
      {
        assert exists q :: 0 <= q < |locs| && Chains(locs)[q] == chain;
        p := p + 1;
      }
    }

    /** SkeensFinished and SnapSkeensFinished: the answer goes out with the last chain,
        and then has the index of every one of them. */
    method Finished(chain: nat, index: nat) returns (answer: Option<seq<Loc>>)
      requires Valid() && chain in mine && chain !in told
      modifies this`locs, this`holders, this`told
      ensures Valid() && told == old(told)[chain := index]
      ensures answer == if told.Keys == mine then Some(WithIndices(packet, told)) else None
    {
      hide WithIndices, NamesOnce, Chains;
      IsNamed(packet, mine, chain);
      var p := Position(chain);
      FilledMore(packet, mine, told, chain, index, p);
      OneLess(mine, told, chain, index);
      locs := locs[p := Loc(chain, index)];
      holders := holders - 1;
      told := told[chain := index];
      answer := if holders == 0 then Some(locs) else None;
    }

    static lemma IsNamed(packet: seq<Loc>, mine: set<nat>, chain: nat)
      requires NamesOnce(packet, mine) && chain in mine
      ensures chain in Chains(packet)
    {
    }

    static lemma OneLess(mine: set<nat>, told: map<nat, nat>, chain: nat, index: nat)
      requires told.Keys <= mine && chain in mine && chain !in told
      ensures var done := told[chain := index].Keys;
        && |mine - told.Keys| > 0 && |mine - done| == |mine - told.Keys| - 1
        && done <= mine && (|mine - done| == 0 <==> done == mine)
    {
      assert told[chain := index].Keys == told.Keys + {chain};
      OneOut(mine - told.Keys, chain);
      OneOutOf(mine, told.Keys, chain);
    }

    static lemma OneOut(rest: set<nat>, chain: nat)
      requires chain in rest
      ensures |rest| > 0 && |rest - {chain}| == |rest| - 1
    {
    }

    static lemma OneOutOf(mine: set<nat>, done: set<nat>, chain: nat)
      requires done <= mine
      ensures mine - (done + {chain}) == mine - done - {chain}
      ensures |mine - done - {chain}| == 0 <==> mine <= done + {chain}
    {
      assert |mine - done - {chain}| == 0 <==> mine - done - {chain} == {};
    }

    static lemma FilledMore(packet: seq<Loc>, mine: set<nat>, told: map<nat, nat>, chain: nat, index: nat, p: nat)
      requires NamesOnce(packet, mine) && chain in mine
      requires p < |WithIndices(packet, told)| && WithIndices(packet, told)[p].chain == chain
      ensures WithIndices(packet, told[chain := index]) == WithIndices(packet, told)[p := Loc(chain, index)]
    {
    }
  }
}
