/** The replica of Replica.dfy, updated in place, and the table of recovering
    clients a chain keeps beside it (fuzzy_log_server/src/skeens.rs). */
module ReplicaChains {
  import opened SkeensOrder
  import opened VecDequeMaps
  import opened Options
  import S = SkeensChain
  import R = Replica

  class ReplicaChain {
    var nextTimestamp: Time
    const queue: VecDequeMap<Waiting>
    var status: map<Id, S.Status>
    ghost var emitted: seq<R.Emit>

    ghost predicate Valid()
      reads this, queue
    {
      queue.Valid() && queue.min == queue.start
    }

    ghost function Abs(): R.State
      reads this, queue
    {
      R.State(nextTimestamp, queue.start, queue.next, queue.data, status, emitted)
    }

    constructor ()
      ensures Valid() && Abs() == R.INIT && fresh(queue)
    {
      queue := new VecDequeMap<Waiting>();
      nextTimestamp, status, emitted := 1, map[], [];
    }

    /** replicate_single_append_round1, replicate_multi_append_round1 and
        replicate_snapshot_round1. */
    method Round1(origin: Origin, ts: Time, node: QueueIndex, id: Id) returns (isNew: bool)
      requires Valid() && queue.start <= node && (id !in status ==> node !in queue.data)
      modifies this, queue
      ensures Valid() && Abs() == R.Round1(old(Abs()), origin, ts, node, id)
      ensures isNew == (id !in old(status))
    {
      nextTimestamp := R.BumpTs(nextTimestamp, ts);
      if id in status {
        return false;
      }
      var w := S.Entry(origin, ts, node, id);
      status := status[id := S.StatusOf(w)];
      var was := queue.Insert(node, w);
      return true;
    }

    /** replicate_round2; returns what became ready, in queue order. */
    method Round2(id: Id, maxTs: Time, index: nat) returns (ready: seq<R.Emit>)
      requires Valid()
      requires id in status && !status[id].Phase2? ==>
        status[id].node in queue.data && R.Accepts(queue.data[status[id].node], maxTs)
      modifies this, queue
      ensures Valid() && Abs() == R.Round2(old(Abs()), id, maxTs, index)
      ensures emitted == old(emitted) + ready
    {
      ready := [];
      if id !in status || status[id].Phase2? {
        return;
      }
      var offset := status[id].node;
      nextTimestamp := R.BumpTs(nextTimestamp, maxTs);
      queue.Update(offset, R.ToReplicated(queue.data[offset], maxTs, index));
      if offset != queue.start {
        return;
      }
      ready := Drain();
    }

    method Drain() returns (ready: seq<R.Emit>)
      requires Valid()
      modifies this, queue
      ensures Valid() && Abs() == R.Drain(old(Abs()))
      ensures emitted == old(emitted) + ready
    {
      ready := [];
      while queue.Front().Some? && queue.Front().value.Replicated?
        invariant Valid()
        invariant R.Drain(Abs()) == R.Drain(old(Abs()))
        invariant emitted == old(emitted) + ready
        decreases queue.next - queue.start
      {
        var w := queue.Front().value;
        var popped := queue.PopFront();
        var e := R.Emit(w.origin, w.id, w.maxTs, w.index);
        status := status - {w.id};
        ready := ready + [e];
        emitted := emitted + [e];
      }
    }
  }

  // ---------------------------------------------------------------------------
  // Recovery ownership

  /** Client `who` is recovering a write. */
  datatype Holder = Holder(turn: nat, who: Id)

  datatype TasRes = Won(turn: nat) | Lost(holder: Option<Id>)

  /** The claims one write has seen: who asked, and whom they thought they replaced. */
  datatype Claim = Claim(who: Id, prior: Option<Id>)

  function TasNext(h: Option<Holder>, c: Claim): (Option<Holder>, TasRes) {
    match (h, c.prior)
    case (None, Some(_)) => (None, Lost(None))
    case (None, None) => (Some(Holder(1, c.who)), Won(1))
    case (Some(o), _) =>
      if c.prior == Some(o.who) then (Some(Holder(o.turn + 1, c.who)), Won(o.turn + 1))
      else (h, Lost(Some(o.who)))
  }

  /** The record a replica is sent for a won claim. */
  function ReplicaNext(h: Option<Holder>, r: Holder): Option<Holder> {
    if h.None? || h.value.turn < r.turn then Some(r) else h
  }

  function NameOf(h: Option<Holder>): Option<Id> {
    if h.None? then None else Some(h.value.who)
  }

  function TurnOf(h: Option<Holder>): nat {
    if h.None? then 0 else h.value.turn
  }

  /** A claim wins exactly when it names the holder there is, or none if there is none.
      The winner then holds the write, one turn on; a loser changes nothing and is told
      who holds it. */
  lemma WinsByName(h: Option<Holder>, c: Claim)
    ensures var (now, res) := TasNext(h, c);
      && (res.Won? <==> c.prior == NameOf(h))
      && (res.Won? ==> res.turn == TurnOf(h) + 1 && now == Some(Holder(res.turn, c.who)))
      && (res.Lost? ==> now == h && res.holder == NameOf(h))
  {
  }

  class Recoveries {
    var recovering: map<Id, Holder>

    constructor ()
      ensures recovering == map[]
    {
      recovering := map[];
    }

    function Of(write: Id): Option<Holder>
      reads this
    {
      if write in recovering then Some(recovering[write]) else None
    }

    method TasRecoverer(write: Id, c: Claim) returns (res: TasRes)
      modifies this
      ensures (Of(write), res) == TasNext(old(Of(write)), c)
      ensures res.Won? <==> c.prior == NameOf(old(Of(write)))
      ensures forall w :: w != write ==> Of(w) == old(Of(w))
    {
      if write !in recovering {
        if c.prior.Some? {
          return Lost(None);
        }
        recovering := recovering[write := Holder(1, c.who)];
        return Won(1);
      }
      var o := recovering[write];
      if c.prior == Some(o.who) {
        recovering := recovering[write := Holder(o.turn + 1, c.who)];
        return Won(o.turn + 1);
      }
      return Lost(Some(o.who));
    }

    /** A record that is not newer is refused with the holder there is. */
    method ReplicateRecoverer(write: Id, r: Holder) returns (refused: Option<Id>)
      modifies this
      ensures Of(write) == ReplicaNext(old(Of(write)), r)
      ensures old(Of(write)).Some? && r.turn <= old(Of(write)).value.turn ==>
        Of(write) == old(Of(write)) && refused == NameOf(old(Of(write)))
      ensures old(Of(write)).None? || old(Of(write)).value.turn < r.turn ==> Of(write) == Some(r) && refused == None
      ensures forall w :: w != write ==> Of(w) == old(Of(w))
    {
      if write !in recovering || recovering[write].turn < r.turn {
        recovering := recovering[write := r];
        return None;
      }
      return Some(recovering[write].who);
    }
  }

  /** A claim that succeeded, and the turn it got. */
  datatype Takeover = Takeover(turn: nat, claim: Claim)

  /** The holder after a sequence of claims, and the takeovers in order. */
  function Claims(cs: seq<Claim>): (Option<Holder>, seq<Takeover>) {
    if cs == [] then (None, [])
    else
      var (h, won) := Claims(cs[..|cs| - 1]);
      var c := cs[|cs| - 1];
      var (h', res) := TasNext(h, c);
      (h', if res.Won? then won + [Takeover(res.turn, c)] else won)
  }

  function Record(t: Takeover): Holder {
    Holder(t.turn, t.claim.who)
  }

  /** The holder a takeover replaced. */
  function PriorOf(won: seq<Takeover>, k: nat): Option<Id>
    requires k <= |won|
  {
    if k == 0 then None else Some(won[k - 1].claim.who)
  }

  /** Numbered 1, 2, 3, ..., each naming the holder before it. */
  ghost predicate Numbered(won: seq<Takeover>) {
    forall k :: 0 <= k < |won| ==> won[k].turn == k + 1 && won[k].claim.prior == PriorOf(won, k)
  }

  lemma NumberedExtends(won: seq<Takeover>, t: Takeover)
    requires Numbered(won) && t.turn == |won| + 1 && t.claim.prior == PriorOf(won, |won|)
    ensures Numbered(won + [t])
  {
    var now := won + [t];
    forall k | 0 <= k < |now| ensures now[k].turn == k + 1 && now[k].claim.prior == PriorOf(now, k) {
      assert k > 0 ==> now[k - 1] == won[k - 1];
      assert now[k] == if k < |won| then won[k] else t;
    }
  }

  /** The last takeover holds the write. */
  function HolderOf(won: seq<Takeover>): Option<Holder> {
    if won == [] then None else Some(Record(won[|won| - 1]))
  }

  /** Takeovers of a write are numbered 1, 2, 3, ..., each naming the holder
      before it, and the last one holds the write. */
  lemma {:induction false} TakeoversChain(cs: seq<Claim>)
    ensures Claims(cs).0 == HolderOf(Claims(cs).1) && Numbered(Claims(cs).1)
    decreases |cs|
  {
    if cs != [] {
      TakeoversChain(cs[..|cs| - 1]);
      var (h, won) := Claims(cs[..|cs| - 1]);
      var c := cs[|cs| - 1];
      var (h', res) := TasNext(h, c);
      if res.Won? {
        NumberedExtends(won, Takeover(res.turn, c));
      }
    }
  }

  /** Claim i named the holder of its time. */
  predicate NamesHolder(cs: seq<Claim>, i: nat) {
    i < |cs| && cs[i].prior == NameOf(Claims(cs[..i]).0)
  }

  /** The last claim takes over just when it names the holder. */
  lemma LastClaim(cs: seq<Claim>)
    requires cs != []
    ensures var (last, won) := (|cs| - 1, Claims(cs[..|cs| - 1]).1);
      if NamesHolder(cs, last) then
        |Claims(cs).1| == |won| + 1 && Claims(cs).1[..|won|] == won && Claims(cs).1[|won|].claim == cs[last]
      else Claims(cs).1 == won
  {
    WinsByName(Claims(cs[..|cs| - 1]).0, cs[|cs| - 1]);
  }

  /** These places of the claims are the takeovers', in order. */
  ghost predicate TookOver(cs: seq<Claim>, won: seq<Takeover>, places: seq<nat>) {
    && |places| == |won|
    && (forall k :: 0 <= k < |places| ==> places[k] < |cs| && won[k].claim == cs[places[k]])
    && (forall j, k :: 0 <= j < k < |places| ==> places[j] < places[k])
  }

  lemma TookOverMore(cs: seq<Claim>, won: seq<Takeover>, places: seq<nat>, more: seq<Takeover>)
    requires cs != [] && TookOver(cs[..|cs| - 1], won, places)
    requires |more| == |won| + 1 && more[..|won|] == won && more[|won|].claim == cs[|cs| - 1]
    ensures TookOver(cs, more, places + [|cs| - 1])
  {
    forall k | 0 <= k < |won| ensures more[k].claim == cs[places[k]] {
      assert more[k] == more[..|won|][k];
    }
  }

  lemma NamesSame(cs: seq<Claim>, n: nat, i: nat)
    requires i < n <= |cs|
    ensures NamesHolder(cs, i) <==> NamesHolder(cs[..n], i)
  {
    assert cs[..n][..i] == cs[..i];
  }

  /** The takeovers are exactly the claims that named the holder of their time, in the
      order they were made. */
  lemma {:induction false} TakeoversExactly(cs: seq<Claim>) returns (places: seq<nat>)
    ensures TookOver(cs, Claims(cs).1, places)
    ensures forall i: nat :: i in places <==> NamesHolder(cs, i)
    decreases |cs|
  {
    places := [];
    if cs != [] {
      var last := |cs| - 1;
      places := TakeoversExactly(cs[..last]);
      LastClaim(cs);
      forall i: nat | i < last ensures NamesHolder(cs, i) <==> NamesHolder(cs[..last], i) {
        NamesSame(cs, last, i);
      }
      if NamesHolder(cs, last) {
        TookOverMore(cs, Claims(cs[..last]).1, places, Claims(cs).1);
        places := places + [last];
      }
    }
  }

  /** A replica that has applied these records. */
  function Applied(rs: seq<Holder>): Option<Holder> {
    if rs == [] then None else ReplicaNext(Applied(rs[..|rs| - 1]), rs[|rs| - 1])
  }

  lemma {:induction false} AppliedIsLatest(rs: seq<Holder>)
    ensures rs == [] <==> Applied(rs) == None
    ensures rs != [] ==> Applied(rs).value in rs && forall r :: r in rs ==> r.turn <= Applied(rs).value.turn
    decreases |rs|
  {
    if rs != [] {
      var init, r := rs[..|rs| - 1], rs[|rs| - 1];
      AppliedIsLatest(init);
      assert rs == init + [r];
    }
  }

  /** A replica that has received the records of all takeovers, in any order and
      with any duplicates, agrees with its head on the holder. */
  lemma ReplicaHolder(cs: seq<Claim>, rs: seq<Holder>)
    requires forall r :: r in rs <==> exists t :: t in Claims(cs).1 && Record(t) == r
    ensures Applied(rs) == Claims(cs).0
  {
    TakeoversChain(cs);
    AppliedIsLatest(rs);
    var won := Claims(cs).1;
    assert rs != [] ==> rs[0] in rs;
    if won != [] {
      var last := won[|won| - 1];
      assert last in won && Record(last) in rs;
      var t :| t in won && Record(t) == Applied(rs).value;
    }
  }
}
