/** The replicator copies entries read from a remote log into a local one
    (fuzzy_log_client/src/replicator.rs). An entry whose dependencies are not all
    written locally waits in one queue per missing dependency; it goes out when
    the last queue lets go of it. Shared ownership of a waiting entry is modelled
    by an explicit reference count, and each clone of its handle is named by the
    dependency it was pushed for. */
module Replicators {

  type Node = nat

  datatype Dep = Dep(chain: nat, index: nat)

  datatype Handle = Handle(node: Node, dep: nat)

  /** An entry received: its dependencies, and those it was made to wait for. */
  datatype Entry = Entry(deps: seq<Dep>, waits: set<Dep>)

  /** What the logs tell the replicator. A read is an entry to copy, a slot nobody has
      used, or nothing, which ends a snapshot. */
  datatype Response = Failed | Wrote(locs: seq<Dep>) | Ended | Unused(chain: nat) | Copy(node: Node, deps: seq<Dep>)

  /** What the replicator tells the remote log: fetch a chain up to a new snapshot, or
      take a read buffer back. */
  datatype ToRemote = Fetch(chain: nat) | ReturnBuffer

  /** How often the remote log was told so. */
  function Fetches(msgs: seq<ToRemote>): nat {
    if msgs == [] then 0 else Fetches(msgs[..|msgs| - 1]) + if msgs[|msgs| - 1].Fetch? then 1 else 0
  }

  lemma FetchesMore(msgs: seq<ToRemote>, m: ToRemote)
    ensures Fetches(msgs + [m]) == Fetches(msgs) + if m.Fetch? then 1 else 0
  {
    assert (msgs + [m])[..|msgs|] == msgs;
  }

  /** Something at or above the dependency's index was acknowledged on its chain. */
  predicate Covered(horizon: map<nat, nat>, d: Dep) {
    d.chain in horizon && horizon[d.chain] >= d.index
  }

  /** The positions of the dependencies an entry still waits for. */
  ghost function Wanted(e: Entry, acked: set<Dep>): set<nat> {
    set j | 0 <= j < |e.deps| && e.deps[j] in e.waits && e.deps[j] !in acked
  }

  /** The live handles of entry n: one per position it waits for, and those in a
      queue that is being emptied. */
  ghost function Live(e: Entry, n: Node, acked: set<Dep>, rest: seq<Handle>): set<nat> {
    set j | 0 <= j < |e.deps| && ((e.deps[j] in e.waits && e.deps[j] !in acked) || Handle(n, j) in rest)
  }

  // ---------------------------------------------------------------------------
  // What every step keeps

  /** The horizon of a chain is the largest index acknowledged on it. */
  ghost predicate HorizonInv(horizon: map<nat, nat>, acked: set<Dep>) {
    && (forall d :: d in acked ==> Covered(horizon, d))
    && (forall o :: o in horizon ==> Dep(o, horizon[o]) in acked)
  }

  /** An entry waits only for dependencies that were missing when it came; the
      others were and stay covered. */
  ghost predicate EntriesInv(entries: map<Node, Entry>, horizon: map<nat, nat>) {
    forall n, j :: n in entries && 0 <= j < |entries[n].deps| && entries[n].deps[j] !in entries[n].waits ==>
      Covered(horizon, entries[n].deps[j])
  }

  /** The reference count is the number of live handles, and an entry without one
      has gone out. */
  ghost predicate NodeOk(e: Entry, n: Node, refs: map<Node, nat>, forwarded: seq<Node>, acked: set<Dep>,
                         rest: seq<Handle>)
  {
    var live := Live(e, n, acked, rest);
    if n in refs then refs[n] == |live| && live != {} && n !in forwarded
    else n in forwarded && live == {}
  }

  ghost predicate CountInv(entries: map<Node, Entry>, refs: map<Node, nat>, forwarded: seq<Node>, acked: set<Dep>,
                           rest: seq<Handle>)
  {
    && (forall n :: n in refs ==> n in entries)
    && (forall n :: n in entries ==> NodeOk(entries[n], n, refs, forwarded, acked, rest))
    && (forall i :: 0 <= i < |forwarded| ==> forwarded[i] in entries)
    && (forall i, j :: 0 <= i < j < |forwarded| ==> forwarded[i] != forwarded[j])
  }

  ghost predicate Distinct(queue: seq<Handle>) {
    forall i, j :: 0 <= i < j < |queue| ==> queue[i] != queue[j]
  }

  /** h is a handle pushed for dependency k that its entry still waits for. */
  ghost predicate Waiting(entries: map<Node, Entry>, acked: set<Dep>, h: Handle, k: Dep) {
    h.node in entries && h.dep in Wanted(entries[h.node], acked) && entries[h.node].deps[h.dep] == k
  }

  /** The queue of k holds exactly the handles waiting for k. */
  ghost predicate QueueOk(entries: map<Node, Entry>, acked: set<Dep>, k: Dep, queue: seq<Handle>) {
    Distinct(queue) && queue != [] && forall h :: h in queue <==> Waiting(entries, acked, h, k)
  }

  ghost predicate BlockedInv(entries: map<Node, Entry>, acked: set<Dep>, blocked: map<Dep, seq<Handle>>) {
    && (forall k :: k in blocked ==> QueueOk(entries, acked, k, blocked[k]))
    && (forall h, k :: Waiting(entries, acked, h, k) ==> k in blocked)
  }

  /** When an entry came. */
  ghost function TurnOf(turn: map<Node, nat>, n: Node): nat {
    if n in turn then turn[n] else 0
  }

  /** Each entry has a turn of its own. */
  ghost predicate Turns(entries: map<Node, Entry>, turn: map<Node, nat>) {
    && turn.Keys == entries.Keys
    && (forall n :: n in turn ==> turn[n] < |turn|)
    && (forall m, n :: m in turn && n in turn && turn[m] == turn[n] ==> m == n)
  }

  ghost predicate InTurn(turn: map<Node, nat>, queue: seq<Handle>) {
    forall i, j :: 0 <= i < j < |queue| ==> TurnOf(turn, queue[i].node) <= TurnOf(turn, queue[j].node)
  }

  ghost predicate QueuesInTurn(turn: map<Node, nat>, blocked: map<Dep, seq<Handle>>) {
    forall k :: k in blocked ==> InTurn(turn, blocked[k])
  }

  /** The entries sent from a place on, in the order they came. */
  ghost predicate SentInTurn(turn: map<Node, nat>, sent: seq<Node>, from: nat) {
    forall i, j :: from <= i < j < |sent| ==> TurnOf(turn, sent[i]) < TurnOf(turn, sent[j])
  }

  /** Exactly the entries with nothing left to wait for were sent. */
  ghost predicate Released(entries: map<Node, Entry>, acked: set<Dep>, sent: seq<Node>) {
    forall n :: n in entries ==>
      (n in sent <==> forall d :: d in entries[n].deps && d in entries[n].waits ==> d in acked)
  }

  ghost function AckedWith(acked: set<Dep>, locs: seq<Dep>, i: nat): set<Dep>
    requires i <= |locs|
  {
    acked + set d | d in locs[..i]
  }

  /** One batch per location acknowledged, the places where they end: after each
      exactly the entries are out that have nothing left to wait for, and those of
      one batch in the order they came. */
  ghost predicate Batches(entries: map<Node, Entry>, turn: map<Node, nat>, acked: set<Dep>, locs: seq<Dep>,
                          sent: seq<Node>, ends: seq<nat>)
  {
    && |ends| <= |locs| + 1
    && (forall i :: 0 <= i < |ends| ==>
          ends[i] <= |sent| && Released(entries, AckedWith(acked, locs, i), sent[..ends[i]]))
    && (forall i :: 0 < i < |ends| ==> ends[i - 1] <= ends[i] && SentInTurn(turn, sent[..ends[i]], ends[i - 1]))
  }

  /** Acknowledging the locations one after the other takes what was sent to this. */
  ghost predicate SentBatches(entries: map<Node, Entry>, turn: map<Node, nat>, acked: set<Dep>, locs: seq<Dep>,
                              before: seq<Node>, after: seq<Node>)
  {
    before <= after && exists ends ::
      && Batches(entries, turn, acked, locs, after, ends)
      && |ends| == |locs| + 1 && ends[0] == |before| && ends[|locs|] == |after|
  }

  ghost predicate Inv(entries: map<Node, Entry>, acked: set<Dep>, horizon: map<nat, nat>, refs: map<Node, nat>,
                      forwarded: seq<Node>, blocked: map<Dep, seq<Handle>>)
  {
    && HorizonInv(horizon, acked)
    && EntriesInv(entries, horizon)
    && CountInv(entries, refs, forwarded, acked, [])
    && BlockedInv(entries, acked, blocked)
  }

  // ---------------------------------------------------------------------------
  // What holds at all times

  /** An entry is forwarded at most once, and only when each of its dependencies
      is covered. */
  lemma ForwardedOnceCovered(entries: map<Node, Entry>, acked: set<Dep>, horizon: map<nat, nat>, refs: map<Node, nat>,
                             forwarded: seq<Node>, blocked: map<Dep, seq<Handle>>, n: Node)
    requires Inv(entries, acked, horizon, refs, forwarded, blocked) && n in forwarded
    ensures n in entries && forall d :: d in entries[n].deps ==> Covered(horizon, d)
    ensures multiset(forwarded)[n] == 1
  {
    var i :| 0 <= i < |forwarded| && forwarded[i] == n;
    forall d | d in entries[n].deps ensures Covered(horizon, d) {
      var j :| 0 <= j < |entries[n].deps| && entries[n].deps[j] == d;
      assert j !in Live(entries[n], n, acked, []);
    }
    OnceInSequence(forwarded, i);
  }

  lemma {:induction false} OnceInSequence(s: seq<Node>, i: nat)
    requires i < |s| && forall i, j :: 0 <= i < j < |s| ==> s[i] != s[j]
    ensures multiset(s)[s[i]] == 1
  {
    assert s == s[..i] + [s[i]] + s[i + 1..];
    assert multiset(s) == multiset(s[..i]) + multiset{s[i]} + multiset(s[i + 1..]);
    assert s[i] !in s[..i] && s[i] !in s[i + 1..];
  }

  /** An entry is held back exactly while a dependency that was missing when it
      came has not itself been acknowledged. */
  lemma HeldExactly(entries: map<Node, Entry>, acked: set<Dep>, horizon: map<nat, nat>, refs: map<Node, nat>,
                    forwarded: seq<Node>, blocked: map<Dep, seq<Handle>>, n: Node)
    requires Inv(entries, acked, horizon, refs, forwarded, blocked) && n in entries
    ensures n !in forwarded <==> exists d :: d in entries[n].deps && d in entries[n].waits && d !in acked
    ensures n !in forwarded <==> n in refs
  {
    assert NodeOk(entries[n], n, refs, forwarded, acked, []);
    if n in refs {
      var j :| j in Live(entries[n], n, acked, []);
      assert entries[n].deps[j] in entries[n].deps;
    } else {
      forall d | d in entries[n].deps ensures d !in entries[n].waits || d in acked {
        var j :| 0 <= j < |entries[n].deps| && entries[n].deps[j] == d;
        assert j !in Live(entries[n], n, acked, []);
      }
    }
  }

  /** Once every dependency is acknowledged nothing is blocked. */
  lemma NothingStaysBlocked(entries: map<Node, Entry>, acked: set<Dep>, horizon: map<nat, nat>, refs: map<Node, nat>,
                            forwarded: seq<Node>, blocked: map<Dep, seq<Handle>>)
    requires Inv(entries, acked, horizon, refs, forwarded, blocked)
    requires forall n, d :: n in entries && d in entries[n].deps ==> d in acked
    ensures blocked == map[] && refs == map[] && forall n :: n in entries ==> n in forwarded
  {
    forall n | n in entries ensures n in forwarded && n !in refs {
      HeldExactly(entries, acked, horizon, refs, forwarded, blocked, n);
    }
    if k :| k in blocked {
      var n := BlockedOnUnacked(entries, acked, blocked, k);
    }
  }

  /** What blocks an entry is one of its dependencies and is not acknowledged. */
  lemma BlockedOnUnacked(entries: map<Node, Entry>, acked: set<Dep>, blocked: map<Dep, seq<Handle>>, k: Dep)
    returns (n: Node)
    requires BlockedInv(entries, acked, blocked) && k in blocked
    ensures k !in acked && n in entries && k in entries[n].deps
  {
    assert QueueOk(entries, acked, k, blocked[k]);
    var h := blocked[k][0];
    assert h in blocked[k];
    assert Waiting(entries, acked, h, k);
    n := h.node;
  }

  // ---------------------------------------------------------------------------
  // Steps

  lemma AckHorizon(horizon: map<nat, nat>, acked: set<Dep>, d: Dep, horizon': map<nat, nat>, entries: map<Node, Entry>)
    requires HorizonInv(horizon, acked) && EntriesInv(entries, horizon)
    requires horizon' == horizon[d.chain := if Covered(horizon, d) then horizon[d.chain] else d.index]
    ensures HorizonInv(horizon', acked + {d}) && EntriesInv(entries, horizon')
  {
  }

  /** The other queues do not notice an acknowledgement. */
  lemma AckBlocked(entries: map<Node, Entry>, acked: set<Dep>, blocked: map<Dep, seq<Handle>>, d: Dep)
    requires BlockedInv(entries, acked, blocked)
    ensures BlockedInv(entries, acked + {d}, blocked - {d})
  {
    forall h, k | k != d ensures Waiting(entries, acked, h, k) <==> Waiting(entries, acked + {d}, h, k) {
    }
    forall k | k in blocked && k != d ensures QueueOk(entries, acked + {d}, k, blocked[k]) {
      assert QueueOk(entries, acked, k, blocked[k]);
    }
  }

  /** Before its queue is emptied, an acknowledged dependency still has its handles. */
  lemma AckCounts(entries: map<Node, Entry>, acked: set<Dep>, blocked: map<Dep, seq<Handle>>, d: Dep,
                  refs: map<Node, nat>, forwarded: seq<Node>)
    requires BlockedInv(entries, acked, blocked) && CountInv(entries, refs, forwarded, acked, [])
    ensures CountInv(entries, refs, forwarded, acked + {d}, if d in blocked then blocked[d] else [])
  {
    var rest := if d in blocked then blocked[d] else [];
    forall n | n in entries ensures NodeOk(entries[n], n, refs, forwarded, acked + {d}, rest) {
      assert NodeOk(entries[n], n, refs, forwarded, acked, []);
      AckLive(entries, acked, blocked, d, n);
    }
  }

  lemma AckLive(entries: map<Node, Entry>, acked: set<Dep>, blocked: map<Dep, seq<Handle>>, d: Dep, n: Node)
    requires BlockedInv(entries, acked, blocked) && n in entries
    ensures Live(entries[n], n, acked, [])
      == Live(entries[n], n, acked + {d}, if d in blocked then blocked[d] else [])
  {
    var rest := if d in blocked then blocked[d] else [];
    var e := entries[n];
    forall j | 0 <= j < |e.deps| ensures Handle(n, j) in rest <==> j in Wanted(e, acked) && e.deps[j] == d {
      if j in Wanted(e, acked) && e.deps[j] == d {
        assert Waiting(entries, acked, Handle(n, j), d);
      }
      if d in blocked {
        assert QueueOk(entries, acked, d, blocked[d]);
      }
    }
  }

  /** The queue being emptied: no handle twice, each for an acknowledged
      dependency. */
  ghost predicate Draining(entries: map<Node, Entry>, acked: set<Dep>, rest: seq<Handle>) {
    Distinct(rest) && forall h :: h in rest ==>
      h.node in entries && h.dep < |entries[h.node].deps| && entries[h.node].deps[h.dep] in acked
  }

  /** Letting go of one handle. */
  lemma DropLive(entries: map<Node, Entry>, acked: set<Dep>, rest: seq<Handle>, n: Node)
    requires rest != [] && Draining(entries, acked, rest) && n in entries
    ensures Live(entries[n], n, acked, rest[1..])
      == Live(entries[n], n, acked, rest) - (if rest[0].node == n then {rest[0].dep} else {})
    ensures rest[0].node == n ==> rest[0].dep in Live(entries[n], n, acked, rest)
    ensures Draining(entries, acked, rest[1..])
  {
  }

  /** Rc::try_unwrap in the loop over a queue: the last handle sends the entry. */
  lemma DropHandle(entries: map<Node, Entry>, acked: set<Dep>, refs: map<Node, nat>, forwarded: seq<Node>,
                   rest: seq<Handle>)
    requires rest != [] && Draining(entries, acked, rest)
    requires CountInv(entries, refs, forwarded, acked, rest)
    ensures Draining(entries, acked, rest[1..]) && rest[0].node in refs && refs[rest[0].node] > 0
    ensures var n := rest[0].node;
      if refs[n] == 1 then CountInv(entries, refs - {n}, forwarded + [n], acked, rest[1..])
      else CountInv(entries, refs[n := refs[n] - 1], forwarded, acked, rest[1..])
  {
    hide Live, Draining;
    var n := rest[0].node;
    DropHandleNode(entries, acked, refs, forwarded, rest);
    var refs' := if refs[n] == 1 then refs - {n} else refs[n := refs[n] - 1];
    var forwarded' := if refs[n] == 1 then forwarded + [n] else forwarded;
    forall m | m in entries ensures NodeOk(entries[m], m, refs', forwarded', acked, rest[1..]) {
      if m != n {
        assert NodeOk(entries[m], m, refs, forwarded, acked, rest);
        DropLive(entries, acked, rest, m);
      }
    }
  }

  lemma DropHandleNode(entries: map<Node, Entry>, acked: set<Dep>, refs: map<Node, nat>, forwarded: seq<Node>,
                       rest: seq<Handle>)
    requires rest != [] && Draining(entries, acked, rest)
    requires CountInv(entries, refs, forwarded, acked, rest)
    ensures rest[0].node in entries && rest[0].node in refs && Draining(entries, acked, rest[1..])
    ensures var n := rest[0].node;
      if refs[n] == 1 then NodeOk(entries[n], n, refs - {n}, forwarded + [n], acked, rest[1..])
      else NodeOk(entries[n], n, refs[n := refs[n] - 1], forwarded, acked, rest[1..])
  {
    hide Live;
    assert rest[0] in rest;
    var n := rest[0].node;
    assert NodeOk(entries[n], n, refs, forwarded, acked, rest);
    DropLive(entries, acked, rest, n);
    var live, live' := Live(entries[n], n, acked, rest), Live(entries[n], n, acked, rest[1..]);
    assert |live'| == |live| - 1;
  }

  /** Entries that were received, none sent twice. */
  ghost predicate Sendable(entries: map<Node, Entry>, sent: seq<Node>) {
    && (forall n :: n in sent ==> n in entries)
    && (forall i, j :: 0 <= i < j < |sent| ==> sent[i] != sent[j])
  }

  lemma SentOnce(entries: map<Node, Entry>, refs: map<Node, nat>, forwarded: seq<Node>, acked: set<Dep>,
                 rest: seq<Handle>)
    requires CountInv(entries, refs, forwarded, acked, rest)
    ensures Sendable(entries, forwarded)
  {
  }

  lemma SameTurns(entries: map<Node, Entry>, turn: map<Node, nat>, m: Node, n: Node)
    requires Turns(entries, turn) && m in entries && n in entries
    ensures TurnOf(turn, m) == TurnOf(turn, n) <==> m == n
  {
  }

  /** One more entry goes out, and no turn before it is later. */
  lemma SentNext(entries: map<Node, Entry>, turn: map<Node, nat>, sent: seq<Node>, from: nat, n: Node)
    requires Turns(entries, turn) && SentInTurn(turn, sent, from) && Sendable(entries, sent + [n])
    requires forall i :: from <= i < |sent| ==> TurnOf(turn, sent[i]) <= TurnOf(turn, n)
    ensures SentInTurn(turn, sent + [n], from)
  {
    hide Turns, TurnOf;
    var now := sent + [n];
    forall i | from <= i < |sent| ensures TurnOf(turn, sent[i]) < TurnOf(turn, n) {
      assert now[i] in now && now[|sent|] in now && now[i] != now[|sent|];
      SameTurns(entries, turn, now[i], now[|sent|]);
    }
  }

  lemma SentLast(entries: map<Node, Entry>, turn: map<Node, nat>, refs: map<Node, nat>, sent: seq<Node>, from: nat,
                 n: Node, acked: set<Dep>, rest: seq<Handle>)
    requires CountInv(entries, refs, sent + [n], acked, rest) && Turns(entries, turn) && SentInTurn(turn, sent, from)
    requires forall i :: from <= i < |sent| ==> TurnOf(turn, sent[i]) <= TurnOf(turn, n)
    ensures SentInTurn(turn, sent + [n], from)
  {
    hide CountInv, Turns, SentInTurn, Sendable, TurnOf;
    SentOnce(entries, refs, sent + [n], acked, rest);
    SentNext(entries, turn, sent, from, n);
  }

  lemma NoneSent(turn: map<Node, nat>, sent: seq<Node>)
    ensures SentInTurn(turn, sent, |sent|)
  {
  }

  /** What is held and what was sent is settled by what was acknowledged. */
  lemma SentReleased(entries: map<Node, Entry>, acked: set<Dep>, horizon: map<nat, nat>, refs: map<Node, nat>,
                     forwarded: seq<Node>, blocked: map<Dep, seq<Handle>>)
    requires Inv(entries, acked, horizon, refs, forwarded, blocked)
    ensures Released(entries, acked, forwarded)
  {
    hide Inv;
    forall n | n in entries
      ensures n in forwarded <==> forall d :: d in entries[n].deps && d in entries[n].waits ==> d in acked
    {
      HeldExactly(entries, acked, horizon, refs, forwarded, blocked, n);
    }
  }

  lemma BatchesMore(entries: map<Node, Entry>, turn: map<Node, nat>, acked: set<Dep>, locs: seq<Dep>,
                    sent: seq<Node>, ends: seq<nat>, more: seq<Node>)
    requires Batches(entries, turn, acked, locs, sent, ends) && 0 < |ends| <= |locs| && ends[|ends| - 1] == |sent|
    requires sent <= more && Released(entries, AckedWith(acked, locs, |ends|), more)
    requires SentInTurn(turn, more, |sent|)
    ensures Batches(entries, turn, acked, locs, more, ends + [|more|])
  {
    hide Released, SentInTurn, AckedWith;
    assert more[..|more|] == more;
    forall i | 0 <= i < |ends| ensures more[..ends[i]] == sent[..ends[i]] {
    }
  }

  lemma SameLast(entries: map<Node, Entry>, turn: map<Node, nat>, a: seq<Node>, b: seq<Node>, from: nat)
    requires Turns(entries, turn) && Sendable(entries, a) && Sendable(entries, b)
    requires from < |a| && from <= |b| && a[..from] == b[..from] && (forall n :: n in a <==> n in b)
    requires SentInTurn(turn, a, from) && SentInTurn(turn, b, from)
    ensures from < |b| && TurnOf(turn, a[|a| - 1]) <= TurnOf(turn, b[|b| - 1])
  {
    var n := a[|a| - 1];
    assert n in a;
    var i :| 0 <= i < |b| && b[i] == n;
    assert n !in a[..from];
    assert n !in b[..from];
    assert i >= from;
  }

  /** Without the last one. */
  lemma ButLast(entries: map<Node, Entry>, turn: map<Node, nat>, s: seq<Node>, from: nat)
    requires s != [] && Sendable(entries, s) && SentInTurn(turn, s, from)
    ensures var s' := s[..|s| - 1];
      && Sendable(entries, s') && SentInTurn(turn, s', from) && s[|s| - 1] in entries
      && forall n :: n in s' <==> n in s && n != s[|s| - 1]
  {
    var last := |s| - 1;
    assert s == s[..last] + [s[last]];
    assert s[last] in s;
  }

  /** The same entries in the order they came are the same sequence. */
  lemma {:induction false} SameSent(entries: map<Node, Entry>, turn: map<Node, nat>, a: seq<Node>, b: seq<Node>,
                                    from: nat)
    requires Turns(entries, turn) && Sendable(entries, a) && Sendable(entries, b)
    requires from <= |a| && from <= |b| && a[..from] == b[..from] && (forall n :: n in a <==> n in b)
    requires SentInTurn(turn, a, from) && SentInTurn(turn, b, from)
    ensures a == b
    decreases |a|
  {
    hide Turns, TurnOf, SentInTurn, Sendable;
    if |a| > from {
      SameLast(entries, turn, a, b, from);
    }
    if |b| > from {
      SameLast(entries, turn, b, a, from);
      ButLast(entries, turn, a, from);
      ButLast(entries, turn, b, from);
      SameTurns(entries, turn, a[|a| - 1], b[|b| - 1]);
      var a', b' := a[..|a| - 1], b[..|b| - 1];
      assert a'[..from] == a[..from] && b'[..from] == b[..from];
      SameSent(entries, turn, a', b', from);
      assert a == a' + [a[|a| - 1]] && b == b' + [b[|b| - 1]];
    } else {
      assert a[..from] == a && b[..from] == b;
    }
  }

  lemma SendableFront(entries: map<Node, Entry>, sent: seq<Node>, n: nat)
    requires Sendable(entries, sent) && n <= |sent|
    ensures Sendable(entries, sent[..n])
  {
  }

  lemma SameReleased(entries: map<Node, Entry>, acked: set<Dep>, a: seq<Node>, b: seq<Node>)
    requires Sendable(entries, a) && Sendable(entries, b) && Released(entries, acked, a) && Released(entries, acked, b)
    ensures forall n :: n in a <==> n in b
  {
    forall n | n in entries ensures n in a <==> n in b {
    }
  }

  lemma {:induction false} SameBatches(entries: map<Node, Entry>, turn: map<Node, nat>, acked: set<Dep>,
                                       locs: seq<Dep>, a: seq<Node>, ea: seq<nat>, b: seq<Node>, eb: seq<nat>, i: nat)
    requires Turns(entries, turn) && Sendable(entries, a) && Sendable(entries, b)
    requires Batches(entries, turn, acked, locs, a, ea) && Batches(entries, turn, acked, locs, b, eb)
    requires i < |ea| == |eb| && a[..ea[0]] == b[..eb[0]]
    ensures a[..ea[i]] == b[..eb[i]]
    decreases i
  {
    hide Turns, AckedWith, TurnOf, Sendable, Released, SentInTurn;
    if i > 0 {
      SameBatches(entries, turn, acked, locs, a, ea, b, eb, i - 1);
      var x, y := a[..ea[i]], b[..eb[i]];
      assert |a[..ea[i - 1]]| == |b[..eb[i - 1]]|;
      assert x[..ea[i - 1]] == a[..ea[i - 1]] && y[..eb[i - 1]] == b[..eb[i - 1]];
      SendableFront(entries, a, ea[i]);
      SendableFront(entries, b, eb[i]);
      SameReleased(entries, AckedWith(acked, locs, i), x, y);
      SameSent(entries, turn, x, y, ea[i - 1]);
    }
  }

  /** What was received and what is acknowledged, in which order, settle what is sent
      and in which order. */
  lemma SentDetermined(entries: map<Node, Entry>, turn: map<Node, nat>, acked: set<Dep>, locs: seq<Dep>,
                       before: seq<Node>, a: seq<Node>, b: seq<Node>)
    requires Turns(entries, turn) && Sendable(entries, a) && Sendable(entries, b)
    requires SentBatches(entries, turn, acked, locs, before, a) && SentBatches(entries, turn, acked, locs, before, b)
    ensures a == b
  {
    var ea :| Batches(entries, turn, acked, locs, a, ea) && |ea| == |locs| + 1 && ea[0] == |before|
      && ea[|locs|] == |a|;
    var eb :| Batches(entries, turn, acked, locs, b, eb) && |eb| == |locs| + 1 && eb[0] == |before|
      && eb[|locs|] == |b|;
    SameBatches(entries, turn, acked, locs, a, ea, b, eb, |locs|);
    assert a[..|a|] == a && b[..|b|] == b;
  }

  // Receiving an entry

  /** The new entry comes last. */
  lemma TurnJoins(entries: map<Node, Entry>, turn: map<Node, nat>, n: Node, e: Entry)
    requires n !in entries && Turns(entries, turn)
    ensures var turn' := turn[n := |turn|];
      (forall m :: TurnOf(turn', m) <= TurnOf(turn', n)) && Turns(entries[n := e], turn')
  {
    var turn' := turn[n := |turn|];
    assert turn'.Keys == turn.Keys + {n};
    assert |turn'| == |turn'.Keys| == |turn| + 1;
  }

  lemma QueuesStay(entries: map<Node, Entry>, acked: set<Dep>, turn: map<Node, nat>, blocked: map<Dep, seq<Handle>>,
                   n: Node, t: nat)
    requires n !in entries && BlockedInv(entries, acked, blocked) && QueuesInTurn(turn, blocked)
    ensures QueuesInTurn(turn[n := t], blocked)
  {
    forall k | k in blocked ensures InTurn(turn[n := t], blocked[k]) {
      assert QueueOk(entries, acked, k, blocked[k]) && InTurn(turn, blocked[k]);
      forall i | 0 <= i < |blocked[k]| ensures blocked[k][i].node != n {
        assert blocked[k][i] in blocked[k];
        assert Waiting(entries, acked, blocked[k][i], k);
      }
    }
  }

  lemma PushInTurn(turn: map<Node, nat>, blocked: map<Dep, seq<Handle>>, d: Dep, h: Handle)
    requires QueuesInTurn(turn, blocked) && forall m :: TurnOf(turn, m) <= TurnOf(turn, h.node)
    ensures QueuesInTurn(turn, blocked[d := (if d in blocked then blocked[d] else []) + [h]])
  {
  }

  ghost function Missing(deps: seq<Dep>, horizon: map<nat, nat>): set<Dep> {
    set d | d in deps && !Covered(horizon, d)
  }

  /** The first i dependencies of a new entry have been looked at. */
  ghost function Partly(entries: map<Node, Entry>, n: Node, deps: seq<Dep>, missing: set<Dep>, i: nat): map<Node, Entry>
    requires i <= |deps|
  {
    entries[n := Entry(deps[..i], missing)]
  }

  /** A missing dependency gets one more handle in its queue. */
  lemma PushBlocked(entries: map<Node, Entry>, n: Node, deps: seq<Dep>, missing: set<Dep>, i: nat, acked: set<Dep>,
                    blocked: map<Dep, seq<Handle>>)
    requires n !in entries && i < |deps| && deps[i] in missing && deps[i] !in acked
    requires BlockedInv(Partly(entries, n, deps, missing, i), acked, blocked)
    ensures var d := deps[i];
      var queue := (if d in blocked then blocked[d] else []) + [Handle(n, i)];
      BlockedInv(Partly(entries, n, deps, missing, i + 1), acked, blocked[d := queue])
  {
    var d := deps[i];
    var before, after := Partly(entries, n, deps, missing, i), Partly(entries, n, deps, missing, i + 1);
    var queue := if d in blocked then blocked[d] else [];
    var blocked' := blocked[d := queue + [Handle(n, i)]];
    forall h, k ensures Waiting(after, acked, h, k) <==> Waiting(before, acked, h, k) || (h == Handle(n, i) && k == d) {
    }
    forall k | k in blocked' ensures QueueOk(after, acked, k, blocked'[k]) {
      if k in blocked { assert QueueOk(before, acked, k, blocked[k]); }
      if k == d { assert Handle(n, i) !in queue; }
    }
  }

  lemma SameWaiting(before: map<Node, Entry>, after: map<Node, Entry>, acked: set<Dep>, blocked: map<Dep, seq<Handle>>)
    requires forall h, k :: Waiting(after, acked, h, k) <==> Waiting(before, acked, h, k)
    requires BlockedInv(before, acked, blocked)
    ensures BlockedInv(after, acked, blocked)
  {
  }

  lemma SkipBlocked(entries: map<Node, Entry>, n: Node, deps: seq<Dep>, missing: set<Dep>, i: nat, acked: set<Dep>,
                    blocked: map<Dep, seq<Handle>>)
    requires n !in entries && i < |deps| && deps[i] !in missing
    requires BlockedInv(Partly(entries, n, deps, missing, i), acked, blocked)
    ensures BlockedInv(Partly(entries, n, deps, missing, i + 1), acked, blocked)
  {
    var before, after := Partly(entries, n, deps, missing, i), Partly(entries, n, deps, missing, i + 1);
    forall h, k ensures Waiting(after, acked, h, k) <==> Waiting(before, acked, h, k) {
    }
    SameWaiting(before, after, acked, blocked);
  }

  lemma NoneBlocked(entries: map<Node, Entry>, n: Node, deps: seq<Dep>, missing: set<Dep>, acked: set<Dep>,
                    blocked: map<Dep, seq<Handle>>)
    requires n !in entries && BlockedInv(entries, acked, blocked)
    ensures BlockedInv(Partly(entries, n, deps, missing, 0), acked, blocked)
  {
    var after := Partly(entries, n, deps, missing, 0);
    forall h, k ensures Waiting(after, acked, h, k) <==> Waiting(entries, acked, h, k) {
    }
    SameWaiting(entries, after, acked, blocked);
  }

  lemma LiveStep(n: Node, deps: seq<Dep>, missing: set<Dep>, i: nat, acked: set<Dep>)
    requires i < |deps| && (deps[i] in missing ==> deps[i] !in acked)
    ensures Live(Entry(deps[..i + 1], missing), n, acked, [])
      == Live(Entry(deps[..i], missing), n, acked, []) + (if deps[i] in missing then {i} else {})
    ensures |Live(Entry(deps[..i + 1], missing), n, acked, [])|
      == |Live(Entry(deps[..i], missing), n, acked, [])| + (if deps[i] in missing then 1 else 0)
  {
  }

  /** The entry joins: with handles it waits, without any it goes out at once. */
  lemma Join(entries: map<Node, Entry>, n: Node, e: Entry, refs: map<Node, nat>, forwarded: seq<Node>, acked: set<Dep>)
    requires n !in entries && CountInv(entries, refs, forwarded, acked, [])
    ensures var live := Live(e, n, acked, []);
      if live == {} then CountInv(entries[n := e], refs, forwarded + [n], acked, [])
      else CountInv(entries[n := e], refs[n := |live|], forwarded, acked, [])
  {
  }

  lemma JoinEntries(entries: map<Node, Entry>, n: Node, deps: seq<Dep>, horizon: map<nat, nat>)
    requires EntriesInv(entries, horizon)
    ensures EntriesInv(entries[n := Entry(deps, Missing(deps, horizon))], horizon)
  {
  }

  // ---------------------------------------------------------------------------
  // The replicator

  class Replicator {
    var horizon: map<nat, nat>
    var blocked: map<Dep, seq<Handle>>
    var refs: map<Node, nat>
    var outstandingAppends: nat
    var forwarded: seq<Node>
    var numSnapshots: nat
    var toRemote: seq<ToRemote>
    ghost var ended: nat
    ghost var entries: map<Node, Entry>
    ghost var acked: set<Dep>
    ghost var turn: map<Node, nat>

    ghost predicate Valid()
      reads this
    {
      && Inv(entries, acked, horizon, refs, forwarded, blocked) && outstandingAppends <= |forwarded|
      && Fetches(toRemote) == numSnapshots + ended && Turns(entries, turn) && QueuesInTurn(turn, blocked)
    }

    constructor ()
      ensures Valid() && entries == map[] && acked == {} && forwarded == [] && toRemote == []
    {
      numSnapshots, toRemote, ended := 0, [], 0;
      horizon, blocked, refs, outstandingAppends, forwarded := map[], map[], map[], 0, [];
      entries, acked, turn := map[], {}, map[];
    }

    method Append(n: Node)
      modifies this`forwarded, this`outstandingAppends
      ensures forwarded == old(forwarded) + [n] && outstandingAppends == old(outstandingAppends) + 1
    {
      forwarded := forwarded + [n];
      outstandingAppends := outstandingAppends + 1;
    }

    method CanAppend(deps: seq<Dep>) returns (can: bool)
      ensures can <==> Missing(deps, horizon) == {}
    {
      can := true;
      var i := 0;
      while can && i < |deps|
        invariant 0 <= i <= |deps|
        invariant can ==> forall j :: 0 <= j < i ==> Covered(horizon, deps[j])
        invariant !can ==> exists j :: 0 <= j < |deps| && !Covered(horizon, deps[j])
      {
        can := Covered(horizon, deps[i]);
        i := i + 1;
      }
      if !can {
        ghost var j :| 0 <= j < |deps| && !Covered(horizon, deps[j]);
        assert deps[j] in Missing(deps, horizon);
      }
    }

    /** A data or multi-append entry arrives from the remote log. */
    method Read(n: Node, deps: seq<Dep>)
      requires Valid() && n !in entries
      modifies this`horizon, this`blocked, this`refs, this`outstandingAppends, this`forwarded, this`entries, this`turn
      ensures Valid() && acked == old(acked) && horizon == old(horizon) && turn == old(turn)[n := |old(turn)|]
      ensures entries == old(entries)[n := Entry(deps, Missing(deps, horizon))]
      ensures forwarded == if Missing(deps, horizon) == {} then old(forwarded) + [n] else old(forwarded)
      ensures outstandingAppends == old(outstandingAppends) + |forwarded| - |old(forwarded)|
    {
      hide BlockedInv, CountInv, EntriesInv, HorizonInv, Turns, QueuesInTurn, TurnOf, Fetches;
      ghost var e := Entry(deps, Missing(deps, horizon));
      JoinEntries(entries, n, deps, horizon);
      TurnJoins(entries, turn, n, e);
      QueuesStay(entries, acked, turn, blocked, n, |turn|);
      turn := turn[n := |turn|];
      var can := CanAppend(deps);
      if can {
        JoinReady(entries, n, e, refs, forwarded, acked, blocked);
        Append(n);
      } else {
        Block(n, deps);
      }
      entries := entries[n := e];
    }

    static lemma JoinReady(entries: map<Node, Entry>, n: Node, e: Entry, refs: map<Node, nat>, forwarded: seq<Node>,
                           acked: set<Dep>, blocked: map<Dep, seq<Handle>>)
      requires n !in entries && e.waits == {} && CountInv(entries, refs, forwarded, acked, [])
      requires BlockedInv(entries, acked, blocked)
      ensures CountInv(entries[n := e], refs, forwarded + [n], acked, []) && BlockedInv(entries[n := e], acked, blocked)
    {
      assert Live(e, n, acked, []) == {};
      Join(entries, n, e, refs, forwarded, acked);
      forall h, k ensures Waiting(entries[n := e], acked, h, k) <==> Waiting(entries, acked, h, k) {
      }
      SameWaiting(entries, entries[n := e], acked, blocked);
    }

    /** One handle per missing dependency; the local handle goes last. */
    method Block(n: Node, deps: seq<Dep>)
      requires n !in entries && Inv(entries, acked, horizon, refs, forwarded, blocked)
      requires QueuesInTurn(turn, blocked) && forall m :: TurnOf(turn, m) <= TurnOf(turn, n)
      modifies this`blocked, this`refs, this`forwarded, this`outstandingAppends
      ensures var e := Entry(deps, Missing(deps, horizon));
        && CountInv(entries[n := e], refs, forwarded, acked, [])
        && BlockedInv(entries[n := e], acked, blocked) && QueuesInTurn(turn, blocked)
      ensures forwarded == if Missing(deps, horizon) == {} then old(forwarded) + [n] else old(forwarded)
      ensures outstandingAppends == old(outstandingAppends) + |forwarded| - |old(forwarded)|
    {
      hide BlockedInv, CountInv, EntriesInv, Live, QueuesInTurn, TurnOf;
      ghost var missing := Missing(deps, horizon);
      ghost var mine := Live(Entry(deps[..0], missing), n, acked, []);
      NoneBlocked(entries, n, deps, missing, acked, blocked);
      NoHandlesYet(n, deps, missing, acked);
      var count := 1;
      for i := 0 to |deps|
        invariant BlockedInv(Partly(entries, n, deps, missing, i), acked, blocked) && QueuesInTurn(turn, blocked)
        invariant mine == Live(Entry(deps[..i], missing), n, acked, []) && count == 1 + |mine|
        invariant refs == old(refs) && forwarded == old(forwarded) && outstandingAppends == old(outstandingAppends)
      {
        var d := deps[i];
        LiveStep(n, deps, missing, i, acked);
        if !Covered(horizon, d) {
          assert d in missing;
          PushBlocked(entries, n, deps, missing, i, acked, blocked);
          PushInTurn(turn, blocked, d, Handle(n, i));
          blocked := blocked[d := (if d in blocked then blocked[d] else []) + [Handle(n, i)]];
          count := count + 1;
        } else {
          SkipBlocked(entries, n, deps, missing, i, acked, blocked);
        }
        mine := Live(Entry(deps[..i + 1], missing), n, acked, []);
      }
      assert deps[..|deps|] == deps;
      Join(entries, n, Entry(deps, missing), refs, forwarded, acked);
      HandlesIffMissing(n, deps, horizon, acked);
      if count == 1 {
        Append(n);
      } else {
        refs := refs[n := count - 1];
      }
    }

    static lemma NoHandlesYet(n: Node, deps: seq<Dep>, missing: set<Dep>, acked: set<Dep>)
      ensures Live(Entry(deps[..0], missing), n, acked, []) == {}
    {
    }

    static lemma HandlesIffMissing(n: Node, deps: seq<Dep>, horizon: map<nat, nat>, acked: set<Dep>)
      requires HorizonInv(horizon, acked)
      ensures Live(Entry(deps, Missing(deps, horizon)), n, acked, []) == {} <==> Missing(deps, horizon) == {}
    {
      if d :| d in Missing(deps, horizon) {
        var j :| 0 <= j < |deps| && deps[j] == d;
        assert j in Live(Entry(deps, Missing(deps, horizon)), n, acked, []);
      }
    }

    /** snapshot_remote for chain 0, and re_snapshot. */
    method Snapshot(chain: nat)
      requires Valid()
      modifies this`numSnapshots, this`toRemote
      ensures Valid() && toRemote == old(toRemote) + [Fetch(chain)]
      ensures numSnapshots == old(numSnapshots) + 1
    {
      hide Inv;
      FetchesMore(toRemote, Fetch(chain));
      toRemote := toRemote + [Fetch(chain)];
      numSnapshots := numSnapshots + 1;
    }

    /** handle_message: a round is over exactly when every snapshot asked for has
        ended. Every buffer read goes back to the remote log. */
    method HandleMessage(m: Response) returns (done: bool)
      requires Valid() && (m.Wrote? ==> outstandingAppends > 0) && (m.Copy? ==> m.node !in entries)
      requires m.Ended? ==> numSnapshots > 0
      modifies this
      ensures Valid() && (done <==> m.Ended? && Fetches(toRemote) == ended)
      ensures ended == old(ended) + (if m.Ended? then 1 else 0)
      ensures toRemote == old(toRemote) + (match m
                                           case Unused(chain) => [Fetch(chain), ReturnBuffer]
                                           case Copy(_, _) => [ReturnBuffer]
                                           case _ => [])
      ensures acked == old(acked) + (if m.Wrote? then set d | d in m.locs else {})
      ensures entries ==
        if m.Copy? then old(entries)[m.node := Entry(m.deps, Missing(m.deps, horizon))] else old(entries)
      ensures turn == if m.Copy? then old(turn)[m.node := |old(turn)|] else old(turn)
      ensures match m
        case Wrote(locs) => SentBatches(entries, turn, old(acked), locs, old(forwarded), forwarded)
        case Copy(n, deps) =>
          forwarded == if Missing(deps, horizon) == {} then old(forwarded) + [n] else old(forwarded)
        case _ => forwarded == old(forwarded)
    {
      hide Inv, Missing, Turns, QueuesInTurn, SentBatches;
      done := false;
      match m
      case Failed =>
      case Wrote(locs) => Wrote(locs);
      case Ended =>
        numSnapshots := numSnapshots - 1;
        ended := ended + 1;
        done := numSnapshots == 0;
      case Unused(chain) =>
        Snapshot(chain);
        GiveBack();
      case Copy(n, deps) =>
        Read(n, deps);
        GiveBack();
    }

    method GiveBack()
      requires Valid()
      modifies this`toRemote
      ensures Valid() && toRemote == old(toRemote) + [ReturnBuffer]
    {
      hide Inv;
      FetchesMore(toRemote, ReturnBuffer);
      toRemote := toRemote + [ReturnBuffer];
    }

    /** The local log acknowledges a write and where it went. */
    method Wrote(locs: seq<Dep>)
      requires Valid() && outstandingAppends > 0
      modifies this`horizon, this`blocked, this`refs, this`outstandingAppends, this`forwarded, this`acked
      ensures Valid() && entries == old(entries)
      ensures acked == old(acked) + set d | d in locs
      ensures SentBatches(entries, turn, old(acked), locs, old(forwarded), forwarded)
      ensures outstandingAppends == old(outstandingAppends) - 1 + |forwarded| - |old(forwarded)|
    {
      hide Inv, Turns, QueuesInTurn, Released, SentInTurn, Batches;
      outstandingAppends := outstandingAppends - 1;
      ghost var ends: seq<nat> := [|forwarded|];
      BatchesNone(locs);
      for i := 0 to |locs|
        invariant Valid() && entries == old(entries) && acked == AckedWith(old(acked), locs, i)
        invariant old(forwarded) <= forwarded && |ends| == i + 1
        invariant ends[0] == |old(forwarded)| && ends[i] == |forwarded|
        invariant Batches(entries, turn, old(acked), locs, forwarded, ends)
        invariant outstandingAppends == old(outstandingAppends) - 1 + |forwarded| - |old(forwarded)|
      {
        ghost var sent := forwarded;
        AfterWriteAck(locs[i]);
        assert locs[..i + 1] == locs[..i] + [locs[i]];
        assert acked == AckedWith(old(acked), locs, i + 1);
        SentReleased(entries, acked, horizon, refs, forwarded, blocked);
        BatchesMore(entries, turn, old(acked), locs, sent, ends, forwarded);
        ends := ends + [|forwarded|];
      }
      assert locs[..|locs|] == locs;
    }

    lemma BatchesNone(locs: seq<Dep>)
      requires Valid()
      ensures Batches(entries, turn, acked, locs, forwarded, [|forwarded|]) && AckedWith(acked, locs, 0) == acked
    {
      assert AckedWith(acked, locs, 0) == acked;
      assert forwarded[..|forwarded|] == forwarded;
      SentReleased(entries, acked, horizon, refs, forwarded, blocked);
    }

    method AfterWriteAck(d: Dep)
      requires Valid()
      modifies this`horizon, this`blocked, this`refs, this`outstandingAppends, this`forwarded, this`acked
      ensures Valid() && entries == old(entries) && acked == old(acked) + {d}
      ensures old(forwarded) <= forwarded && SentInTurn(turn, forwarded, |old(forwarded)|)
      ensures outstandingAppends == old(outstandingAppends) + |forwarded| - |old(forwarded)|
    {
      hide BlockedInv, CountInv, EntriesInv, HorizonInv, Draining, Turns, InTurn;
      AckHorizon(horizon, acked, d, horizon[d.chain := if Covered(horizon, d) then horizon[d.chain] else d.index],
                 entries);
      AckBlocked(entries, acked, blocked, d);
      AckCounts(entries, acked, blocked, d, refs, forwarded);
      horizon := horizon[d.chain := if Covered(horizon, d) then horizon[d.chain] else d.index];
      ghost var before := acked;
      acked := acked + {d};
      if d in blocked {
        var queue := blocked[d];
        DrainStart(entries, before, blocked, d);
        blocked := blocked - {d};
        Drain(queue);
      } else {
        assert blocked - {d} == blocked;
      }
    }

    static lemma DrainStart(entries: map<Node, Entry>, acked: set<Dep>, blocked: map<Dep, seq<Handle>>, d: Dep)
      requires BlockedInv(entries, acked, blocked) && d in blocked
      ensures Draining(entries, acked + {d}, blocked[d])
    {
    }

    /** The handles of an acknowledged dependency are dropped one by one. */
    method Drain(queue: seq<Handle>)
      requires Draining(entries, acked, queue) && CountInv(entries, refs, forwarded, acked, queue)
      requires Turns(entries, turn) && InTurn(turn, queue)
      modifies this`refs, this`forwarded, this`outstandingAppends
      ensures CountInv(entries, refs, forwarded, acked, []) && old(forwarded) <= forwarded
      ensures SentInTurn(turn, forwarded, |old(forwarded)|)
      ensures outstandingAppends == old(outstandingAppends) + |forwarded| - |old(forwarded)|
    {
      hide CountInv, Draining, Turns, SentInTurn, TurnOf;
      assert queue[0..] == queue;
      NoneSent(turn, forwarded);
      for i := 0 to |queue|
        invariant Draining(entries, acked, queue[i..]) && CountInv(entries, refs, forwarded, acked, queue[i..])
        invariant old(forwarded) <= forwarded && SentInTurn(turn, forwarded, |old(forwarded)|)
        invariant forall p, j :: |old(forwarded)| <= p < |forwarded| && i <= j < |queue| ==>
          TurnOf(turn, forwarded[p]) <= TurnOf(turn, queue[j].node)
        invariant outstandingAppends == old(outstandingAppends) + |forwarded| - |old(forwarded)|
      {
        var n := queue[i].node;
        assert queue[i..][0] == queue[i] && queue[i..][1..] == queue[i + 1..];
        DropHandle(entries, acked, refs, forwarded, queue[i..]);
        if refs[n] == 1 {
          SentLast(entries, turn, refs - {n}, forwarded, |old(forwarded)|, n, acked, queue[i + 1..]);
          refs := refs - {n};
          Append(n);
        } else {
          refs := refs[n := refs[n] - 1];
        }
      }
      assert queue[|queue|..] == [];
    }
  }

  /** Being covered is not enough to be let go: an entry that waits for index 3 of
      chain 1 stays when index 5 of that chain is acknowledged first. */
  method HeldThoughCovered() returns (r: Replicator)
    ensures r.Valid() && 0 in r.entries && r.entries[0].deps == [Dep(1, 3)]
    ensures Covered(r.horizon, Dep(1, 3)) && 0 !in r.forwarded
  {
    hide BlockedInv, CountInv, EntriesInv;
    r := new Replicator();
    assert Dep(1, 3) in Missing([Dep(1, 3)], r.horizon) by {
      assert Dep(1, 3) in [Dep(1, 3)];
      assert 1 !in r.horizon;
    }
    r.Read(0, [Dep(1, 3)]);
    assert Missing([], r.horizon) == {};
    r.Read(1, []);
    r.Wrote([Dep(1, 5)]);
    assert Dep(1, 5) in [Dep(1, 5)];
    assert Dep(1, 5) in r.acked;
    assert Covered(r.horizon, Dep(1, 5));
    HeldExactly(r.entries, r.acked, r.horizon, r.refs, r.forwarded, r.blocked, 0);
    assert Dep(1, 3) in r.entries[0].deps;
  }
}
