/** A replica of one chain. Its head sends a round-one record for every queued
    entry and a round-two record for every flushed one; the records of different
    entries may arrive in any order (fuzzy_log_server/src/skeens.rs, the
    replicate_* functions, and handle_replication in
    fuzzy_log_server/src/ordering_thread.rs). */
module Replica {
  import opened SkeensOrder
  import S = SkeensChain

  /** An entry handed on by the replica, with its final timestamp and index. */
  datatype Emit = Emit(origin: Origin, id: Id, maxTs: Time, index: nat)

  datatype State = State(
    nextTs: Time,
    start: QueueIndex,
    next: QueueIndex,
    data: map<nat, Waiting>,
    status: map<Id, S.Status>,
    emitted: seq<Emit>)

  const INIT := State(1, 0, 0, map[], map[], [])

  function BumpTs(nextTs: Time, t: Time): Time {
    if nextTs <= t then t + 1 else nextTs
  }

  /** replicate_single/multi/snapshot_round1. The code aborts on a queue number
      already passed or taken. */
  function Round1(s: State, origin: Origin, ts: Time, node: QueueIndex, id: Id): State
    requires s.start <= node && (id !in s.status ==> node !in s.data)
  {
    var b := s.(nextTs := BumpTs(s.nextTs, ts));
    if id in b.status then b
    else
      var w := S.Entry(origin, ts, node, id);
      b.(status := b.status[id := S.StatusOf(w)],
         data := b.data[node := w],
         next := if node >= b.next then node + 1 else b.next)
  }

  /** May round two be applied to this entry? The code aborts otherwise. */
  predicate Accepts(w: Waiting, maxTs: Time) {
    (w.Wait? && w.ts <= maxTs) || (w.Single? && w.ts == maxTs)
  }

  function ToReplicated(w: Waiting, maxTs: Time, index: nat): Waiting
    requires w.Wait? || w.Single?
  {
    Replicated(if w.Wait? then FromMulti(w.kind) else FromSingle, maxTs, index, w.id)
  }

  predicate FrontReplicated(s: State) {
    s.start in s.data && s.data[s.start].Replicated?
  }

  function EmitFront(s: State): State
    requires FrontReplicated(s)
  {
    var w := s.data[s.start];
    s.(start := s.start + 1, data := s.data - {s.start}, status := s.status - {w.id},
       emitted := s.emitted + [Emit(w.origin, w.id, w.maxTs, w.index)])
  }

  function Drain(s: State): State
    decreases |s.data|
  {
    if FrontReplicated(s) then Drain(EmitFront(s)) else s
  }

  /** replicate_round2. */
  function Round2(s: State, id: Id, maxTs: Time, index: nat): State
    requires id in s.status && !s.status[id].Phase2? ==>
      s.status[id].node in s.data && Accepts(s.data[s.status[id].node], maxTs)
  {
    if id !in s.status || s.status[id].Phase2? then s
    else
      var n := s.status[id].node;
      var b := s.(nextTs := BumpTs(s.nextTs, maxTs), data := s.data[n := ToReplicated(s.data[n], maxTs, index)]);
      if n != b.start then b else Drain(b)
  }

  // ---------------------------------------------------------------------------
  // The head's records

  /** Everything the head has said about one entry: round one, and round two once
      the entry is flushed. The position in the table is the queue number. */
  datatype Record = Record(origin: Origin, id: Id, ts: Time, done: bool, maxTs: Time, index: nat)

  ghost predicate TableOk(table: seq<Record>) {
    && (forall n, m :: 0 <= n < m < |table| ==> table[n].id != table[m].id)
    && (forall n :: 0 <= n < |table| && table[n].done ==>
          if table[n].origin.FromSingle? then table[n].maxTs == table[n].ts else table[n].ts <= table[n].maxTs)
  }

  datatype Msg = First(node: nat) | Second(node: nat)

  /** A possible arrival order: only the head's records, each at most once, every
      round two after its round one. */
  ghost predicate Arrives(table: seq<Record>, msgs: seq<Msg>) {
    forall k :: 0 <= k < |msgs| ==>
      && msgs[k].node < |table|
      && msgs[k] !in msgs[..k]
      && (msgs[k].Second? ==> table[msgs[k].node].done && First(msgs[k].node) in msgs[..k])
  }

  ghost predicate CanApply(s: State, table: seq<Record>, m: Msg)
    requires m.node < |table|
  {
    var r := table[m.node];
    match m
    case First(n) => s.start <= n && (r.id !in s.status ==> n !in s.data)
    case Second(_) => r.id in s.status && !s.status[r.id].Phase2? ==>
      s.status[r.id].node in s.data && Accepts(s.data[s.status[r.id].node], r.maxTs)
  }

  ghost function Apply(s: State, table: seq<Record>, m: Msg): State
    requires m.node < |table| && CanApply(s, table, m)
  {
    var r := table[m.node];
    match m
    case First(n) => Round1(s, r.origin, r.ts, n, r.id)
    case Second(_) => Round2(s, r.id, r.maxTs, r.index)
  }

  // ---------------------------------------------------------------------------
  // The replica's state is a function of which records have arrived

  function Expected(table: seq<Record>, n: nat, second: bool): Waiting
    requires n < |table|
  {
    var r := table[n];
    if second then Replicated(r.origin, r.maxTs, r.index, r.id) else S.Entry(r.origin, r.ts, n, r.id)
  }

  function ExpectedEmit(r: Record): Emit {
    Emit(r.origin, r.id, r.maxTs, r.index)
  }

  ghost predicate GotOk(table: seq<Record>, got: set<Msg>) {
    forall m :: m in got ==> m.node < |table| && (m.Second? ==> table[m.node].done && First(m.node) in got)
  }

  ghost predicate DataInv(s: State, table: seq<Record>, got: set<Msg>) {
    && (forall n :: n in s.data <==> s.start <= n && First(n) in got)
    && (forall n :: n in s.data && n < |table| ==> s.data[n] == Expected(table, n, Second(n) in got))
  }

  /** The emitted entries are exactly the queue numbers below start, gap-free. */
  ghost predicate EmitInv(s: State, table: seq<Record>, got: set<Msg>) {
    && |s.emitted| == s.start <= |table|
    && (forall n :: 0 <= n < s.start ==> Second(n) in got && s.emitted[n] == ExpectedEmit(table[n]))
  }

  ghost predicate StatusInv(s: State, table: seq<Record>) {
    && (forall id :: id in s.status ==>
          !s.status[id].Phase2? && s.status[id].node in s.data && s.status[id].node < |table| &&
          table[s.status[id].node].id == id)
    && (forall n :: n in s.data && n < |table| ==>
          var r := table[n];
          r.id in s.status && s.status[r.id] == S.StatusOf(S.Entry(r.origin, r.ts, n, r.id)))
  }

  ghost predicate Heard(table: seq<Record>, got: set<Msg>, t: Time) {
    exists m :: m in got && m.node < |table| && t == (if m.First? then table[m.node].ts else table[m.node].maxTs)
  }

  ghost predicate ClockInv(s: State, table: seq<Record>, got: set<Msg>) {
    && s.nextTs >= 1
    && (forall t: Time :: Heard(table, got, t) ==> t < s.nextTs)
    && (s.nextTs > 1 ==> Heard(table, got, s.nextTs - 1))
  }

  ghost predicate NextInv(s: State, got: set<Msg>) {
    && (forall n: nat :: First(n) in got ==> n < s.next)
    && (s.next > 0 ==> First(s.next - 1) in got)
  }

  /** Everything but the flush: the state the records in got determine, with the
      front of the queue possibly ready. */
  ghost predicate Tracks(s: State, table: seq<Record>, got: set<Msg>) {
    && TableOk(table) && GotOk(table, got)
    && DataInv(s, table, got) && EmitInv(s, table, got) && StatusInv(s, table)
    && ClockInv(s, table, got) && NextInv(s, got)
  }

  ghost predicate Inv(s: State, table: seq<Record>, got: set<Msg>) {
    Tracks(s, table, got) && !FrontReplicated(s)
  }

  /** An entry not heard of yet is neither passed nor taken. */
  lemma FirstIsNew(s: State, table: seq<Record>, got: set<Msg>, n: nat)
    requires Tracks(s, table, got) && n < |table| && First(n) !in got
    ensures s.start <= n && n !in s.data && table[n].id !in s.status
  {
    hide ClockInv, NextInv;
  }

  lemma FirstData(s: State, table: seq<Record>, got: set<Msg>, n: nat)
    requires DataInv(s, table, got) && n < |table| && Second(n) !in got
    requires s.start <= n && n !in s.data && table[n].id !in s.status
    ensures DataInv(Round1(s, table[n].origin, table[n].ts, n, table[n].id), table, got + {First(n)})
  {
    var t, now := Round1(s, table[n].origin, table[n].ts, n, table[n].id), got + {First(n)};
    assert t.data == s.data[n := Expected(table, n, false)];
    assert forall m: nat :: Second(m) in now <==> Second(m) in got;
    assert forall m: nat :: First(m) in now <==> First(m) in got || m == n;
  }

  lemma FirstCounts(s: State, table: seq<Record>, got: set<Msg>, n: nat)
    requires EmitInv(s, table, got) && NextInv(s, got) && n < |table|
    requires s.start <= n && n !in s.data && table[n].id !in s.status
    ensures var t := Round1(s, table[n].origin, table[n].ts, n, table[n].id);
      EmitInv(t, table, got + {First(n)}) && NextInv(t, got + {First(n)})
  {
  }

  lemma FirstStatus(s: State, table: seq<Record>, n: nat)
    requires TableOk(table) && StatusInv(s, table) && n < |table|
    requires s.start <= n && n !in s.data && table[n].id !in s.status
    ensures StatusInv(Round1(s, table[n].origin, table[n].ts, n, table[n].id), table)
  {
  }

  lemma FirstClock(s: State, table: seq<Record>, got: set<Msg>, n: nat)
    requires ClockInv(s, table, got) && n < |table|
    requires s.start <= n && n !in s.data && table[n].id !in s.status
    ensures ClockInv(Round1(s, table[n].origin, table[n].ts, n, table[n].id), table, got + {First(n)})
  {
    HeardGrows(table, got, First(n));
    hide Heard;
  }

  lemma FirstApplies(s: State, table: seq<Record>, got: set<Msg>, n: nat)
    requires Inv(s, table, got) && n < |table| && First(n) !in got
    ensures CanApply(s, table, First(n))
    ensures Inv(Apply(s, table, First(n)), table, got + {First(n)})
  {
    hide ClockInv, DataInv, StatusInv, NextInv, EmitInv, TableOk;
    FirstIsNew(s, table, got, n);
    assert Second(n) !in got;
    FirstData(s, table, got, n);
    FirstCounts(s, table, got, n);
    FirstStatus(s, table, n);
    FirstClock(s, table, got, n);
  }

  lemma HeardGrows(table: seq<Record>, got: set<Msg>, m: Msg)
    requires m.node < |table|
    ensures forall t :: Heard(table, got + {m}, t) <==>
      Heard(table, got, t) || t == (if m.First? then table[m.node].ts else table[m.node].maxTs)
  {
  }

  function Mark(s: State, r: Record, n: nat): State
    requires n in s.data && (s.data[n].Wait? || s.data[n].Single?)
  {
    s.(nextTs := BumpTs(s.nextTs, r.maxTs), data := s.data[n := ToReplicated(s.data[n], r.maxTs, r.index)])
  }

  /** An entry heard of but not finished is still queued, unmarked. */
  lemma SecondFinds(s: State, table: seq<Record>, got: set<Msg>, n: nat)
    requires Tracks(s, table, got) && n < |table| && First(n) in got && Second(n) !in got
    ensures n in s.data && s.data[n] == S.Entry(table[n].origin, table[n].ts, n, table[n].id)
    ensures table[n].id in s.status && !s.status[table[n].id].Phase2? && s.status[table[n].id].node == n
  {
  }

  lemma MarkClock(s: State, table: seq<Record>, got: set<Msg>, n: nat)
    requires ClockInv(s, table, got) && n < |table| && n in s.data && (s.data[n].Wait? || s.data[n].Single?)
    ensures ClockInv(Mark(s, table[n], n), table, got + {Second(n)})
  {
    HeardGrows(table, got, Second(n));
    hide Heard;
  }

  lemma MarkData(s: State, table: seq<Record>, got: set<Msg>, n: nat)
    requires DataInv(s, table, got) && n < |table| && First(n) in got
    requires n in s.data && s.data[n] == S.Entry(table[n].origin, table[n].ts, n, table[n].id)
    ensures DataInv(Mark(s, table[n], n), table, got + {Second(n)})
  {
  }

  lemma MarkGot(s: State, table: seq<Record>, got: set<Msg>, n: nat)
    requires GotOk(table, got) && EmitInv(s, table, got) && NextInv(s, got)
    requires n < |table| && table[n].done && First(n) in got
    requires n in s.data && (s.data[n].Wait? || s.data[n].Single?)
    ensures var t := Mark(s, table[n], n);
      GotOk(table, got + {Second(n)}) && EmitInv(t, table, got + {Second(n)}) && NextInv(t, got + {Second(n)})
  {
  }

  lemma MarkStatus(s: State, table: seq<Record>, n: nat)
    requires StatusInv(s, table) && n < |table| && n in s.data && (s.data[n].Wait? || s.data[n].Single?)
    ensures StatusInv(Mark(s, table[n], n), table)
  {
  }

  /** Marking an entry, before any flush. */
  lemma MarkTracks(s: State, table: seq<Record>, got: set<Msg>, n: nat)
    requires Tracks(s, table, got) && n < |table| && table[n].done
    requires First(n) in got && Second(n) !in got
    ensures n in s.data && (s.data[n].Wait? || s.data[n].Single?)
    ensures Tracks(Mark(s, table[n], n), table, got + {Second(n)})
  {
    hide DataInv, EmitInv, ClockInv, NextInv, StatusInv, GotOk;
    SecondFinds(s, table, got, n);
    MarkClock(s, table, got, n);
    MarkData(s, table, got, n);
    MarkGot(s, table, got, n);
    MarkStatus(s, table, n);
  }

  lemma EmitData(s: State, table: seq<Record>, got: set<Msg>)
    requires GotOk(table, got) && DataInv(s, table, got) && EmitInv(s, table, got) && FrontReplicated(s)
    ensures DataInv(EmitFront(s), table, got) && EmitInv(EmitFront(s), table, got)
    ensures s.start < |table| && s.data[s.start].id == table[s.start].id
  {
  }

  lemma EmitStatus(s: State, table: seq<Record>)
    requires TableOk(table) && StatusInv(s, table) && FrontReplicated(s) && s.start < |table|
    requires s.data[s.start].id == table[s.start].id
    ensures StatusInv(EmitFront(s), table)
  {
    var t, gone := EmitFront(s), table[s.start].id;
    forall id | id in t.status ensures t.status[id] == s.status[id] && t.status[id].node in t.data {
      assert s.status[id].node != s.start;
    }
    forall n | n in t.data && n < |table| ensures table[n].id != gone {
      assert n != s.start;
    }
  }

  lemma EmitTracks(s: State, table: seq<Record>, got: set<Msg>)
    requires Tracks(s, table, got) && FrontReplicated(s)
    ensures Tracks(EmitFront(s), table, got)
  {
    hide DataInv, EmitInv, StatusInv, GotOk;
    EmitData(s, table, got);
    EmitStatus(s, table);
  }

  lemma {:induction false} DrainInv(s: State, table: seq<Record>, got: set<Msg>)
    requires Tracks(s, table, got)
    ensures Inv(Drain(s), table, got)
    decreases |s.data|
  {
    if FrontReplicated(s) {
      EmitTracks(s, table, got);
      DrainInv(EmitFront(s), table, got);
    }
  }

  lemma SecondApplies(s: State, table: seq<Record>, got: set<Msg>, n: nat)
    requires Inv(s, table, got) && n < |table| && table[n].done
    requires First(n) in got && Second(n) !in got
    ensures CanApply(s, table, Second(n))
    ensures Inv(Apply(s, table, Second(n)), table, got + {Second(n)})
  {
    hide DataInv, EmitInv, ClockInv, NextInv, StatusInv, GotOk;
    SecondFinds(s, table, got, n);
    MarkTracks(s, table, got, n);
    DrainInv(Mark(s, table[n], n), table, got + {Second(n)});
    if n != s.start { MarkKeepsFront(s, table[n], n); }
  }

  lemma MarkKeepsFront(s: State, r: Record, n: nat)
    requires n in s.data && (s.data[n].Wait? || s.data[n].Single?) && n != s.start
    ensures FrontReplicated(Mark(s, r, n)) == FrontReplicated(s)
  {
  }

  // ---------------------------------------------------------------------------
  // Whole arrival orders

  ghost function AllOf(msgs: seq<Msg>): set<Msg> {
    set m | m in msgs
  }

  lemma ArrivesPrefix(table: seq<Record>, msgs: seq<Msg>)
    requires Arrives(table, msgs) && msgs != []
    ensures Arrives(table, msgs[..|msgs| - 1])
  {
  }

  lemma InitInv(table: seq<Record>)
    requires TableOk(table)
    ensures Inv(INIT, table, {})
  {
  }

  lemma ArrivalApplies(s: State, table: seq<Record>, init: seq<Msg>, m: Msg)
    requires Inv(s, table, AllOf(init)) && Arrives(table, init + [m])
    ensures m.node < |table| && CanApply(s, table, m) && Inv(Apply(s, table, m), table, AllOf(init + [m]))
  {
    hide Inv;
    var msgs := init + [m];
    assert msgs[|init|] == m && msgs[..|init|] == init;
    assert AllOf(msgs) == AllOf(init) + {m};
    if m.First? { FirstApplies(s, table, AllOf(init), m.node); } else { SecondApplies(s, table, AllOf(init), m.node); }
  }

  /** The state after an arrival order. */
  ghost function After(table: seq<Record>, msgs: seq<Msg>): (s: State)
    requires TableOk(table) && Arrives(table, msgs)
    ensures Inv(s, table, AllOf(msgs))
    decreases |msgs|
  {
    hide Inv;
    if msgs == [] then
      InitInv(table);
      assert AllOf(msgs) == {};
      INIT
    else
      var init, m := msgs[..|msgs| - 1], msgs[|msgs| - 1];
      ArrivesPrefix(table, msgs);
      assert msgs == init + [m];
      var s := After(table, init);
      ArrivalApplies(s, table, init, m);
      Apply(s, table, m)
  }

  /** The arrived records determine the replica's state. */
  lemma StateDetermined(a: State, b: State, table: seq<Record>, got: set<Msg>)
    requires Inv(a, table, got) && Inv(b, table, got)
    ensures a == b
  {
    StartDetermined(a, b, table, got);
    assert a.emitted == b.emitted;
    ClockDetermined(a, b, table, got);
    DataDetermined(a, b, table, got);
  }

  lemma StartDetermined(a: State, b: State, table: seq<Record>, got: set<Msg>)
    requires Inv(a, table, got) && Inv(b, table, got)
    ensures a.start == b.start
  {
    StartNotLess(a, b, table, got);
    StartNotLess(b, a, table, got);
  }

  lemma StartNotLess(a: State, b: State, table: seq<Record>, got: set<Msg>)
    requires Inv(a, table, got) && Inv(b, table, got)
    ensures a.start >= b.start
  {
    hide ClockInv, NextInv, StatusInv, DataInv;
    FrontOpen(a, table, got);
  }

  lemma ClockDetermined(a: State, b: State, table: seq<Record>, got: set<Msg>)
    requires ClockInv(a, table, got) && ClockInv(b, table, got) && NextInv(a, got) && NextInv(b, got)
    ensures a.nextTs == b.nextTs && a.next == b.next
  {
  }

  lemma DataDetermined(a: State, b: State, table: seq<Record>, got: set<Msg>)
    requires Inv(a, table, got) && Inv(b, table, got) && a.start == b.start
    ensures a.data == b.data && a.status == b.status
  {
    hide DataInv, EmitInv, StatusInv, ClockInv, NextInv, TableOk, GotOk;
    SameData(a, b, table, got);
    SameStatus(a, b, table);
  }

  lemma SameData(a: State, b: State, table: seq<Record>, got: set<Msg>)
    requires GotOk(table, got) && DataInv(a, table, got) && DataInv(b, table, got) && a.start == b.start
    ensures a.data == b.data
  {
    assert forall n :: n in a.data <==> n in b.data;
  }

  lemma SameStatus(a: State, b: State, table: seq<Record>)
    requires StatusInv(a, table) && StatusInv(b, table) && a.data == b.data && a.start == b.start
    ensures a.status == b.status
  {
    assert forall id :: id in a.status ==> id in b.status && a.status[id] == b.status[id];
    assert forall id :: id in b.status ==> id in a.status;
  }

  /** What the replica has handed on is a gap-free prefix of the head's queue, each
      entry once, at the head's timestamp and index. */
  lemma PrefixHandedOn(table: seq<Record>, msgs: seq<Msg>)
    requires TableOk(table) && Arrives(table, msgs)
    ensures var s := After(table, msgs);
      && |s.emitted| == s.start <= |table|
      && (forall n :: 0 <= n < s.start ==> table[n].done && s.emitted[n] == ExpectedEmit(table[n]))
      && (s.start < |table| ==> Second(s.start) !in msgs)
  {
    hide After, ClockInv, NextInv, StatusInv, DataInv, TableOk, Arrives;
    FrontOpen(After(table, msgs), table, AllOf(msgs));
  }

  /** Convergence: whatever the arrival order, the same records leave the replica
      in the same state, and the entries it has handed on are a gap-free prefix
      of the head's queue, each once, at the head's timestamp and index. */
  lemma Converges(table: seq<Record>, msgs: seq<Msg>, other: seq<Msg>)
    requires TableOk(table) && Arrives(table, msgs) && Arrives(table, other)
    ensures AllOf(msgs) == AllOf(other) ==> After(table, msgs) == After(table, other)
    ensures var s := After(table, msgs);
      && |s.emitted| == s.start <= |table|
      && (forall n :: 0 <= n < s.start ==> table[n].done && s.emitted[n] == ExpectedEmit(table[n]))
      && (s.start < |table| ==> Second(s.start) !in msgs)
  {
    hide After, Inv, TableOk, Arrives;
    if AllOf(msgs) == AllOf(other) {
      StateDetermined(After(table, msgs), After(table, other), table, AllOf(msgs));
    }
    PrefixHandedOn(table, msgs);
  }

  lemma FrontOpen(s: State, table: seq<Record>, got: set<Msg>)
    requires Inv(s, table, got)
    ensures Second(s.start) !in got
  {
    hide ClockInv, NextInv, StatusInv, TableOk, EmitInv;
    assert Second(s.start) in got ==> First(s.start) in got;
  }

  /** Once every record of a finished table has arrived, all of it has been
      handed on and nothing is left behind. */
  lemma AllHandedOn(table: seq<Record>, msgs: seq<Msg>)
    requires TableOk(table) && Arrives(table, msgs)
    requires forall n :: 0 <= n < |table| ==> Second(n) in msgs
    ensures var s := After(table, msgs);
      && s.data == map[] && s.status == map[] && s.start == |table|
      && s.emitted == seq(|table|, n requires 0 <= n < |table| => ExpectedEmit(table[n]))
  {
    hide After, Inv, TableOk, Arrives;
    PrefixHandedOn(table, msgs);
    var s := After(table, msgs);
    assert s.start == |table|;
    NothingLeft(s, table, AllOf(msgs));
  }

  lemma NothingLeft(s: State, table: seq<Record>, got: set<Msg>)
    requires Inv(s, table, got) && s.start == |table|
    ensures s.data == map[] && s.status == map[]
  {
    hide ClockInv, NextInv, TableOk, EmitInv;
    assert forall n :: n in s.data ==> First(n) in got;
    assert forall n :: n !in s.data;
  }

  // ---------------------------------------------------------------------------
  // The head's own records form such a table

  ghost predicate FlushOf(c: S.Chain, n: nat, j: int) {
    S.FlushedAt(c.history, j) && n < |c.accepted| && c.history[j].g.id == c.accepted[n].id
  }

  function Sent(a: S.Accepted): Record {
    Record(a.origin, a.id, a.ts, false, 0, 0)
  }

  function Flushed(a: S.Accepted, e: S.Event): Record
    requires e.Flushed?
  {
    Record(a.origin, a.id, a.ts, true, e.g.ts, e.index)
  }

  /** What a head has said so far about queue number n. */
  ghost function HeadRecord(c: S.Chain, n: nat): Record
    requires n < |c.accepted|
  {
    if j :| FlushOf(c, n, j) then Flushed(c.accepted[n], c.history[j]) else Sent(c.accepted[n])
  }

  /** The records a head has sent so far. */
  ghost function HeadTable(c: S.Chain): (table: seq<Record>)
    ensures |table| == |c.accepted| && forall n :: 0 <= n < |table| ==> table[n] == HeadRecord(c, n)
  {
    seq(|c.accepted|, n requires 0 <= n < |c.accepted| => HeadRecord(c, n))
  }

  /** A finished record is that of a delivery. */
  lemma FinishedRecord(c: S.Chain, n: nat) returns (j: int)
    requires n < |c.accepted| && HeadRecord(c, n).done
    ensures FlushOf(c, n, j) && HeadRecord(c, n) == Flushed(c.accepted[n], c.history[j])
  {
    j :| FlushOf(c, n, j) && HeadRecord(c, n) == Flushed(c.accepted[n], c.history[j]);
  }

  /** A delivery gives the record of its queue number. */
  lemma DeliveredRecord(c: S.Chain, n: nat, j: int)
    requires S.Core(c) && FlushOf(c, n, j)
    ensures HeadRecord(c, n) == Flushed(c.accepted[n], c.history[j])
  {
    hide S.ClockInv, S.QueueInv, S.AcceptedIdsInv, S.PoppedInv, S.DirectIdsInv, S.CoverInv, S.StatusInv, S.OrderInv,
      S.LastFlushInv, S.DirectInv, S.IndexInv;
    var i := FinishedRecord(c, n);
    assert S.EventId(c.history[i]) == S.EventId(c.history[j]);
  }

  lemma HeadFlush(c: S.Chain, n: nat, j: int)
    requires S.Core(c) && FlushOf(c, n, j)
    ensures S.Completes(c.history[j].g, c.accepted[n])
  {
    hide S.ClockInv, S.QueueInv, S.HistoryIdsInv, S.DirectIdsInv, S.CoverInv, S.StatusInv, S.OrderInv, S.LastFlushInv,
      S.DirectInv, S.IndexInv;
    var m :| S.PoppedAs(c.accepted, c.start, c.history[j].g, m);
  }

  lemma HeadIds(c: S.Chain, n: nat, m: nat)
    requires S.Core(c) && n < m < |c.accepted|
    ensures HeadRecord(c, n).id != HeadRecord(c, m).id
  {
    hide S.ClockInv, S.QueueInv, S.PoppedInv, S.HistoryIdsInv, S.DirectIdsInv, S.CoverInv, S.StatusInv, S.OrderInv,
      S.LastFlushInv, S.DirectInv, S.IndexInv;
  }

  /** The replica may rely on the head's records. */
  lemma HeadTableOk(c: S.Chain)
    requires S.Core(c)
    ensures TableOk(HeadTable(c))
  {
    hide S.Core, HeadRecord;
    var table := HeadTable(c);
    forall n, m | 0 <= n < m < |table| ensures table[n].id != table[m].id {
      HeadIds(c, n, m);
    }
    forall n | 0 <= n < |table| && table[n].done
      ensures if table[n].origin.FromSingle? then table[n].maxTs == table[n].ts else table[n].ts <= table[n].maxTs
    {
      var j := FinishedRecord(c, n);
      HeadFlush(c, n, j);
    }
  }

  /** The replica of head c after it has received these of the head's records. */
  ghost function Mirror(c: S.Chain, msgs: seq<Msg>): State
    requires S.Core(c) && Arrives(HeadTable(c), msgs)
  {
    HeadTableOk(c);
    After(HeadTable(c), msgs)
  }

  /** The head delivered this entry, with this timestamp and at this index. */
  ghost predicate DeliveredAs(c: S.Chain, e: Emit) {
    exists j :: S.FlushedAt(c.history, j) && c.history[j].g.id == e.id && c.history[j].g.ts == e.maxTs
      && c.history[j].index == e.index
  }

  /** What the replica hands on is what the head delivered, at the head's final
      timestamp and index. */
  lemma ReplicaAgrees(c: S.Chain, msgs: seq<Msg>, n: nat)
    requires S.Core(c) && Arrives(HeadTable(c), msgs) && n < |Mirror(c, msgs).emitted|
    ensures n < |c.accepted| && Mirror(c, msgs).emitted[n].id == c.accepted[n].id
    ensures DeliveredAs(c, Mirror(c, msgs).emitted[n])
  {
    hide S.Core, HeadRecord, After, TableOk, Arrives;
    HeadTableOk(c);
    PrefixHandedOn(HeadTable(c), msgs);
    var j := FinishedRecord(c, n);
  }

  /** When the head holds nothing back and all its records have arrived, the
      replica has handed on every entry the head accepted. */
  lemma ReplicaCatchesUp(c: S.Chain, msgs: seq<Msg>)
    requires S.Core(c) && c.queue == [] && c.heap == {} && Arrives(HeadTable(c), msgs)
    requires forall n :: 0 <= n < |c.accepted| && HeadTable(c)[n].done ==> Second(n) in msgs
    ensures var s := Mirror(c, msgs); |s.emitted| == |c.accepted| && s.data == map[] && s.status == map[]
  {
    hide S.Core, HeadRecord, After, TableOk, Arrives;
    HeadTableOk(c);
    forall n | 0 <= n < |c.accepted| ensures HeadTable(c)[n].done {
      HeadDelivered(c, n);
    }
    AllHandedOn(HeadTable(c), msgs);
  }

  lemma HeadDelivered(c: S.Chain, n: nat)
    requires S.Core(c) && c.queue == [] && c.heap == {} && n < |c.accepted|
    ensures HeadRecord(c, n).done
  {
    hide S.ClockInv, S.PoppedInv, S.HistoryIdsInv, S.DirectIdsInv, S.StatusInv, S.OrderInv, S.LastFlushInv,
      S.DirectInv, S.IndexInv;
    assert !S.InHeap(c.heap, c.accepted[n].id);
    var j :| S.FlushedAt(c.history, j) && c.history[j].g.id == c.accepted[n].id;
    assert FlushOf(c, n, j);
  }
}
