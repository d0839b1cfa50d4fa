/** A chain on its head server, updated in place: SkeensState together with the
    length of the chain's trie (fuzzy_log_server/src/skeens.rs and the Chain
    methods of fuzzy_log_server/src/ordering_thread.rs). Every method performs
    the step of the same name in SkeensChain. */
module ChainHeads {
  import opened SkeensOrder
  import S = SkeensChain
  import opened VecDequeMaps
  import opened Options

  /** The clock is a 64-bit counter and must not run out. */
  const MAX_TIME: nat := 0xFFFF_FFFF_FFFF_FFFF

  class ChainHead {
    var nextTimestamp: Time
    var lastFlush: Time
    const queue: VecDequeMap<Waiting>
    var heap: set<GotMax>
    var status: map<Id, S.Status>
    var trieLen: nat
    ghost var accepted: seq<S.Accepted>
    ghost var history: seq<S.Event>

    ghost predicate Valid()
      reads this, queue
    {
      queue.Valid() && queue.Contiguous()
    }

    /** This chain as a value. */
    ghost function Abs(): S.Chain
      requires Valid()
      reads this, queue
    {
      S.Chain(nextTimestamp, lastFlush, queue.start, queue.Items(), heap, status, trieLen, accepted, history)
    }

    constructor ()
      ensures Valid() && Abs() == S.EMPTY_CHAIN && fresh(queue)
    {
      queue := new VecDequeMap<Waiting>();
      nextTimestamp, lastFlush, heap, status, trieLen := 1, 0, {}, map[], 1;
      accepted, history := [], [];
    }

    method BumpTo(t: Time)
      requires Valid() && t < MAX_TIME
      modifies this
      ensures Valid() && Abs() == S.Bump(old(Abs()), t)
      ensures nextTimestamp <= MAX_TIME || nextTimestamp == old(nextTimestamp)
    {
      if nextTimestamp <= t {
        nextTimestamp := t + 1;
      }
    }

    /** What a repeated id is told. */
    method ExistingRes(id: Id) returns (res: S.AppendRes)
      requires Valid() && S.Inv(Abs()) && id in status
      ensures S.Answerable(Abs(), id) && res == S.Existing(Abs(), id)
    {
      hide S.Core;
      S.AlwaysAnswerable(Abs(), id);
      match status[id]
      case Phase2(t) => res := S.InPhase2(t);
      case Phase1(n) => res := S.FromSlot(queue.data[n]);
      case Singleton(n) => res := S.FromSlot(queue.data[n]);
    }

    method Push(origin: Origin, id: Id) returns (res: S.AppendRes)
      requires Valid() && nextTimestamp < MAX_TIME
      modifies this, queue
      ensures Valid() && Abs() == S.Push(old(Abs()), origin, id)
      ensures res == S.NewAppend(old(nextTimestamp), old(queue.next))
    {
      var ts, node := nextTimestamp, queue.next;
      nextTimestamp := nextTimestamp + 1;
      var w := S.Entry(origin, ts, node, id);
      var n := queue.PushBack(w);
      status := status[id := S.StatusOf(w)];
      accepted := accepted + [S.Accepted(origin, id, ts)];
      res := S.NewAppend(ts, n);
    }

    /** add_multi_append and add_snapshot. */
    method AddMulti(kind: Kind, id: Id) returns (res: S.AppendRes)
      requires Valid() && S.Inv(Abs()) && nextTimestamp < MAX_TIME
      modifies this, queue
      ensures S.Answerable(old(Abs()), id)
      ensures Valid() && (Abs(), res) == S.AddMulti(old(Abs()), kind, id)
      ensures id in old(status) ==> Abs() == old(Abs())
      ensures old(S.Fresh(Abs(), id)) ==> S.Inv(Abs()) && res.NewAppend? && res.ts > 0
    {
      hide S.Core;
      ghost var was := Abs();
      S.AlwaysAnswerable(was, id);
      if id in status {
        res := ExistingRes(id);
      } else {
        res := Push(FromMulti(kind), id);
      }
      if S.Fresh(was, id) {
        RoundOne(was, kind, id);
      }
    }

    static lemma RoundOne(was: S.Chain, kind: Kind, id: Id)
      requires S.Inv(was) && S.Fresh(was, id)
      ensures S.Answerable(was, id)
      ensures S.Inv(S.AddMulti(was, kind, id).0) && was.nextTs > 0
      ensures S.AddMulti(was, kind, id).1 == S.NewAppend(was.nextTs, was.start + |was.queue|)
    {
      hide S.Core;
      S.FreshNotInStatus(was, id);
      S.AddMultiInv(was, kind, id);
      ClockPositive(was);
    }

    static lemma ClockPositive(was: S.Chain)
      requires S.Core(was)
      ensures was.nextTs > 0
    {
    }

    /** add_single_append; its assertion is the second precondition. */
    method AddSingle(id: Id, t: Time) returns (res: S.AppendRes)
      requires Valid() && S.Inv(Abs())
      requires Abs().queue != []
      requires t < MAX_TIME - 1 && nextTimestamp < MAX_TIME
      modifies this, queue
      ensures S.Answerable(old(Abs()), id)
      ensures Valid() && (Abs(), res) == S.AddSingle(old(Abs()), id, t)
    {
      hide S.Core;
      S.AlwaysAnswerable(Abs(), id);
      S.BumpInv(Abs(), t);
      BumpTo(t);
      if id in status {
        res := ExistingRes(id);
      } else {
        res := Push(FromSingle, id);
      }
    }

    method NeedSingleAt(t: Time) returns (need: bool)
      requires Valid() && t < MAX_TIME
      modifies this
      ensures Valid()
      ensures need == S.NeedSingleAt(old(Abs()), t)
      ensures Abs() == if need then old(Abs()) else S.Bump(old(Abs()), t)
    {
      var isEmpty := queue.data == map[] && heap == {};
      assert queue.data == map[] <==> Abs().queue == [] by {
        if Abs().queue != [] { assert queue.start in queue.data; }
        if queue.data != map[] { var k :| k in queue.data; }
      }
      if isEmpty || lastFlush >= t {
        BumpTo(t);
        return false;
      }
      return true;
    }

    /** The Data branch of handle_op: queue the single, or append it right away
        and return its index. */
    method HandleSingle(id: Id, t: Time) returns (index: Option<nat>)
      requires Valid() && S.Inv(Abs()) && S.Fresh(Abs(), id)
      requires t < MAX_TIME - 1 && nextTimestamp < MAX_TIME
      modifies this, queue
      ensures Valid() && S.Answerable(old(Abs()), id) && S.Inv(Abs())
      ensures S.NeedSingleAt(old(Abs()), t) ==> old(Abs()).queue != []
      ensures Abs() == S.HandleSingle(old(Abs()), id, t)
      ensures index == if S.NeedSingleAt(old(Abs()), t) then None else Some(old(trieLen))
    {
      hide S.Core;
      ghost var was := Abs();
      S.HandleSingleInv(was, id, t);
      var need := NeedSingleAt(t);
      if need {
        var res := AddSingle(id, t);
        index := None;
      } else {
        index := Some(trieLen);
        history := history + [S.Direct(id, t, trieLen)];
        trieLen := trieLen + 1;
      }
    }

    /** The heap's first element: BinaryHeap::peek. */
    method Peek() returns (top: Option<GotMax>)
      requires DistinctIds(heap)
      ensures heap == {} <==> top == None
      ensures heap != {} ==> top == Some(Top(heap))
    {
      var rest := heap;
      top := None;
      while rest != {}
        invariant rest <= heap
        invariant top == None <==> rest == heap
        invariant top.Some? ==> IsTop(heap - rest, top.value)
        decreases rest
      {
        var g :| g in rest;
        if top.None? {
          top := Some(g);
          assert heap - (rest - {g}) == {g};
        } else {
          assert top.value != g;
          CmpIsKeyOrder(g, top.value);
          if Cmp(g, top.value) == Greater {
            top := Some(g);
          }
        }
        rest := rest - {g};
      }
      if top.Some? {
        assert heap - rest == heap;
        TopUnique(heap, top.value);
      }
    }

    method CanFlush() returns (can: bool)
      requires Valid() && DistinctIds(heap)
      requires Abs().queue != [] ==> Abs().queue[0].Wait?
      ensures can == S.CanFlush(Abs())
    {
      var top := Peek();
      if top.None? {
        return false;
      }
      var front := queue.Front();
      if front.None? {
        return true;
      }
      return HappensBefore(top.value, front.value);
    }

    /** The loop that moves the finished front of the queue into the heap. */
    method PopReady()
      requires Valid()
      requires forall i :: 0 <= i < |Abs().queue| ==> !Abs().queue[i].Replicated?
      modifies this, queue
      ensures Valid() && Abs() == S.PopReady(old(Abs()))
    {
      while queue.Front().Some? && HasFinalTs(queue.Front().value)
        invariant Valid()
        invariant forall i :: 0 <= i < |Abs().queue| ==> !Abs().queue[i].Replicated?
        invariant S.PopReady(Abs()) == S.PopReady(old(Abs()))
        decreases queue.next - queue.start
      {
        ghost var was := Abs();
        var w := queue.PopFront();
        heap := heap + {IntoGotMax(w.value)};
        assert Abs() == S.PopOne(was);
      }
    }

    /** set_max_timestamp, for an id that is waiting. */
    method SetMax(id: Id, m: Time) returns (res: S.SetMaxRes)
      requires Valid() && S.Inv(Abs()) && m < MAX_TIME
      requires S.Awaiting(Abs(), id) && S.Proposed(Abs(), id) <= m
      modifies this, queue
      ensures Valid() && Abs() == S.SetMax(old(Abs()), id, m) && S.Core(Abs())
      ensures Abs().queue != [] ==> Abs().queue[0].Wait?
      ensures res == if S.CanFlush(Abs()) then S.NeedsFlush else S.Ok
    {
      hide S.Core, S.SetAt, S.PopReady;
      ghost var was := Abs();
      S.SetMaxCore(was, id, m);
      S.SetAtBumpedCore(was, id, m);
      NoReplicas(S.SetAt(S.Bump(was, m), status[id].node, m));
      BumpTo(m);
      MarkMax(status[id].node, m);
      PopReady();
      DistinctHeap(Abs());
      var can := CanFlush();
      res := if can then S.NeedsFlush else S.Ok;
    }

    /** The element waiting at queue number n gets its final timestamp, in place. */
    method MarkMax(n: nat, m: Time)
      requires Valid() && Abs().start <= n < Abs().start + |Abs().queue| && Abs().queue[n - Abs().start].Wait?
      modifies this, queue
      ensures Valid() && Abs() == S.SetAt(old(Abs()), n, m)
    {
      ghost var was := Abs();
      var w := queue.data[n];
      queue.Update(n, HasMax(w.kind, m, w.node, w.id));
      status := status[w.id := S.Phase2(m)];
      assert Abs() == S.SetAt(was, n, m);
    }

    static lemma NoReplicas(c: S.Chain)
      requires S.Core(c)
      ensures forall i :: 0 <= i < |c.queue| ==> !c.queue[i].Replicated?
    {
      hide S.ClockInv, S.AcceptedIdsInv, S.PoppedInv, S.HistoryIdsInv, S.DirectIdsInv, S.CoverInv, S.StatusInv,
        S.OrderInv, S.LastFlushInv, S.DirectInv, S.IndexInv;
      assert forall i :: 0 <= i < |c.queue| ==> S.Matches(c.queue[i], c.start + i, c.accepted[c.start + i]);
    }

    static lemma DistinctHeap(c: S.Chain)
      requires S.Core(c)
      ensures DistinctIds(c.heap) && c.len > 0
    {
    }

    /** set_max_timestamp, for an id that is not waiting. */
    method SetMaxOther(id: Id, m: Time) returns (res: S.SetMaxRes)
      requires Valid() && S.Inv(Abs()) && m < MAX_TIME
      requires id in status ==> !status[id].Phase1?
      modifies this
      ensures S.Answerable(old(Abs()), id)
      ensures Valid() && Abs() == S.Bump(old(Abs()), m) && S.Inv(Abs())
      ensures res == if id !in old(status) then S.NotWaiting else S.Duplicate(S.Existing(old(Abs()), id).ts)
    {
      hide S.Core;
      S.AlwaysAnswerable(Abs(), id);
      S.BumpInv(Abs(), m);
      BumpTo(m);
      if id !in status {
        return S.NotWaiting;
      }
      var r := ExistingRes(id);
      res := S.Duplicate(r.ts);
    }

    /** One turn of the flush loop: the heap's first entry gets its index. */
    method FlushOne() returns (e: S.Event)
      requires Valid() && S.Core(Abs()) && S.CanFlush(Abs())
      modifies this
      ensures Valid() && old(Abs()).len > 0 && Abs() == S.FlushOne(old(Abs())) && S.Core(Abs())
      ensures history == old(history) + [e]
    {
      hide S.Core;
      ghost var was := Abs();
      DistinctHeap(was);
      S.FlushOneCore(was);
      var top := Peek();
      var g := top.value;
      heap := heap - {g};
      status := status - {g.id};
      lastFlush := if g.ts > lastFlush then g.ts else lastFlush;
      var (index, len) := S.Place(g, trieLen);
      trieLen := len;
      e := S.Flushed(g, index);
      history := history + [e];
    }

    /** flush_got_max_timestamp with the closure finish_multi gives it. */
    method Flush() returns (finished: seq<S.Event>)
      requires Valid() && S.Core(Abs()) && trieLen > 0
      requires Abs().queue != [] ==> Abs().queue[0].Wait?
      modifies this
      ensures Valid() && Abs() == S.Flush(old(Abs()))
      ensures history == old(history) + finished
    {
      hide S.Core;
      finished := [];
      DistinctHeap(Abs());
      var can := CanFlush();
      while can
        invariant Valid() && S.Core(Abs()) && trieLen > 0
        invariant Abs().queue != [] ==> Abs().queue[0].Wait?
        invariant can == S.CanFlush(Abs())
        invariant S.Flush(Abs()) == S.Flush(old(Abs()))
        invariant history == old(history) + finished
        decreases heap
      {
        var e := FlushOne();
        finished := finished + [e];
        DistinctHeap(Abs());
        can := CanFlush();
      }
    }

    /** Round two: finish_multi. Returns what was flushed and where, in order. */
    method FinishMulti(id: Id, m: Time) returns (finished: seq<S.Event>)
      requires Valid() && S.Inv(Abs()) && m < MAX_TIME
      requires S.Awaiting(Abs(), id) && S.Proposed(Abs(), id) <= m
      modifies this, queue
      ensures Valid() && old(Abs()).len > 0 && Abs() == S.FinishMulti(old(Abs()), id, m)
      ensures S.Inv(Abs()) && history == old(history) + finished
    {
      hide S.Core;
      ghost var was := Abs();
      DistinctHeap(was);
      S.FinishMultiInv(was, id, m);
      S.PopReadyFrame(S.SetAt(S.Bump(was, m), status[id].node, m));
      var r := SetMax(id, m);
      if r == S.Ok {
        finished := [];
      } else {
        finished := Flush();
      }
    }
  }
}
